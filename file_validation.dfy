/** `validateFile`: a size check, then a type check, against the fixed policy constants. */
module FileValidation {
  import opened Wrappers
  import opened ChatTypes

  /** The `{ valid, error? }` record `validateFile` returns. */
  datatype FileCheck = FileCheck(valid: bool, error: Option<string>)

  function ValidateFile(file: SelectedFile): (r: FileCheck)
    ensures r.valid <==> file.size <= MAX_SIZE && file.mimeType in ALLOWED_TYPES
    ensures r.valid <==> r.error == None
    ensures file.size > MAX_SIZE ==> r.error == Some(FILE_TOO_LARGE)
    ensures file.size <= MAX_SIZE && file.mimeType !in ALLOWED_TYPES ==> r.error == Some(INVALID_FILE_TYPE)
  {
    if file.size > MAX_SIZE then
      FileCheck(false, Some(FILE_TOO_LARGE))
    else if file.mimeType !in ALLOWED_TYPES then
      FileCheck(false, Some(INVALID_FILE_TYPE))
    else
      FileCheck(true, None)
  }

  /** The size bound is inclusive: exactly 10 MiB passes the size check; one byte more does not. */
  lemma SizeBoundIsInclusive(name: string, mimeType: string, handle: nat)
    ensures ValidateFile(SelectedFile(name, 10 * 1024 * 1024, mimeType, handle)).error != Some(FILE_TOO_LARGE)
    ensures ValidateFile(SelectedFile(name, 10 * 1024 * 1024 + 1, mimeType, handle)).error == Some(FILE_TOO_LARGE)
  {
  }

  /** Size is checked before type: an oversized file of any type reports "too large". */
  lemma SizeCheckedBeforeType(file: SelectedFile)
    requires file.size > MAX_SIZE && file.mimeType !in ALLOWED_TYPES
    ensures ValidateFile(file) == FileCheck(false, Some(FILE_TOO_LARGE))
  {
  }

  /** The type must equal one of the four allowed strings exactly. */
  lemma TypeMustMatchExactly(name: string, size: nat, handle: nat)
    requires size <= MAX_SIZE
    ensures ValidateFile(SelectedFile(name, size, "image/png", handle)).error == Some(INVALID_FILE_TYPE)
    ensures ValidateFile(SelectedFile(name, size, "", handle)).error == Some(INVALID_FILE_TYPE)
    ensures ValidateFile(SelectedFile(name, size, "TEXT/PLAIN", handle)).error == Some(INVALID_FILE_TYPE)
    ensures ValidateFile(SelectedFile(name, size, "text/plain", handle)).valid
  {
  }

  /** An 11 MiB PDF is too large; a 1 KB text file is valid. */
  lemma ValidateFileExamples(handle: nat)
    ensures ValidateFile(SelectedFile("big.pdf", 11 * 1024 * 1024, "application/pdf", handle)).error == Some(FILE_TOO_LARGE)
    ensures ValidateFile(SelectedFile("note.txt", 1024, "text/plain", handle)) == FileCheck(true, None)
  {
  }
}
