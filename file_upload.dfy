/**
 * The upload panel: the same admission loop as the input bar but with one toast per
 * file, removal of a pending file, and the panel's button and counter.
 */
module FileUpload {
  import opened Wrappers
  import opened ChatTypes
  import opened FileValidation
  import opened Admission
  import ChatModel
  import opened ChatStore

  datatype ToastKind = Success | Warning | Error

  datatype Toast = Toast(kind: ToastKind, title: string, message: string)

  /** The panel writes its limit as the literal 3; it is the same number as `MAX_FILES`. */
  const PANEL_LIMIT: nat := 3

  lemma PanelLimitIsMaxFiles()
    ensures PANEL_LIMIT == MAX_FILES
  {
  }

  /**
   * The toast for one file: success when it is added, a warning when the list is full,
   * and an error carrying the validation message when it is invalid, full list or not.
   */
  function ToastFor(file: SelectedFile, count: nat): (t: Toast)
    ensures t.kind == Success <==> ValidateFile(file).valid && count < MAX_FILES
    ensures t.kind == Success ==> t == Toast(Success, "File uploaded", file.name + " has been added successfully")
    ensures t.kind == Warning ==> t == Toast(Warning, "Upload limit reached", "Maximum 3 files allowed")
    ensures t.kind == Error <==> !ValidateFile(file).valid
    ensures t.kind == Error ==> t.title == "Upload failed" && ValidateFile(file).error == Some(t.message)
  {
    match Judge(file, count)
    case Admit => Toast(Success, "File uploaded", file.name + " has been added successfully")
    case LimitReached => Toast(Warning, "Upload limit reached", "Maximum 3 files allowed")
    case Rejected(reason) => Toast(Error, "Upload failed", reason)
  }

  /** The toasts of one batch: one per selected file, in selection order. */
  function Toasts(files: seq<SelectedFile>, count: nat): (r: seq<Toast>)
    ensures |r| == |files|
    decreases |files|
  {
    if files == [] then []
    else
      var n := |files| - 1;
      Toasts(files[..n], count) + [ToastFor(files[n], count)]
  }

  /** The i-th toast is the one for the i-th selected file. */
  lemma {:induction false} ToastsInOrder(files: seq<SelectedFile>, count: nat, i: nat)
    requires i < |files|
    ensures Toasts(files, count)[i] == ToastFor(files[i], count)
    decreases |files|
  {
    var n := |files| - 1;
    if i < n {
      assert files[..n][i] == files[i];
      ToastsInOrder(files[..n], count, i);
    }
  }

  /** The number of success toasts in a batch. */
  function SuccessCount(toasts: seq<Toast>): (n: nat)
    ensures n <= |toasts|
    decreases |toasts|
  {
    if toasts == [] then 0
    else
      var n := |toasts| - 1;
      SuccessCount(toasts[..n]) + (if toasts[n].kind == Success then 1 else 0)
  }

  /** A success toast is raised for exactly the files that are added. */
  lemma {:induction false} SuccessToastsMatchAdmitted(files: seq<SelectedFile>, ids: seq<string>, count: nat)
    requires |ids| == |files|
    ensures SuccessCount(Toasts(files, count)) == |Admitted(files, ids, count)|
    decreases |files|
  {
    if files != [] {
      var n := |files| - 1;
      SuccessToastsMatchAdmitted(files[..n], ids[..n], count);
      assert Toasts(files, count)[..n] == Toasts(files[..n], count);
    }
  }

  lemma ToastsStep(files: seq<SelectedFile>, count: nat, i: nat)
    requires i < |files|
    ensures Toasts(files[..i + 1], count) == Toasts(files[..i], count) + [ToastFor(files[i], count)]
  {
    assert files[..i + 1][..i] == files[..i];
  }

  /**
   * The `forEach` callback for one file: validation first, then the batch's `count`
   * against the limit; the file is added with a success toast, or a warning or error
   * toast is raised instead.
   */
  method SelectOne(store: Store, file: SelectedFile, id: string, count: nat) returns (toast: Toast)
    modifies store
    ensures store.uploadedFiles ==
      old(store.uploadedFiles) + (if Judge(file, count) == Admit then [ChatModel.NewUpload(file, id)] else [])
    ensures store.State() == old(store.State()).(uploadedFiles := store.uploadedFiles)
    ensures store.pendingSaves == old(store.pendingSaves)
    ensures toast == ToastFor(file, count)
  {
    var validation := ValidateFile(file);
    if validation.valid {
      if count < PANEL_LIMIT {
        store.AddFile(file, id);
        toast := Toast(Success, "File uploaded", file.name + " has been added successfully");
      } else {
        toast := Toast(Warning, "Upload limit reached", "Maximum 3 files allowed");
      }
    } else {
      toast := Toast(Error, "Upload failed", validation.error.value);
    }
  }

  /**
   * `handleFileSelect`: every selected file in order, judged against the count read
   * before the loop, with one toast each; `ids[i]` is the id `addFile` draws for `files[i]`.
   */
  method HandleFileSelect(store: Store, files: seq<SelectedFile>, ids: seq<string>) returns (toasts: seq<Toast>)
    requires |ids| == |files|
    modifies store
    ensures store.State() == old(store.State()).(uploadedFiles :=
      old(store.uploadedFiles) + Admitted(files, ids, |old(store.uploadedFiles)|))
    ensures store.pendingSaves == old(store.pendingSaves)
    ensures toasts == Toasts(files, |old(store.uploadedFiles)|)
  {
    var count := |store.uploadedFiles|;
    toasts := [];
    ghost var s0 := store.State();
    for i := 0 to |files|
      invariant store.uploadedFiles == s0.uploadedFiles + Admitted(files[..i], ids[..i], count)
      invariant store.State() == s0.(uploadedFiles := store.uploadedFiles)
      invariant store.pendingSaves == old(store.pendingSaves)
      invariant toasts == Toasts(files[..i], count)
    {
      ghost var before := store.uploadedFiles;
      var toast := SelectOne(store, files[i], ids[i], count);
      toasts := toasts + [toast];
      SelectStep(files, ids, count, i, s0.uploadedFiles, before, store.uploadedFiles);
      ToastsStep(files, count, i);
    }
    assert files[..|files|] == files && ids[..|ids|] == ids;
  }

  /** `handleRemoveFile`: delegates to the store's `removeFile`. */
  method HandleRemoveFile(store: Store, fileId: string)
    modifies store
    ensures store.State() == ChatModel.Apply(old(store.State()), ChatModel.RemoveFile(fileId))
    ensures store.pendingSaves == old(store.pendingSaves)
  {
    store.RemoveFile(fileId);
  }

  // ---------------------------------------------------------------------------
  // What the panel shows

  /** The decimal digits of `n`, as the template literal writes a number. */
  function Decimal(n: nat): (s: string)
    ensures s != [] && forall i :: 0 <= i < |s| ==> '0' <= s[i] <= '9'
    decreases n
  {
    var d := [(('0' as int) + n % 10) as char];
    if n < 10 then d else Decimal(n / 10) + d
  }

  /** The number a string of decimal digits denotes. */
  function DigitsValue(s: string): nat
    requires forall i :: 0 <= i < |s| ==> '0' <= s[i] <= '9'
    decreases |s|
  {
    if s == [] then 0
    else
      var n := |s| - 1;
      10 * DigitsValue(s[..n]) + (s[n] as int - '0' as int)
  }

  /** Reading the digits back gives the number written. */
  lemma {:induction false} DecimalRoundTrip(n: nat)
    ensures DigitsValue(Decimal(n)) == n
    decreases n
  {
    if n >= 10 {
      DecimalRoundTrip(n / 10);
      var s := Decimal(n);
      assert s[..|s| - 1] == Decimal(n / 10);
    }
  }

  /** One pending file's tag: its name, and the id its remove button passes to `handleRemoveFile`. */
  datatype FileTag = FileTag(name: string, removeId: string)

  datatype UploadPanel = UploadPanel(tags: seq<FileTag>, buttonDisabled: bool, counter: string)

  function Tags(pending: seq<UploadedFile>): (r: seq<FileTag>)
    ensures |r| == |pending|
    ensures forall i :: 0 <= i < |pending| ==> r[i] == FileTag(pending[i].name, pending[i].id)
  {
    if pending == [] then [] else [FileTag(pending[0].name, pending[0].id)] + Tags(pending[1..])
  }

  /**
   * The panel: nothing when uploads are not allowed; otherwise a tag per pending file, a
   * button disabled once three files are pending, and the counter `count/3 files`.
   */
  function Render(allowUpload: bool, pending: seq<UploadedFile>): (p: Option<UploadPanel>)
    ensures p == None <==> !allowUpload
    ensures p.Some? ==> (p.value.buttonDisabled <==> |pending| >= MAX_FILES)
    ensures p.Some? ==> p.value.tags == Tags(pending)
    ensures p.Some? ==> p.value.counter == Decimal(|pending|) + "/3 files"
  {
    if !allowUpload then None
    else Some(UploadPanel(Tags(pending), |pending| >= PANEL_LIMIT, Decimal(|pending|) + "/" + "3" + " files"))
  }

  /** The counter names the pending count: its digits read back as `|pending|`. */
  lemma CounterShowsCount(pending: seq<UploadedFile>)
    ensures var c := Render(true, pending).value.counter;
      && c[|c| - 8..] == "/3 files"
      && DigitsValue(c[..|c| - 8]) == |pending|
  {
    var c := Render(true, pending).value.counter;
    var d := Decimal(|pending|);
    assert c == d + "/3 files";
    assert c[..|c| - 8] == d;
    DecimalRoundTrip(|pending|);
  }
}
