/**
 * The rule both upload handlers apply to each file of one selection: validation first,
 * then the pending count against `MAX_FILES`. The count is the one read when the batch
 * starts; it is not re-read after each `addFile`.
 */
module Admission {
  import opened Wrappers
  import opened ChatTypes
  import opened FileValidation
  import ChatModel

  datatype Verdict = Admit | LimitReached | Rejected(reason: string)

  /** The decision for one selected file, given the pending count `count`. */
  function Judge(file: SelectedFile, count: nat): (v: Verdict)
    ensures v == Admit <==> ValidateFile(file).valid && count < MAX_FILES
    ensures v == LimitReached <==> ValidateFile(file).valid && count >= MAX_FILES
    ensures v.Rejected? <==> !ValidateFile(file).valid
    ensures v.Rejected? ==> ValidateFile(file).error == Some(v.reason)
  {
    var check := ValidateFile(file);
    if !check.valid then Rejected(check.error.value)
    else if count < MAX_FILES then Admit
    else LimitReached
  }

  /**
   * The uploads one batch adds, in selection order, with `ids[i]` the id `addFile`
   * draws for `files[i]`: every file is judged against the same `count`.
   */
  function Admitted(files: seq<SelectedFile>, ids: seq<string>, count: nat): (r: seq<UploadedFile>)
    requires |ids| == |files|
    ensures |r| <= |files|
    decreases |files|
  {
    if files == [] then []
    else
      var n := |files| - 1;
      Admitted(files[..n], ids[..n], count)
        + (if Judge(files[n], count) == Admit then [ChatModel.NewUpload(files[n], ids[n])] else [])
  }

  /**
   * Every admitted upload is the record of one of the selected files that passed
   * validation and was admitted, under the id drawn for that file.
   */
  lemma {:induction false} AdmittedAreValid(files: seq<SelectedFile>, ids: seq<string>, count: nat, k: nat)
    requires |ids| == |files| && k < |Admitted(files, ids, count)|
    ensures var u := Admitted(files, ids, count)[k];
      && u.file.Live?
      && ValidateFile(u.file.selected).valid
      && exists j :: 0 <= j < |files| && Judge(files[j], count) == Admit && u == ChatModel.NewUpload(files[j], ids[j])
    decreases |files|
  {
    var n := |files| - 1;
    var prefix := Admitted(files[..n], ids[..n], count);
    var tail := if Judge(files[n], count) == Admit then [ChatModel.NewUpload(files[n], ids[n])] else [];
    assert Admitted(files, ids, count) == prefix + tail;
    if k < |prefix| {
      AdmittedAreValid(files[..n], ids[..n], count, k);
      var j :| 0 <= j < n && Judge(files[..n][j], count) == Admit
        && prefix[k] == ChatModel.NewUpload(files[..n][j], ids[..n][j]);
      assert files[..n][j] == files[j] && ids[..n][j] == ids[j];
    } else {
      assert Admitted(files, ids, count)[k] == tail[0];
    }
  }

  /** One more file of the batch adds at most its own upload, at the end. */
  lemma AdmittedStep(files: seq<SelectedFile>, ids: seq<string>, count: nat, i: nat)
    requires |ids| == |files| && i < |files|
    ensures Admitted(files[..i + 1], ids[..i + 1], count) == Admitted(files[..i], ids[..i], count)
      + (if Judge(files[i], count) == Admit then [ChatModel.NewUpload(files[i], ids[i])] else [])
  {
    assert files[..i + 1][..i] == files[..i] && ids[..i + 1][..i] == ids[..i];
  }

  /** The loop's bookkeeping after one more file: the pending list and the admitted prefix grow together. */
  lemma SelectStep(files: seq<SelectedFile>, ids: seq<string>, count: nat, i: nat,
                   start: seq<UploadedFile>, before: seq<UploadedFile>, after: seq<UploadedFile>)
    requires |ids| == |files| && i < |files|
    requires before == start + Admitted(files[..i], ids[..i], count)
    requires after == before + (if Judge(files[i], count) == Admit then [ChatModel.NewUpload(files[i], ids[i])] else [])
    ensures after == start + Admitted(files[..i + 1], ids[..i + 1], count)
  {
    AdmittedStep(files, ids, count, i);
  }

  /** The number of files of a selection that pass `validateFile`. */
  function ValidCount(files: seq<SelectedFile>): (n: nat)
    ensures n <= |files|
    ensures n == |files| <== forall i :: 0 <= i < |files| ==> ValidateFile(files[i]).valid
    ensures n == 0 <== forall i :: 0 <= i < |files| ==> !ValidateFile(files[i]).valid
    decreases |files|
  {
    if files == [] then 0
    else
      var n := |files| - 1;
      assert forall i :: 0 <= i < n ==> files[..n][i] == files[i];
      ValidCount(files[..n]) + (if ValidateFile(files[n]).valid then 1 else 0)
  }

  /**
   * Below the limit every valid file of the batch is admitted, however many there are;
   * at or over the limit none is.
   */
  lemma {:induction false} AdmittedCount(files: seq<SelectedFile>, ids: seq<string>, count: nat)
    requires |ids| == |files|
    ensures |Admitted(files, ids, count)| == if count < MAX_FILES then ValidCount(files) else 0
    decreases |files|
  {
    if files != [] {
      var n := |files| - 1;
      AdmittedCount(files[..n], ids[..n], count);
    }
  }

  /**
   * The count is read once per batch: starting from fewer than `MAX_FILES` pending files,
   * a selection of valid files is admitted whole, so the pending list grows past the limit
   * whenever `pending + |files| > MAX_FILES`.
   */
  lemma {:induction false} SnapshotCountAdmitsWholeBatch(pending: seq<UploadedFile>, files: seq<SelectedFile>, ids: seq<string>)
    requires |ids| == |files| && |pending| < MAX_FILES
    requires forall i :: 0 <= i < |files| ==> ValidateFile(files[i]).valid
    ensures |pending + Admitted(files, ids, |pending|)| == |pending| + |files|
    ensures forall i :: 0 <= i < |files| ==> Admitted(files, ids, |pending|)[i] == ChatModel.NewUpload(files[i], ids[i])
    decreases |files|
  {
    if files != [] {
      var n := |files| - 1;
      var c := |pending|;
      assert forall i :: 0 <= i < n ==> files[..n][i] == files[i] && ids[..n][i] == ids[i];
      SnapshotCountAdmitsWholeBatch(pending, files[..n], ids[..n]);
      var prefix := Admitted(files[..n], ids[..n], c);
      assert Judge(files[n], c) == Admit;
      assert Admitted(files, ids, c) == prefix + [ChatModel.NewUpload(files[n], ids[n])];
    }
  }

  /** Two pending files and a selection of three valid ones leave five pending files. */
  lemma OverflowExample(p: UploadedFile)
    ensures var f := SelectedFile("a.txt", 1024, "text/plain", 0);
      |[p, p] + Admitted([f, f, f], ["1", "2", "3"], 2)| == 5 > MAX_FILES
  {
    var f := SelectedFile("a.txt", 1024, "text/plain", 0);
    SnapshotCountAdmitsWholeBatch([p, p], [f, f, f], ["1", "2", "3"]);
  }

  /** With a full list no file is admitted, and an invalid file is never admitted, full list or not. */
  lemma NothingAdmittedWhenFullOrInvalid(files: seq<SelectedFile>, ids: seq<string>, count: nat)
    requires |ids| == |files|
    ensures count >= MAX_FILES ==> Admitted(files, ids, count) == []
    ensures (forall i :: 0 <= i < |files| ==> !ValidateFile(files[i]).valid) ==> Admitted(files, ids, count) == []
  {
    AdmittedCount(files, ids, count);
  }
}
