/**
 * The input bar's handlers, as sequences of store calls: choosing files, sending, the
 * later bot reply, and the Enter key; plus the two button conditions.
 */
module MessageInput {
  import opened Wrappers
  import opened Strings
  import opened ChatTypes
  import opened FileValidation
  import opened Admission
  import ChatModel
  import opened ChatStore

  const ATTACHED_FILES_PLACEHOLDER: string := "(attached files)"

  /** The content of the user message: the trimmed text, or the placeholder when nothing but whitespace was typed. */
  function SubmittedContent(text: string): (c: string)
    ensures c != []
    ensures !AllWhitespace(text) ==> c == Trim(text)
    ensures AllWhitespace(text) ==> c == ATTACHED_FILES_PLACEHOLDER
  {
    TrimEmptyIff(text, JS_WHITESPACE);
    var t := Trim(text);
    if t != [] then t else ATTACHED_FILES_PLACEHOLDER
  }

  /** The content never starts or ends with whitespace. */
  lemma SubmittedContentIsTrimmed(text: string)
    ensures var c := SubmittedContent(text);
      !IsJsWhitespace(c[0]) && !IsJsWhitespace(c[|c| - 1])
  {
    var c := SubmittedContent(text);
    if AllWhitespace(text) {
      assert c == ATTACHED_FILES_PLACEHOLDER;
      assert c[0] == '(' && c[|c| - 1] == ')';
    } else {
      TrimEdges(text, JS_WHITESPACE);
      assert c == Trim(text) && c != [];
      assert c[0] !in JS_WHITESPACE && c[|c| - 1] !in JS_WHITESPACE;
    }
  }

  /**
   * The send button is disabled when the trimmed text is empty and no file is pending,
   * that is, exactly when the text is whitespace only and nothing is attached.
   */
  predicate SendDisabled(text: string, pendingCount: nat)
    ensures SendDisabled(text, pendingCount) <==> AllWhitespace(text) && pendingCount == 0
  {
    Trim(text) == [] && pendingCount == 0
  }

  /**
   * The attach button is disabled once the pending count reaches `MAX_FILES`, that is,
   * exactly when no file could be admitted, whatever it is.
   */
  predicate AttachDisabled(pendingCount: nat)
    ensures AttachDisabled(pendingCount) <==> forall f: SelectedFile :: Judge(f, pendingCount) != Admit
  {
    var probe := SelectedFile("", 0, "text/plain", 0);
    assert pendingCount < MAX_FILES ==> Judge(probe, pendingCount) == Admit;
    pendingCount >= MAX_FILES
  }

  /** The alert `handleFileSelect` raises for a file it does not add, if any. */
  function AlertFor(v: Verdict): (a: Option<string>)
    ensures a == None <==> v == Admit
    ensures v == LimitReached ==> a == Some(MAX_FILES_EXCEEDED)
    ensures v.Rejected? ==> a == Some(v.reason)
  {
    match v
    case Admit => None
    case LimitReached => Some(MAX_FILES_EXCEEDED)
    case Rejected(reason) => Some(reason)
  }

  /** The alert for one file as a list: empty when the file is added. */
  function Raised(v: Verdict): (r: seq<string>)
    ensures |r| <= 1 && (r == [] <==> v == Admit)
    ensures r != [] ==> Some(r[0]) == AlertFor(v)
  {
    match AlertFor(v)
    case None => []
    case Some(message) => [message]
  }

  /** The alerts of one batch, in selection order. */
  function Alerts(files: seq<SelectedFile>, count: nat): (r: seq<string>)
    ensures |r| <= |files|
    decreases |files|
  {
    if files == [] then []
    else
      var n := |files| - 1;
      Alerts(files[..n], count) + Raised(Judge(files[n], count))
  }

  lemma AlertsStep(files: seq<SelectedFile>, count: nat, i: nat)
    requires i < |files|
    ensures Alerts(files[..i + 1], count) == Alerts(files[..i], count) + Raised(Judge(files[i], count))
  {
    assert files[..i + 1][..i] == files[..i];
  }

  /**
   * Every file of a batch is either added or alerted about, never both and never
   * neither: file `i` extends exactly one of the two lists, by its own upload or alert.
   */
  lemma EachFileAddedOrAlerted(files: seq<SelectedFile>, ids: seq<string>, count: nat, i: nat)
    requires |ids| == |files| && i < |files|
    ensures Judge(files[i], count) == Admit ==>
      && Admitted(files[..i + 1], ids[..i + 1], count) == Admitted(files[..i], ids[..i], count) + [ChatModel.NewUpload(files[i], ids[i])]
      && Alerts(files[..i + 1], count) == Alerts(files[..i], count)
    ensures Judge(files[i], count) != Admit ==>
      && Admitted(files[..i + 1], ids[..i + 1], count) == Admitted(files[..i], ids[..i], count)
      && Alerts(files[..i + 1], count) == Alerts(files[..i], count) + [AlertFor(Judge(files[i], count)).value]
  {
    AdmittedStep(files, ids, count, i);
    AlertsStep(files, count, i);
  }

  /** Over a whole batch, the uploads added and the alerts raised add up to the files selected. */
  lemma {:induction false} AddedPlusAlertedIsBatch(files: seq<SelectedFile>, ids: seq<string>, count: nat)
    requires |ids| == |files|
    ensures |Admitted(files, ids, count)| + |Alerts(files, count)| == |files|
    decreases |files|
  {
    if files != [] {
      var n := |files| - 1;
      AddedPlusAlertedIsBatch(files[..n], ids[..n], count);
    }
  }

  /** With a full list every file raises an alert: the i-th alert is the one for the i-th file. */
  lemma {:induction false} AlertsInOrder(files: seq<SelectedFile>, count: nat, i: nat)
    requires count >= MAX_FILES && i < |files|
    ensures |Alerts(files, count)| == |files|
    ensures Alerts(files, count)[i] == AlertFor(Judge(files[i], count)).value
    decreases |files|
  {
    var n := |files| - 1;
    if n > 0 {
      if i < n {
        AlertsInOrder(files[..n], count, i);
        assert files[..n][i] == files[i];
      } else {
        AlertsInOrder(files[..n], count, 0);
      }
    }
  }

  /**
   * The `forEach` callback for one file: validation first, then the batch's `count`
   * against the limit; the file is added or an alert is raised.
   */
  method SelectOne(store: Store, file: SelectedFile, id: string, count: nat) returns (raised: seq<string>)
    modifies store
    ensures store.uploadedFiles ==
      old(store.uploadedFiles) + (if Judge(file, count) == Admit then [ChatModel.NewUpload(file, id)] else [])
    ensures store.State() == old(store.State()).(uploadedFiles := store.uploadedFiles)
    ensures store.pendingSaves == old(store.pendingSaves)
    ensures raised == Raised(Judge(file, count))
  {
    var validation := ValidateFile(file);
    if validation.valid {
      if count < MAX_FILES {
        store.AddFile(file, id);
        raised := [];
      } else {
        raised := [MAX_FILES_EXCEEDED];
      }
    } else {
      raised := [validation.error.value];
    }
  }

  /**
   * `handleFileSelect`: every selected file in order, judged against the count read
   * before the loop; `ids[i]` is the id `addFile` draws for `files[i]`.
   */
  method HandleFileSelect(store: Store, files: seq<SelectedFile>, ids: seq<string>) returns (alerts: seq<string>)
    requires |ids| == |files|
    modifies store
    ensures store.State() == old(store.State()).(uploadedFiles :=
      old(store.uploadedFiles) + Admitted(files, ids, |old(store.uploadedFiles)|))
    ensures store.pendingSaves == old(store.pendingSaves)
    ensures alerts == Alerts(files, |old(store.uploadedFiles)|)
  {
    var count := |store.uploadedFiles|;
    alerts := [];
    ghost var s0 := store.State();
    for i := 0 to |files|
      invariant store.State() == s0.(uploadedFiles := s0.uploadedFiles + Admitted(files[..i], ids[..i], count))
      invariant store.pendingSaves == old(store.pendingSaves)
      invariant alerts == Alerts(files[..i], count)
    {
      ghost var before := store.uploadedFiles;
      var raised := SelectOne(store, files[i], ids[i], count);
      alerts := alerts + raised;
      SelectStep(files, ids, count, i, s0.uploadedFiles, before, store.uploadedFiles);
      AlertsStep(files, count, i);
    }
    assert files[..|files|] == files && ids[..|ids|] == ids;
  }

  /** The user message a submit appends: the submitted content and the pending files as they were. */
  function UserMessage(s: ChatModel.ChatState, text: string): MessageData {
    MessageData(SubmittedContent(text), User, None, Some(s.uploadedFiles))
  }

  /**
   * The state after a submit: unchanged when send is disabled; otherwise one user message
   * more, no file pending and loading. It is the store's `addMessage`, `clearFiles` and
   * `setLoading(true)` applied in that order.
   */
  function AfterSubmit(s: ChatModel.ChatState, text: string, id: string, now: int): (t: ChatModel.ChatState)
    ensures SendDisabled(text, |s.uploadedFiles|) ==> t == s
    ensures !SendDisabled(text, |s.uploadedFiles|) ==>
      t == ChatModel.Run(s, [ChatModel.AddMessage(UserMessage(s, text), id, now), ChatModel.ClearFiles, ChatModel.SetLoading(true)])
    ensures !SendDisabled(text, |s.uploadedFiles|) ==>
      && |t.messages| == |s.messages| + 1 && t.messages[..|s.messages|] == s.messages
      && t.messages[|s.messages|].files == Some(s.uploadedFiles)
      && t.uploadedFiles == [] && t.isLoading
  {
    if SendDisabled(text, |s.uploadedFiles|) then s
    else
      var data := UserMessage(s, text);
      SubmitRun(s, data, id, now);
      s.(messages := s.messages + [ChatModel.NewMessage(data, id, now)], uploadedFiles := [], isLoading := true)
  }

  /** The three store calls of a submit, as one run, whatever the message. */
  lemma SubmitRun(s: ChatModel.ChatState, data: MessageData, id: string, now: int)
    ensures var t := ChatModel.Run(s, [ChatModel.AddMessage(data, id, now), ChatModel.ClearFiles, ChatModel.SetLoading(true)]);
      && t == s.(messages := s.messages + [ChatModel.NewMessage(data, id, now)], uploadedFiles := [], isLoading := true)
      && |t.messages| == |s.messages| + 1 && t.messages[..|s.messages|] == s.messages
      && t.messages[|s.messages|].files == data.files
  {
    var m := ChatModel.NewMessage(data, id, now);
    ChatModel.RunThree(s, ChatModel.AddMessage(data, id, now), ChatModel.ClearFiles, ChatModel.SetLoading(true));
    var s1 := ChatModel.Apply(s, ChatModel.AddMessage(data, id, now));
    assert s1 == s.(messages := s.messages + [m]);
    var s2 := ChatModel.Apply(s1, ChatModel.ClearFiles);
    assert s2 == s1.(uploadedFiles := []);
    assert ChatModel.Apply(s2, ChatModel.SetLoading(true)) == s2.(isLoading := true);
    assert (s.messages + [m])[..|s.messages|] == s.messages;
  }

  /** The three store calls of a submit that is not disabled reach `AfterSubmit`. */
  lemma SubmitSteps(s0: ChatModel.ChatState, text: string, id: string, now: int,
                    s1: ChatModel.ChatState, s2: ChatModel.ChatState, s3: ChatModel.ChatState)
    requires !SendDisabled(text, |s0.uploadedFiles|)
    requires s1 == ChatModel.Apply(s0, ChatModel.AddMessage(UserMessage(s0, text), id, now))
    requires s2 == if |s0.uploadedFiles| > 0 then ChatModel.Apply(s1, ChatModel.ClearFiles) else s1
    requires s3 == ChatModel.Apply(s2, ChatModel.SetLoading(true))
    ensures s3 == AfterSubmit(s0, text, id, now)
  {
    SubmitCalls(s0, UserMessage(s0, text), id, now, s1, s2, s3);
  }

  /** `addMessage`, `clearFiles` when files are pending, and `setLoading(true)`, whatever the message. */
  lemma SubmitCalls(s0: ChatModel.ChatState, data: MessageData, id: string, now: int,
                    s1: ChatModel.ChatState, s2: ChatModel.ChatState, s3: ChatModel.ChatState)
    requires s1 == ChatModel.Apply(s0, ChatModel.AddMessage(data, id, now))
    requires s2 == if |s0.uploadedFiles| > 0 then ChatModel.Apply(s1, ChatModel.ClearFiles) else s1
    requires s3 == ChatModel.Apply(s2, ChatModel.SetLoading(true))
    ensures s3 == s0.(messages := s0.messages + [ChatModel.NewMessage(data, id, now)], uploadedFiles := [], isLoading := true)
  {
    if |s0.uploadedFiles| == 0 {
      assert s0.uploadedFiles == [];
    }
  }

  /**
   * `onSubmit`: nothing happens when send is disabled. Otherwise one user message is
   * appended carrying the pending files as they were, the pending list is emptied, and
   * the store starts loading; one save is scheduled. Returns whether a message was sent.
   */
  method OnSubmit(store: Store, text: string, id: string, now: int) returns (sent: bool)
    modifies store
    ensures sent <==> !SendDisabled(text, |old(store.uploadedFiles)|)
    ensures store.State() == AfterSubmit(old(store.State()), text, id, now)
    ensures store.pendingSaves == old(store.pendingSaves) + (if sent then 1 else 0)
  {
    ghost var s0 := store.State();
    var pending := store.uploadedFiles;
    if SendDisabled(text, |pending|) {
      return false;
    }
    store.AddMessage(MessageData(SubmittedContent(text), User, None, Some(pending)), id, now);
    ghost var s1 := store.State();
    if |pending| > 0 {
      store.ClearFiles();
    }
    ghost var s2 := store.State();
    store.SetLoading(true);
    sent := true;
    SubmitSteps(s0, text, id, now, s1, s2, store.State());
  }

  /**
   * The reply step the submit schedules: one bot message without files, chosen by the
   * index `choice` that `generateBotResponse` draws, and loading ends.
   */
  method DeliverBotReply(store: Store, choice: nat, id: string, now: int)
    requires choice < |BOT_RESPONSES|
    modifies store
    ensures store.State() == old(store.State()).(
      messages := old(store.messages) + [ChatModel.NewMessage(MessageData(BOT_RESPONSES[choice], Bot, None, None), id, now)],
      isLoading := false)
    ensures store.pendingSaves == old(store.pendingSaves) + 1
  {
    store.AddMessage(MessageData(BOT_RESPONSES[choice], Bot, None, None), id, now);
    store.SetLoading(false);
  }

  /**
   * A sent message followed by its reply: two messages more, the user's first, no file
   * pending and no longer loading.
   */
  method SubmitThenReply(store: Store, text: string, userId: string, botId: string, choice: nat, sentAt: int, repliedAt: int)
    requires choice < |BOT_RESPONSES|
    requires !SendDisabled(text, |store.uploadedFiles|)
    modifies store
    ensures |store.messages| == |old(store.messages)| + 2
    ensures store.messages[..|old(store.messages)|] == old(store.messages)
    ensures store.messages[|old(store.messages)|].sender == User
    ensures store.messages[|old(store.messages)|].files == Some(old(store.uploadedFiles))
    ensures store.messages[|old(store.messages)| + 1].sender == Bot
    ensures store.messages[|old(store.messages)| + 1].files == None
    ensures store.uploadedFiles == [] && !store.isLoading
  {
    var sent := OnSubmit(store, text, userId, sentAt);
    DeliverBotReply(store, choice, botId, repliedAt);
  }

  /**
   * `handleKeyDown`: Enter without Shift suppresses the newline and submits; any other
   * key changes nothing.
   */
  method HandleKeyDown(store: Store, key: string, shiftKey: bool, text: string, id: string, now: int)
    returns (preventDefault: bool, sent: bool)
    modifies store
    ensures preventDefault <==> key == "Enter" && !shiftKey
    ensures !preventDefault ==> !sent && store.State() == old(store.State()) && store.pendingSaves == old(store.pendingSaves)
    ensures preventDefault ==> (sent <==> !SendDisabled(text, |old(store.uploadedFiles)|))
    ensures preventDefault ==> store.State() == AfterSubmit(old(store.State()), text, id, now)
    ensures preventDefault ==> store.pendingSaves == old(store.pendingSaves) + (if sent then 1 else 0)
  {
    preventDefault := false;
    sent := false;
    if key == "Enter" && !shiftKey {
      preventDefault := true;
      sent := OnSubmit(store, text, id, now);
    }
  }
}
