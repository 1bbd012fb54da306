/**
 * The store's state and the pure effect of each of its actions. Every action of the store
 * replaces some slices of one `ChatState` record; `Apply` says which and how, and the
 * store class is proved to follow it.
 */
module ChatModel {
  import opened Wrappers
  import opened ChatTypes

  datatype ChatState = ChatState(
    isOpen: bool,
    isFullscreen: bool,
    theme: Theme,
    messages: seq<Message>,
    uploadedFiles: seq<UploadedFile>,
    isLoading: bool,
    showFeedbackModal: bool)

  /** The state the store is created with. */
  const Initial: ChatState := ChatState(false, false, Light, [], [], false, false)

  /** One call of a store action, with the id and instant it draws from `randomUUID` and the clock. */
  datatype Action =
    | ToggleChat
    | ToggleFullscreen
    | ToggleTheme
    | SetTheme(newTheme: Theme)
    | AddMessage(data: MessageData, messageId: string, now: int)
    | UpdateMessageFeedback(targetId: string, feedback: Feedback)
    | AddFile(selected: SelectedFile, fileId: string)
    | RemoveFile(removedId: string)
    | ClearFiles
    | SetLoading(loading: bool)
    | OpenFeedbackModal
    | HideFeedbackModal
    | ClearChat
    | Hydrate(storedMessages: seq<Message>, storedTheme: Theme)

  /** The message `addMessage` builds: the caller's fields, a fresh id and the current time. */
  function NewMessage(data: MessageData, id: string, now: int): Message {
    Message(id, data.content, data.sender, ValidDate(now), data.feedback, data.files)
  }

  /** The record `addFile` builds: a fresh id, the file's name, size and type, and the file itself. */
  function NewUpload(file: SelectedFile, id: string): UploadedFile {
    UploadedFile(id, file.name, file.size, file.mimeType, Live(file))
  }

  /** `messages.map(msg => msg.id === id ? { ...msg, feedback } : msg)`. */
  function WithFeedback(messages: seq<Message>, id: string, f: Feedback): (r: seq<Message>)
    ensures |r| == |messages|
    ensures forall i :: 0 <= i < |messages| && messages[i].id == id ==> r[i] == messages[i].(feedback := Some(f))
    ensures forall i :: 0 <= i < |messages| && messages[i].id != id ==> r[i] == messages[i]
  {
    if messages == [] then []
    else
      var head := if messages[0].id == id then messages[0].(feedback := Some(f)) else messages[0];
      [head] + WithFeedback(messages[1..], id, f)
  }

  /** `files.filter(file => file.id !== id)`. */
  function WithoutFile(files: seq<UploadedFile>, id: string): (r: seq<UploadedFile>)
    ensures |r| <= |files|
    ensures forall k :: 0 <= k < |r| ==> r[k].id != id
  {
    if files == [] then []
    else (if files[0].id == id then [] else [files[0]]) + WithoutFile(files[1..], id)
  }

  // ---------------------------------------------------------------------------
  // Which slices each action writes

  datatype Slice = OpenSlice | FullscreenSlice | ThemeSlice | MessagesSlice | FilesSlice | LoadingSlice | ModalSlice

  /** Whether action `a` may write slice `sl`; a successful load writes messages and theme only. */
  predicate Writes(a: Action, sl: Slice) {
    match a
    case ToggleChat => sl == OpenSlice
    case ToggleFullscreen => sl == FullscreenSlice
    case ToggleTheme => sl == ThemeSlice
    case SetTheme(_) => sl == ThemeSlice
    case AddMessage(_, _, _) => sl == MessagesSlice
    case UpdateMessageFeedback(_, _) => sl == MessagesSlice
    case AddFile(_, _) => sl == FilesSlice
    case RemoveFile(_) => sl == FilesSlice
    case ClearFiles => sl == FilesSlice
    case SetLoading(_) => sl == LoadingSlice
    case OpenFeedbackModal => sl == ModalSlice
    case HideFeedbackModal => sl == ModalSlice
    case ClearChat => sl == MessagesSlice || sl == FilesSlice
    case Hydrate(_, _) => sl == MessagesSlice || sl == ThemeSlice
  }

  /** `s` and `t` agree on every slice that `a` does not write. */
  predicate AgreeOutside(s: ChatState, t: ChatState, a: Action) {
    && (!Writes(a, OpenSlice) ==> t.isOpen == s.isOpen)
    && (!Writes(a, FullscreenSlice) ==> t.isFullscreen == s.isFullscreen)
    && (!Writes(a, ThemeSlice) ==> t.theme == s.theme)
    && (!Writes(a, MessagesSlice) ==> t.messages == s.messages)
    && (!Writes(a, FilesSlice) ==> t.uploadedFiles == s.uploadedFiles)
    && (!Writes(a, LoadingSlice) ==> t.isLoading == s.isLoading)
    && (!Writes(a, ModalSlice) ==> t.showFeedbackModal == s.showFeedbackModal)
  }

  /** The effect of one action on the state; `ApplyFrame` states what it leaves alone. */
  function Apply(s: ChatState, a: Action): ChatState {
    match a
    case ToggleChat => s.(isOpen := !s.isOpen)
    case ToggleFullscreen => s.(isFullscreen := !s.isFullscreen)
    case ToggleTheme => s.(theme := if s.theme == Light then Dark else Light)
    case SetTheme(t) => s.(theme := t)
    case AddMessage(data, id, now) => s.(messages := s.messages + [NewMessage(data, id, now)])
    case UpdateMessageFeedback(id, f) => s.(messages := WithFeedback(s.messages, id, f))
    case AddFile(file, id) => s.(uploadedFiles := s.uploadedFiles + [NewUpload(file, id)])
    case RemoveFile(id) => s.(uploadedFiles := WithoutFile(s.uploadedFiles, id))
    case ClearFiles => s.(uploadedFiles := [])
    case SetLoading(b) => s.(isLoading := b)
    case OpenFeedbackModal => s.(showFeedbackModal := true)
    case HideFeedbackModal => s.(showFeedbackModal := false)
    case ClearChat => s.(messages := [], uploadedFiles := [])
    case Hydrate(ms, t) => s.(messages := ms, theme := t)
  }

  /** Nothing else changes: every action leaves the slices it does not write as they were. */
  lemma ApplyFrame(s: ChatState, a: Action)
    ensures AgreeOutside(s, Apply(s, a), a)
  {
  }

  /** `s` and `t` hold the same value in slice `sl`. */
  predicate SameOn(s: ChatState, t: ChatState, sl: Slice) {
    match sl
    case OpenSlice => t.isOpen == s.isOpen
    case FullscreenSlice => t.isFullscreen == s.isFullscreen
    case ThemeSlice => t.theme == s.theme
    case MessagesSlice => t.messages == s.messages
    case FilesSlice => t.uploadedFiles == s.uploadedFiles
    case LoadingSlice => t.isLoading == s.isLoading
    case ModalSlice => t.showFeedbackModal == s.showFeedbackModal
  }

  /** No action of the run writes slice `sl`. */
  predicate Untouched(actions: seq<Action>, sl: Slice) {
    forall i :: 0 <= i < |actions| ==> !Writes(actions[i], sl)
  }

  /** The actions applied one after another, in call order; `RunFrame` states what a run leaves alone. */
  function Run(s: ChatState, actions: seq<Action>): ChatState
    decreases |actions|
  {
    if actions == [] then s else Run(Apply(s, actions[0]), actions[1..])
  }

  /** Nothing else changes over a run either: a slice that no action of the run writes keeps its value. */
  lemma {:induction false} RunFrame(s: ChatState, actions: seq<Action>, sl: Slice)
    requires Untouched(actions, sl)
    ensures SameOn(s, Run(s, actions), sl)
    decreases |actions|
  {
    if actions != [] {
      var next := Apply(s, actions[0]);
      assert !Writes(actions[0], sl);
      assert Untouched(actions[1..], sl) by {
        assert forall i :: 0 <= i < |actions| - 1 ==> actions[1..][i] == actions[i + 1];
      }
      ApplyFrame(s, actions[0]);
      OutsideIsSameOn(s, next, actions[0], sl);
      RunFrame(next, actions[1..], sl);
      SameOnTrans(s, next, Run(next, actions[1..]), sl);
    }
  }

  lemma OutsideIsSameOn(s: ChatState, t: ChatState, a: Action, sl: Slice)
    requires AgreeOutside(s, t, a) && !Writes(a, sl)
    ensures SameOn(s, t, sl)
  {
    match sl
    case OpenSlice =>
    case FullscreenSlice =>
    case ThemeSlice =>
    case MessagesSlice =>
    case FilesSlice =>
    case LoadingSlice =>
    case ModalSlice =>
  }

  lemma SameOnTrans(s: ChatState, t: ChatState, u: ChatState, sl: Slice)
    requires SameOn(s, t, sl) && SameOn(t, u, sl)
    ensures SameOn(s, u, sl)
  {
  }

  /** Three calls in a row. */
  lemma RunThree(s: ChatState, a: Action, b: Action, c: Action)
    ensures Run(s, [a, b, c]) == Apply(Apply(Apply(s, a), b), c)
  {
    var s1 := Apply(s, a);
    var s2 := Apply(s1, b);
    assert [c][1..] == [];
    assert Run(s2, [c]) == Apply(s2, c);
    assert [b, c][1..] == [c];
    assert Run(s1, [b, c]) == Run(s2, [c]);
    assert [a, b, c][1..] == [b, c];
  }

  /** Each toggle changes its one field, and toggling twice is the identity. */
  lemma TogglesAreInvolutions(s: ChatState, a: Action)
    requires a == ToggleChat || a == ToggleFullscreen || a == ToggleTheme
    ensures Apply(s, a) != s
    ensures Apply(Apply(s, a), a) == s
  {
  }

  /** `clearChat` empties messages and pending files and keeps every flag and the theme. */
  lemma ClearChatKeepsSettings(s: ChatState)
    ensures Apply(s, ClearChat) == s.(messages := [], uploadedFiles := [])
  {
  }

  /** `clearFiles` empties the pending list, and a second call changes nothing. */
  lemma ClearFilesIdempotent(s: ChatState)
    ensures Apply(s, ClearFiles).uploadedFiles == []
    ensures Apply(Apply(s, ClearFiles), ClearFiles) == Apply(s, ClearFiles)
  {
  }

  // ---------------------------------------------------------------------------
  // addMessage

  /** The messages a run of `addMessage` calls appends, one per call, in call order. */
  function AddedMessages(actions: seq<Action>): (r: seq<Message>)
    requires forall i :: 0 <= i < |actions| ==> actions[i].AddMessage?
    ensures |r| == |actions|
  {
    if actions == [] then []
    else [NewMessage(actions[0].data, actions[0].messageId, actions[0].now)] + AddedMessages(actions[1..])
  }

  /** The i-th appended message is the one the i-th call builds. */
  lemma {:induction false} AddedMessagesInOrder(actions: seq<Action>, i: nat)
    requires forall k :: 0 <= k < |actions| ==> actions[k].AddMessage?
    requires i < |actions|
    ensures AddedMessages(actions)[i] == NewMessage(actions[i].data, actions[i].messageId, actions[i].now)
    decreases i
  {
    if i > 0 {
      var rest := actions[1..];
      assert rest[i - 1] == actions[i];
      AddedMessagesInOrder(rest, i - 1);
    }
  }

  /**
   * After N `addMessage` calls the list has grown by exactly N, the earlier messages are
   * untouched, the new ones follow in call order, and nothing but `messages` changed.
   */
  lemma {:induction false} RunAddMessages(s: ChatState, actions: seq<Action>)
    requires forall i :: 0 <= i < |actions| ==> actions[i].AddMessage?
    ensures Run(s, actions) == s.(messages := s.messages + AddedMessages(actions))
    ensures |Run(s, actions).messages| == |s.messages| + |actions|
    decreases |actions|
  {
    if actions == [] {
      assert s.messages + AddedMessages(actions) == s.messages;
    } else {
      var a, rest := actions[0], actions[1..];
      var m := NewMessage(a.data, a.messageId, a.now);
      var s1 := s.(messages := s.messages + [m]);
      calc {
        Run(s, actions);
        Run(Apply(s, a), rest);
        { assert Apply(s, a) == s1; }
        Run(s1, rest);
        { assert forall i :: 0 <= i < |rest| ==> rest[i] == actions[i + 1];
          RunAddMessages(s1, rest); }
        s1.(messages := s1.messages + AddedMessages(rest));
        { assert AddedMessages(actions) == [m] + AddedMessages(rest);
          assert s1.messages + AddedMessages(rest) == s.messages + AddedMessages(actions); }
        s.(messages := s.messages + AddedMessages(actions));
      }
    }
  }

  /** The ids of a message list, in order. */
  function Ids(messages: seq<Message>): (r: seq<string>)
    ensures |r| == |messages| && forall i :: 0 <= i < |messages| ==> r[i] == messages[i].id
  {
    if messages == [] then [] else [messages[0].id] + Ids(messages[1..])
  }

  ghost predicate UniqueIds(messages: seq<Message>) {
    forall i, j :: 0 <= i < j < |messages| ==> messages[i].id != messages[j].id
  }

  /** A fresh id keeps the message ids unique; feedback updates never change an id. */
  lemma IdsStayUnique(s: ChatState, a: Action)
    requires UniqueIds(s.messages)
    requires a.AddMessage? ==> a.messageId !in Ids(s.messages)
    requires a.Hydrate? ==> UniqueIds(a.storedMessages)
    ensures UniqueIds(Apply(s, a).messages)
  {
    match a
    case AddMessage(data, id, now) =>
      AppendFreshId(s.messages, NewMessage(data, id, now));
    case UpdateMessageFeedback(id, f) =>
      var ms := WithFeedback(s.messages, id, f);
      assert forall i :: 0 <= i < |ms| ==> ms[i].id == s.messages[i].id;
    case _ =>
  }

  lemma AppendFreshId(messages: seq<Message>, m: Message)
    requires UniqueIds(messages) && m.id !in Ids(messages)
    ensures UniqueIds(messages + [m])
  {
    var ms := messages + [m];
    forall i, j | 0 <= i < j < |ms| ensures ms[i].id != ms[j].id {
      if j == |messages| {
        assert Ids(messages)[i] == messages[i].id;
      }
    }
  }

  // ---------------------------------------------------------------------------
  // updateMessageFeedback

  /** An id no message carries leaves the list exactly as it was. */
  lemma FeedbackForUnknownIdIsNoOp(messages: seq<Message>, id: string, f: Feedback)
    requires id !in Ids(messages)
    ensures WithFeedback(messages, id, f) == messages
  {
    var r := WithFeedback(messages, id, f);
    forall i | 0 <= i < |messages| ensures r[i] == messages[i] {
      assert Ids(messages)[i] == messages[i].id;
    }
  }

  /** The update keeps the ids in place, and repeating it changes nothing more. */
  lemma FeedbackKeepsIdsAndIsIdempotent(messages: seq<Message>, id: string, f: Feedback)
    ensures Ids(WithFeedback(messages, id, f)) == Ids(messages)
    ensures WithFeedback(WithFeedback(messages, id, f), id, f) == WithFeedback(messages, id, f)
  {
    var r := WithFeedback(messages, id, f);
    assert forall i :: 0 <= i < |r| ==> Ids(r)[i] == Ids(messages)[i];
  }

  // ---------------------------------------------------------------------------
  // addFile and removeFile

  /** The store itself neither validates nor counts: `addFile` appends even past three files. */
  lemma AddFileIsUnchecked(s: ChatState, file: SelectedFile, id: string)
    ensures Apply(s, AddFile(file, id)).uploadedFiles == s.uploadedFiles + [NewUpload(file, id)]
    ensures |Apply(s, AddFile(file, id)).uploadedFiles| == |s.uploadedFiles| + 1
  {
  }

  /** Removal works piecewise, so the kept files stay in their original order. */
  lemma {:induction false} WithoutFileDistributes(a: seq<UploadedFile>, b: seq<UploadedFile>, id: string)
    ensures WithoutFile(a + b, id) == WithoutFile(a, id) + WithoutFile(b, id)
  {
    if a == [] {
      assert a + b == b;
    } else {
      var head := if a[0].id == id then [] else [a[0]];
      assert (a + b)[0] == a[0] && (a + b)[1..] == a[1..] + b;
      assert WithoutFile(a + b, id) == head + WithoutFile(a[1..] + b, id);
      assert WithoutFile(a, id) == head + WithoutFile(a[1..], id);
      WithoutFileDistributes(a[1..], b, id);
    }
  }

  /** Removing the same id twice is the same as removing it once. */
  lemma {:induction false} WithoutFileIdempotent(files: seq<UploadedFile>, id: string)
    ensures WithoutFile(WithoutFile(files, id), id) == WithoutFile(files, id)
  {
    if files != [] {
      var rest := WithoutFile(files[1..], id);
      WithoutFileIdempotent(files[1..], id);
      if files[0].id != id {
        var kept := [files[0]] + rest;
        assert WithoutFile(files, id) == kept;
        assert kept[0] == files[0] && kept[1..] == rest;
        assert WithoutFile(kept, id) == [files[0]] + WithoutFile(rest, id);
      } else {
        assert WithoutFile(files, id) == [] + rest == rest;
      }
    }
  }

  /** Every file with another id is kept: only the entries carrying `id` are removed. */
  lemma {:induction false} WithoutFileKeepsOthers(files: seq<UploadedFile>, id: string, k: nat)
    requires k < |files| && files[k].id != id
    ensures files[k] in WithoutFile(files, id)
  {
    var head := if files[0].id == id then [] else [files[0]];
    assert WithoutFile(files, id) == head + WithoutFile(files[1..], id);
    if k > 0 {
      assert files[1..][k - 1] == files[k];
      WithoutFileKeepsOthers(files[1..], id, k - 1);
    }
  }

  /** An id no pending file carries leaves the list as it was. */
  lemma {:induction false} WithoutAbsentIdIsNoOp(files: seq<UploadedFile>, id: string)
    requires forall k :: 0 <= k < |files| ==> files[k].id != id
    ensures WithoutFile(files, id) == files
  {
    if files != [] {
      WithoutAbsentIdIsNoOp(files[1..], id);
    }
  }
}
