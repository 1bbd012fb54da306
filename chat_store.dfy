/**
 * The store object itself: one record of seven fields that each action overwrites in
 * place, and the two actions that read and write the browser's storage. Every action is
 * proved to leave the record exactly as `ChatModel.Apply` says, so the frame and
 * idempotence lemmas about `Apply` carry over to the store.
 */
module ChatStore {
  import opened Wrappers
  import opened ChatTypes
  import ChatModel
  import opened Persistence

  /** What the error sink receives: the name of the action that failed. */
  datatype ErrorReport = ErrorReport(context: string)

  /**
   * The browser's `localStorage` behind `safeLocalStorage`: a map from key to record.
   * Whether a write succeeds (quota, private mode) is decided by the environment and
   * passed in.
   */
  class LocalStorage {
    var items: map<string, StoredRecord>

    constructor ()
      ensures items == map[]
    {
      items := map[];
    }

    function GetItem(key: string): (r: Option<StoredRecord>)
      reads this
      ensures r.Some? <==> key in items
      ensures r.Some? ==> r.value == items[key]
    {
      if key in items then Some(items[key]) else None
    }

    /** Writes `value` under `key` when the write succeeds, and reports whether it did. */
    method SetItem(key: string, value: StoredRecord, writeSucceeds: bool) returns (ok: bool)
      modifies this
      ensures ok == writeSucceeds
      ensures items == if writeSucceeds then old(items)[key := value] else old(items)
    {
      if writeSucceeds {
        items := items[key := value];
      }
      ok := writeSucceeds;
    }

    method RemoveItem(key: string)
      modifies this
      ensures items == old(items) - {key}
    {
      items := items - {key};
    }
  }

  class Store {
    var isOpen: bool
    var isFullscreen: bool
    var theme: Theme
    var messages: seq<Message>
    var uploadedFiles: seq<UploadedFile>
    var isLoading: bool
    var showFeedbackModal: bool
    /** Auto-saves scheduled by `setTimeout` that have not fired yet. */
    var pendingSaves: nat
    const storage: LocalStorage

    /** The seven state fields as one record. */
    function State(): ChatModel.ChatState
      reads this
    {
      ChatModel.ChatState(isOpen, isFullscreen, theme, messages, uploadedFiles, isLoading, showFeedbackModal)
    }

    constructor (storage: LocalStorage)
      ensures State() == ChatModel.Initial
      ensures pendingSaves == 0 && this.storage == storage
    {
      isOpen := false;
      isFullscreen := false;
      theme := Light;
      messages := [];
      uploadedFiles := [];
      isLoading := false;
      showFeedbackModal := false;
      pendingSaves := 0;
      this.storage := storage;
    }

    method ToggleChat()
      modifies this
      ensures State() == ChatModel.Apply(old(State()), ChatModel.ToggleChat)
      ensures pendingSaves == old(pendingSaves)
    {
      isOpen := !isOpen;
    }

    method ToggleFullscreen()
      modifies this
      ensures State() == ChatModel.Apply(old(State()), ChatModel.ToggleFullscreen)
      ensures pendingSaves == old(pendingSaves)
    {
      isFullscreen := !isFullscreen;
    }

    method ToggleTheme()
      modifies this
      ensures State() == ChatModel.Apply(old(State()), ChatModel.ToggleTheme)
      ensures pendingSaves == old(pendingSaves)
    {
      theme := if theme == Light then Dark else Light;
    }

    /** Sets the theme and schedules no save. */
    method SetTheme(t: Theme)
      modifies this
      ensures State() == ChatModel.Apply(old(State()), ChatModel.SetTheme(t))
      ensures pendingSaves == old(pendingSaves)
    {
      theme := t;
    }

    /** Appends a message with id `id` and timestamp `now`, and schedules one save. */
    method AddMessage(data: MessageData, id: string, now: int)
      modifies this
      ensures State() == ChatModel.Apply(old(State()), ChatModel.AddMessage(data, id, now))
      ensures pendingSaves == old(pendingSaves) + 1
    {
      messages := messages + [ChatModel.NewMessage(data, id, now)];
      pendingSaves := pendingSaves + 1;
    }

    /** Sets the feedback of every message with that id, and schedules one save. */
    method UpdateMessageFeedback(id: string, f: Feedback)
      modifies this
      ensures State() == ChatModel.Apply(old(State()), ChatModel.UpdateMessageFeedback(id, f))
      ensures pendingSaves == old(pendingSaves) + 1
    {
      messages := ChatModel.WithFeedback(messages, id, f);
      pendingSaves := pendingSaves + 1;
    }

    method AddFile(file: SelectedFile, id: string)
      modifies this
      ensures State() == ChatModel.Apply(old(State()), ChatModel.AddFile(file, id))
      ensures pendingSaves == old(pendingSaves)
    {
      uploadedFiles := uploadedFiles + [ChatModel.NewUpload(file, id)];
    }

    method RemoveFile(id: string)
      modifies this
      ensures State() == ChatModel.Apply(old(State()), ChatModel.RemoveFile(id))
      ensures pendingSaves == old(pendingSaves)
    {
      uploadedFiles := ChatModel.WithoutFile(uploadedFiles, id);
    }

    method ClearFiles()
      modifies this
      ensures State() == ChatModel.Apply(old(State()), ChatModel.ClearFiles)
      ensures pendingSaves == old(pendingSaves)
    {
      uploadedFiles := [];
    }

    method SetLoading(loading: bool)
      modifies this
      ensures State() == ChatModel.Apply(old(State()), ChatModel.SetLoading(loading))
      ensures pendingSaves == old(pendingSaves)
    {
      isLoading := loading;
    }

    method OpenFeedbackModal()
      modifies this
      ensures State() == ChatModel.Apply(old(State()), ChatModel.OpenFeedbackModal)
      ensures pendingSaves == old(pendingSaves)
    {
      showFeedbackModal := true;
    }

    method HideFeedbackModal()
      modifies this
      ensures State() == ChatModel.Apply(old(State()), ChatModel.HideFeedbackModal)
      ensures pendingSaves == old(pendingSaves)
    {
      showFeedbackModal := false;
    }

    method ClearChat()
      modifies this
      ensures State() == ChatModel.Apply(old(State()), ChatModel.ClearChat)
      ensures pendingSaves == old(pendingSaves)
    {
      messages := [];
      uploadedFiles := [];
    }

    /**
     * Reads the record under the storage key. Nothing stored: no change. A corrupt record:
     * the state stays as it was, the error is reported and the key is removed. A parsed
     * record: messages and theme are replaced, nothing else.
     */
    method LoadChatFromStorage() returns (report: Option<ErrorReport>)
      modifies this, storage
      ensures var o := Interpret(old(storage.GetItem(STORAGE_KEY)));
        && (o.NothingStored? ==> State() == old(State()) && storage.items == old(storage.items))
        && (o.DiscardCorrupt? ==> State() == old(State()) && storage.items == old(storage.items) - {STORAGE_KEY})
        && (o.Restore? ==>
              && State() == ChatModel.Apply(old(State()), ChatModel.Hydrate(o.messages, o.theme))
              && storage.items == old(storage.items))
        && (report.Some? <==> o.DiscardCorrupt?)
        && (report.Some? ==> report.value == ErrorReport("loadChatFromStorage"))
      ensures pendingSaves == old(pendingSaves)
    {
      var stored := storage.GetItem(STORAGE_KEY);
      match Interpret(stored)
      case NothingStored =>
        report := None;
      case DiscardCorrupt =>
        report := Some(ErrorReport("loadChatFromStorage"));
        storage.RemoveItem(STORAGE_KEY);
      case Restore(ms, t) =>
        messages := ms;
        theme := t;
        report := None;
    }

    /**
     * Writes `{messages, theme}` under the storage key; a failed write leaves storage as
     * it was and is reported. The store's own fields never change.
     */
    method SaveChatToStorage(writeSucceeds: bool) returns (report: Option<ErrorReport>)
      modifies storage
      ensures storage.items ==
        if writeSucceeds then old(storage.items)[STORAGE_KEY := SnapshotOf(messages, theme)]
        else old(storage.items)
      ensures report.Some? <==> !writeSucceeds
      ensures report.Some? ==> report.value == ErrorReport("saveChatToStorage")
    {
      var ok := storage.SetItem(STORAGE_KEY, SnapshotOf(messages, theme), writeSucceeds);
      report := if ok then None else Some(ErrorReport("saveChatToStorage"));
    }

    /** One scheduled auto-save fires: it saves the state as it is now, not as it was when scheduled. */
    method FlushScheduledSave(writeSucceeds: bool) returns (report: Option<ErrorReport>)
      requires pendingSaves > 0
      modifies this, storage
      ensures State() == old(State())
      ensures pendingSaves == old(pendingSaves) - 1
      ensures storage.items ==
        if writeSucceeds then old(storage.items)[STORAGE_KEY := SnapshotOf(messages, theme)]
        else old(storage.items)
      ensures report.Some? <==> !writeSucceeds
    {
      pendingSaves := pendingSaves - 1;
      report := SaveChatToStorage(writeSucceeds);
    }
  }

  /**
   * A successful save followed by a load gives back the same theme and every message:
   * same id, content, sender and feedback, the same instant, and the file metadata.
   */
  method SaveThenReload(store: Store)
    modifies store, store.storage
    ensures store.theme == old(store.theme)
    ensures |store.messages| == |old(store.messages)|
    ensures forall i :: 0 <= i < |store.messages| ==> SameAfterReload(old(store.messages)[i], store.messages[i])
    ensures store.isOpen == old(store.isOpen) && store.uploadedFiles == old(store.uploadedFiles)
  {
    ghost var s := store.State();
    ReloadedState(s);
    var saved := store.SaveChatToStorage(true);
    assert store.storage.GetItem(STORAGE_KEY) == Some(SnapshotOf(s.messages, s.theme));
    var loaded := store.LoadChatFromStorage();
  }

  /** The state a load of the snapshot of `s` produces, stated on values. */
  lemma ReloadedState(s: ChatModel.ChatState)
    ensures var o := Interpret(Some(SnapshotOf(s.messages, s.theme)));
      && o.Restore?
      && var t := ChatModel.Apply(s, ChatModel.Hydrate(o.messages, o.theme));
      && t.theme == s.theme && |t.messages| == |s.messages|
      && (forall i :: 0 <= i < |s.messages| ==> SameAfterReload(s.messages[i], t.messages[i]))
      && t.isOpen == s.isOpen && t.uploadedFiles == s.uploadedFiles
  {
    SaveThenLoad(s.messages, s.theme);
  }

  /**
   * A page opening over a corrupt record starts from the defaults: no messages, the light
   * theme, and the record is gone.
   */
  method OpenOverCorruptRecord(storage: LocalStorage) returns (store: Store)
    requires storage.GetItem(STORAGE_KEY) == Some(Corrupt)
    modifies storage
    ensures store.State() == ChatModel.Initial
    ensures STORAGE_KEY !in storage.items
  {
    store := new Store(storage);
    var report := store.LoadChatFromStorage();
  }
}
