/**
 * The record `saveChatToStorage` writes and `loadChatFromStorage` reads under
 * `STORAGE_KEY`. JSON text is not modelled; a record is the value `JSON.parse` gives back,
 * and the two places where JSON changes a value are written out: a `Date` becomes
 * ISO-8601 text (`null` when invalid) and a `File` becomes an empty object.
 */
module Persistence {
  import opened Wrappers
  import opened ChatTypes

  /**
   * A stored `timestamp`: ISO-8601 text naming an instant (what `toJSON` writes for a
   * valid date), `null` (what it writes for an invalid one), or anything `new Date`
   * cannot parse, including a missing field.
   */
  datatype StoredTimestamp = IsoText(epochMillis: int) | JsonNull | Unparsable

  datatype StoredMessage = StoredMessage(
    id: string,
    content: string,
    sender: Sender,
    timestamp: StoredTimestamp,
    feedback: Option<Feedback>,
    files: Option<seq<UploadedFile>>)

  /**
   * What `getItem` returns for the key, when it returns something: the empty string, a
   * text whose parse or whose `messages.map` throws, or an object whose `messages` and
   * `theme` fields may each be missing.
   */
  datatype StoredRecord = Blank | Corrupt | Snapshot(messages: Option<seq<StoredMessage>>, theme: Option<Theme>)

  /** `Date.prototype.toJSON`. */
  function EncodeDate(d: Date): (t: StoredTimestamp)
    ensures t == JsonNull <==> d.InvalidDate?
    ensures d.ValidDate? ==> t == IsoText(d.epochMillis)
  {
    match d
    case ValidDate(ms) => IsoText(ms)
    case InvalidDate => JsonNull
  }

  /** `new Date(msg.timestamp)`: `null` converts to the epoch, unparsable text to the invalid date. */
  function DecodeDate(t: StoredTimestamp): (d: Date)
    ensures d.InvalidDate? <==> t.Unparsable?
    ensures t.IsoText? ==> d == ValidDate(t.epochMillis)
  {
    match t
    case IsoText(ms) => ValidDate(ms)
    case JsonNull => ValidDate(0)
    case Unparsable => InvalidDate
  }

  /** A valid timestamp survives as the same instant; an invalid one comes back as the epoch. */
  lemma DateRoundTrip(d: Date)
    ensures d.ValidDate? ==> DecodeDate(EncodeDate(d)) == d
    ensures d.InvalidDate? ==> DecodeDate(EncodeDate(d)) == ValidDate(0)
  {
  }

  /** What survives of an uploaded file: its metadata, with the `File` itself reduced to `{}`. */
  function EncodeFile(u: UploadedFile): UploadedFile {
    u.(file := EmptyObject)
  }

  function EncodeFiles(files: seq<UploadedFile>): (r: seq<UploadedFile>)
    ensures |r| == |files| && forall i :: 0 <= i < |files| ==> r[i] == EncodeFile(files[i])
  {
    if files == [] then [] else [EncodeFile(files[0])] + EncodeFiles(files[1..])
  }

  function EncodeMessage(m: Message): StoredMessage {
    StoredMessage(m.id, m.content, m.sender, EncodeDate(m.timestamp), m.feedback,
      match m.files case None => None case Some(fs) => Some(EncodeFiles(fs)))
  }

  function EncodeMessages(messages: seq<Message>): (r: seq<StoredMessage>)
    ensures |r| == |messages| && forall i :: 0 <= i < |messages| ==> r[i] == EncodeMessage(messages[i])
  {
    if messages == [] then [] else [EncodeMessage(messages[0])] + EncodeMessages(messages[1..])
  }

  /** `{ ...msg, timestamp: new Date(msg.timestamp) }`. */
  function DecodeMessage(m: StoredMessage): Message {
    Message(m.id, m.content, m.sender, DecodeDate(m.timestamp), m.feedback, m.files)
  }

  function DecodeMessages(stored: seq<StoredMessage>): (r: seq<Message>)
    ensures |r| == |stored| && forall i :: 0 <= i < |stored| ==> r[i] == DecodeMessage(stored[i])
  {
    if stored == [] then [] else [DecodeMessage(stored[0])] + DecodeMessages(stored[1..])
  }

  /** `{ messages, theme }`: the only two fields that are saved. */
  function SnapshotOf(messages: seq<Message>, theme: Theme): (r: StoredRecord)
    ensures r.Snapshot? && r.theme == Some(theme) && r.messages.Some?
    ensures |r.messages.value| == |messages|
    ensures forall i :: 0 <= i < |messages| ==> r.messages.value[i] == EncodeMessage(messages[i])
  {
    Snapshot(Some(EncodeMessages(messages)), Some(theme))
  }

  /** The three ways `loadChatFromStorage` can end. */
  datatype LoadOutcome = NothingStored | DiscardCorrupt | Restore(messages: seq<Message>, theme: Theme)

  /**
   * An absent key or an empty string is a no-op; a corrupt record is discarded; a parsed
   * record restores its messages (`[]` when missing) and its theme (light when missing).
   */
  function Interpret(stored: Option<StoredRecord>): (o: LoadOutcome)
    ensures o.NothingStored? <==> stored == None || stored == Some(Blank)
    ensures o.DiscardCorrupt? <==> stored == Some(Corrupt)
    ensures o.Restore? ==>
      (&& stored.Some? && stored.value.Snapshot?
       && o.theme == stored.value.theme.GetOr(Light)
       && |o.messages| == |stored.value.messages.GetOr([])|)
  {
    match stored
    case None => NothingStored
    case Some(Blank) => NothingStored
    case Some(Corrupt) => DiscardCorrupt
    case Some(Snapshot(ms, t)) => Restore(DecodeMessages(ms.GetOr([])), t.GetOr(Light))
  }

  predicate SameFileMetadata(a: UploadedFile, b: UploadedFile) {
    a.id == b.id && a.name == b.name && a.size == b.size && a.mimeType == b.mimeType
  }

  /**
   * `r` is what a reload makes of `m`: the same id, content, sender and feedback, the
   * same instant when `m`'s timestamp was valid, and the same attached-file metadata with
   * each `File` reduced to `{}`.
   */
  predicate SameAfterReload(m: Message, r: Message) {
    && r.id == m.id && r.content == m.content && r.sender == m.sender && r.feedback == m.feedback
    && (m.timestamp.ValidDate? ==> r.timestamp == m.timestamp)
    && r.files.Some? == m.files.Some?
    && (m.files.Some? ==>
         |r.files.value| == |m.files.value|
         && forall i :: 0 <= i < |m.files.value| ==>
              SameFileMetadata(m.files.value[i], r.files.value[i]) && r.files.value[i].file == EmptyObject)
  }

  /** A record written by a save is read back as every message it held and the same theme. */
  lemma SaveThenLoad(messages: seq<Message>, theme: Theme)
    ensures var o := Interpret(Some(SnapshotOf(messages, theme)));
      && o.Restore? && o.theme == theme && |o.messages| == |messages|
      && forall i :: 0 <= i < |messages| ==> SameAfterReload(messages[i], o.messages[i])
  {
    var o := Interpret(Some(SnapshotOf(messages, theme)));
    forall i | 0 <= i < |messages| ensures SameAfterReload(messages[i], o.messages[i]) {
      assert o.messages[i] == DecodeMessage(EncodeMessage(messages[i]));
    }
  }

  /** A reloaded conversation is a fixed point: saving and loading it again changes nothing. */
  lemma ReloadIsStable(messages: seq<Message>, theme: Theme)
    ensures var o := Interpret(Some(SnapshotOf(messages, theme)));
      Interpret(Some(SnapshotOf(o.messages, o.theme))) == o
  {
    var o := Interpret(Some(SnapshotOf(messages, theme)));
    var o2 := Interpret(Some(SnapshotOf(o.messages, o.theme)));
    forall i | 0 <= i < |messages| ensures o2.messages[i] == o.messages[i] {
      var m := o.messages[i];
      assert m == DecodeMessage(EncodeMessage(messages[i]));
      if m.files.Some? {
        assert EncodeFiles(m.files.value) == m.files.value;
      }
      assert o2.messages[i] == DecodeMessage(EncodeMessage(m));
    }
  }
}
