/**
 * The records of the widget (a message, an uploaded file, the data a caller passes to
 * `addMessage`) and the fixed policy constants every component reads.
 */
module ChatTypes {
  import opened Wrappers

  datatype Sender = User | Bot

  datatype Feedback = Upvote | Downvote

  datatype Theme = Light | Dark

  /** A JavaScript `Date`: a millisecond instant since the epoch, or the invalid date. */
  datatype Date = ValidDate(epochMillis: int) | InvalidDate

  /**
   * A browser `File` the user picked: what the code reads of it (`name`, `size` in bytes,
   * `type`) and an opaque identity standing for its contents.
   */
  datatype SelectedFile = SelectedFile(name: string, size: nat, mimeType: string, handle: nat)

  /**
   * The `file` field of an uploaded file: the live `File`, or the empty object that is all
   * JSON serialisation keeps of one.
   */
  datatype FileRef = Live(selected: SelectedFile) | EmptyObject

  datatype UploadedFile = UploadedFile(id: string, name: string, size: nat, mimeType: string, file: FileRef)

  datatype Message = Message(
    id: string,
    content: string,
    sender: Sender,
    timestamp: Date,
    feedback: Option<Feedback>,
    files: Option<seq<UploadedFile>>)

  /** The argument of `addMessage`: a message without its `id` and `timestamp`. */
  datatype MessageData = MessageData(
    content: string,
    sender: Sender,
    feedback: Option<Feedback>,
    files: Option<seq<UploadedFile>>)

  const MAX_SIZE: nat := 10 * 1024 * 1024
  const MAX_FILES: nat := 3
  const ALLOWED_TYPES: seq<string> := [
    "application/pdf",
    "application/vnd.openxmlformats-officedocument.wordprocessingml.document",
    "application/msword",
    "text/plain"
  ]

  const STORAGE_KEY: string := "chatbot-widget-storage"

  const FILE_TOO_LARGE: string := "File size must be less than 10MB"
  const INVALID_FILE_TYPE: string := "Only PDF, DOCX, and TXT files are allowed"
  const MAX_FILES_EXCEEDED: string := "Maximum 3 files allowed"

  const BOT_RESPONSES: seq<string> := [
    "That's an interesting question! Let me help you with that.",
    "I understand what you're asking. Here's what I think...",
    "Great question! Based on my knowledge, I would suggest...",
    "I can definitely help you with that. Let me provide some insights.",
    "That's a common concern. Here's my perspective on this topic."
  ]
}
