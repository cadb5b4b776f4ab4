/**
 * The record shapes the store keeps and hands back (schema/task.go and
 * schema/artifact.go). They are plain data; the store never inspects a
 * message, a part or a state, it only copies them.
 */
module Schema {
  import opened Wrappers

  /** A task's state is a string-valued enumeration in the schema. */
  type TaskState = string

  const Submitted: TaskState := "submitted"
  const Working: TaskState := "working"
  const InputRequired: TaskState := "input_required"
  const Completed: TaskState := "completed"
  const Cancelled: TaskState := "cancelled"
  const Failed: TaskState := "failed"
  const Unknown: TaskState := "unknown"

  /** The tag of a part: "text", "file" or "data". */
  type PartType = string

  datatype FileContent = FileContent(
    name: Option<string>,
    mimeType: Option<string>,
    bytes: Option<string>,
    uri: Option<string>)

  /** One part of a message or an artifact; its free-form maps are not modelled. */
  datatype Part = Part(kind: PartType, text: Option<string>, file: Option<FileContent>)

  /** A turn of a session's conversation, made of parts. */
  datatype Message = Message(parts: seq<Part>)

  /** A status: a state, an optional message and an optional RFC 3339 timestamp. */
  datatype TaskStatus = TaskStatus(state: TaskState, message: Option<Message>, timestamp: Option<string>)

  /** An output chunk of a task, addressed by its caller-chosen index. */
  datatype Artifact = Artifact(
    name: Option<string>,
    description: Option<string>,
    parts: seq<Part>,
    index: int,
    append: Option<bool>,
    lastChunk: Option<bool>)

  datatype Task = Task(
    id: string,
    sessionId: string,
    status: TaskStatus,
    history: seq<Message>,
    artifacts: seq<Artifact>)

  /** Go's zero value of an artifact: what `make` puts in every fresh slot. */
  const ZeroArtifact: Artifact := Artifact(None, None, [], 0, None, None)
}
