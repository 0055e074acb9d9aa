/** The A2A message and task types the agent exchanges, as the agent and
    the gateway use them: messages made of parts, artifacts, and the task
    result with its state and history. */
module A2A {
  import opened Wrappers

  datatype Role = User | Agent

  /** A message part; only parts of kind `"text"` carry text the agent reads. */
  datatype Part = Part(kind: string, text: Option<string>)

  datatype Message = Message(role: Role, parts: seq<Part>, taskId: Option<string>, contextId: Option<string>)

  datatype Artifact = Artifact(name: string, parts: seq<Part>)

  datatype TaskState = Completed | InputRequired | Failed

  /** A task result: its id and context, the status (state and the agent's
      message), the artifacts when any were attached, and the history. */
  datatype TaskResult = TaskResult(
    id: string,
    contextId: string,
    state: TaskState,
    message: Message,
    artifacts: Option<seq<Artifact>>,
    history: seq<Message>)

  /** A part of kind `"text"` holding `text`. */
  function TextPart(text: string): Part {
    Part("text", Some(text))
  }
}
