/**
 * The message records that the chat utilities in lib/utils.ts work on.
 *
 * `A` is the type of a tool call's `args`, `R` the type of a tool call's
 * `result`; both are opaque JSON values that the utilities only copy.
 */
module ChatTypes {
  import opened Wrappers

  /** The `role` string of a stored, core or UI message. */
  datatype Role = System | User | Assistant | Tool | Data

  /** One element of an array-valued message `content`, told apart by its `type` field. */
  datatype Part<A, R> =
    | TextPart(text: string)                                          // type "text"
    | ToolCallPart(toolCallId: string, toolName: string, args: A)      // type "tool-call"
    | ToolResultPart(toolCallId: string, toolName: string, result: R)  // type "tool-result"
    | OtherPart                                                        // image, file, ...

  /**
   * A message's `content`: a string, an array of parts, or (for rows read back
   * from the database, whose content column is untyped JSON) anything else.
   */
  datatype Content<A, R> =
    | TextContent(text: string)
    | PartsContent(parts: seq<Part<A, R>>)
    | OtherContent

  /** A message row as stored by the backend (`Message` of the database schema). */
  datatype StoredMessage<A, R> = StoredMessage(id: string, role: Role, content: Content<A, R>)

  /** A `CoreMessage` of the AI SDK: a role and a content, no id. */
  datatype CoreMessage<A, R> = CoreMessage(role: Role, content: Content<A, R>)

  /** The `state` of a UI tool invocation. */
  datatype InvocationState = PartialCall | Call | Result

  /**
   * A UI `ToolInvocation`. `result` is absent (`undefined`) until the state
   * becomes `Result`.
   */
  datatype Invocation<A, R> =
    Invocation(state: InvocationState, toolCallId: string, toolName: string, args: A, result: Option<R>)

  /**
   * One element of a UI message's `annotations`. A falsy JSON value (null,
   * false, 0, "") is `Falsy`; any other value is `Truthy`, carrying its
   * `messageIdFromServer` property if it has one.
   */
  datatype Annotation = Falsy | Truthy(messageIdFromServer: Option<string>)

  /** A UI `Message` of the AI SDK, as rendered by the chat view. */
  datatype UIMessage<A, R> = UIMessage(
    id: string,
    role: Role,
    content: string,
    toolInvocations: Option<seq<Invocation<A, R>>>,
    annotations: Option<seq<Annotation>>)

  /** The `toolCallId` of a part, or `undefined` for parts that have none. */
  function PartCallId<A, R>(p: Part<A, R>): Option<string>
  {
    match p
    case ToolCallPart(id, _, _) => Some(id)
    case ToolResultPart(id, _, _) => Some(id)
    case _ => None
  }

  /** The `result` of a part, or `undefined` for parts that have none. */
  function PartResult<A, R>(p: Part<A, R>): Option<R>
  {
    if p.ToolResultPart? then Some(p.result) else None
  }
}
