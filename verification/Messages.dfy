/** Chat messages, and the two ways a tool call and its answer can belong together. */
module Messages {
  import opened Outcomes

  /** A tool call carries an id, which may be missing. */
  datatype Message =
    | System(content: string)
    | Human(content: string)
    | Ai(content: string, calls: seq<Option<string>>)
    | Tool(content: string, callId: string)

  predicate HasCalls(m: Message) {
    m.Ai? && m.calls != []
  }

  function CallIds(m: Message): set<Option<string>>
    requires m.Ai?
  {
    set c | c in m.calls
  }

  /** An assistant message without its tool calls, dropped when nothing is left of it. */
  function Stripped(m: Message): seq<Message>
    requires m.Ai?
  {
    if m.content == "" then [] else [Ai(m.content, [])]
  }

  /** How many messages at the front are tool messages. */
  function ToolRun(ms: seq<Message>): (n: nat)
    ensures n <= |ms|
    ensures forall i :: 0 <= i < n ==> ms[i].Tool?
    ensures n < |ms| ==> !ms[n].Tool?
  {
    if ms == [] || !ms[0].Tool? then 0 else 1 + ToolRun(ms[1..])
  }
}
