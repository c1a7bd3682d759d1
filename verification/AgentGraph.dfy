/**
 The two-node agent graph: the model node, the routing after it, and the guarded tool node.

 The model and the tools are arbitrary: each is a function given to the run, and the model may answer
 the same history differently at every call.
 */
module AgentGraph {
  import opened Outcomes
  import opened Messages
  import opened StrictSanitizer

  datatype State = State(messages: seq<Message>, remaining: Option<int>)

  /** The model: its answer to the n-th request of a run, given the history sent. */
  type Model = (nat, seq<Message>) -> Message

  /** A tool: what the n-th batch of a run yields for the call at an index. */
  type Toolbox = (nat, nat) -> string

  const EXHAUSTED := "[工具调用已因轮次耗尽被跳过，请继续对话]"
  const REJECTED := "[错误] 工具调用次数已达本轮上限，无法继续执行。请根据已有信息直接回复用户。"

  function Rounds(st: State): int {
    match st.remaining case Some(n) => n case None => 0
  }

  /** `should_continue`: whether the tool node is next. */
  predicate ShouldContinue(st: State) {
    st.messages != [] && HasCalls(st.messages[|st.messages| - 1]) && Rounds(st) > 0
  }

  /** `RoundsGuard.check`. */
  predicate GuardAllows(st: State) {
    Rounds(st) > 0
  }

  /** The model node on a response: calls are stripped when this would be the last round. */
  function Accepted(st: State, response: Message): State {
    if response.Ai? && response.calls != [] then
      if Rounds(st) <= 1
      then State(st.messages + [Ai(if response.content != "" then response.content else EXHAUSTED, [])], Some(0))
      else State(st.messages + [response], Some(Rounds(st) - 1))
    else State(st.messages + [response], Some(Rounds(st)))
  }

  /** What becomes of an answer: it is all that is added to the history; its tool calls survive exactly when a round is
      left for them after this one, which is then spent, and the tools come next; and calls that do not survive leave a
      message with text, and no rounds. */
  lemma CallsSurviveWithRoundsLeft(st: State, answer: Message)
    ensures var after := Accepted(st, answer);
            && |after.messages| == |st.messages| + 1 && st.messages <= after.messages && after.remaining.Some?
            && var last := after.messages[|st.messages|];
               && (ShouldContinue(after) <==> HasCalls(answer) && Rounds(st) >= 2)
               && (HasCalls(last) <==> ShouldContinue(after))
               && (ShouldContinue(after) ==> last == answer && GuardAllows(after) && Rounds(after) == Rounds(st) - 1)
               && (!HasCalls(answer) ==> last == answer && Rounds(after) == Rounds(st))
               && (HasCalls(answer) && !HasCalls(last) ==>
                     last.Ai? && last.content != "" && Rounds(after) == 0
                       && (answer.content != "" ==> last.content == answer.content))
  {
  }

  function LlmNode(st: State, llm: Model, n: nat): State {
    Accepted(st, llm(n, Strict(st.messages)))
  }

  function CallId(c: Option<string>): string {
    match c case Some(id) => id case None => ""
  }

  function Results(st: State, calls: seq<Option<string>>, tools: Toolbox, n: nat): (r: seq<Message>)
    ensures |r| == |calls|
    ensures forall i :: 0 <= i < |calls| ==> r[i].Tool? && r[i].callId == CallId(calls[i])
  {
    seq(|calls|, i requires 0 <= i < |calls| =>
      Tool(if GuardAllows(st) then tools(n, i) else REJECTED, CallId(calls[i])))
  }

  /** The tool node: one tool message for every call of the last message. */
  function ToolNode(st: State, tools: Toolbox, n: nat): State
    requires st.messages != [] && HasCalls(st.messages[|st.messages| - 1])
  {
    st.(messages := st.messages + Results(st, st.messages[|st.messages| - 1].calls, tools, n))
  }

  /** How a run went: its last state, the histories the model node saw, and the tool batches run and refused. */
  datatype Trace = Trace(end: State, seen: seq<seq<Message>>, batches: nat, refused: nat)

  /** The whole graph run from the model node. */
  function Run(st: State, llm: Model, tools: Toolbox, n: nat): Trace
    decreases if Rounds(st) > 0 then Rounds(st) else 0
  {
    var st' := LlmNode(st, llm, n);
    if ShouldContinue(st') && Rounds(st') < Rounds(st) then
      var rest := Run(ToolNode(st', tools, n), llm, tools, n + 1);
      rest.(seen := [st.messages] + rest.seen, batches := rest.batches + 1,
            refused := rest.refused + if GuardAllows(st') then 0 else 1)
    else Trace(st', [st.messages], 0, 0)
  }

  /** The guard in `Run` that a round was spent never decides: it follows from the routing. */
  lemma RoutingSpendsARound(st: State, llm: Model, n: nat)
    ensures ShouldContinue(LlmNode(st, llm, n)) ==> 0 < Rounds(LlmNode(st, llm, n)) < Rounds(st)
  {
  }

  ghost predicate IsModel(llm: Model) {
    forall n, h :: llm(n, h).Ai?
  }

  /** Every run ends after at most R - 1 tool batches, none of them refused, in a message without tool calls. */
  lemma {:induction false} RunIsBounded(st: State, llm: Model, tools: Toolbox, n: nat)
    requires IsModel(llm)
    ensures var t := Run(st, llm, tools, n);
            && t.batches <= (if Rounds(st) >= 1 then Rounds(st) - 1 else 0)
            && t.refused == 0
            && |t.seen| == t.batches + 1
            && t.end.messages != [] && t.end.messages[|t.end.messages| - 1].Ai?
            && !HasCalls(t.end.messages[|t.end.messages| - 1])
    decreases if Rounds(st) > 0 then Rounds(st) else 0
  {
    var st' := LlmNode(st, llm, n);
    if ShouldContinue(st') {
      RunIsBounded(ToolNode(st', tools, n), llm, tools, n + 1);
    }
  }

  /** The model always gives its calls non-empty ids. */
  ghost predicate NamesItsCalls(llm: Model) {
    forall n, h, c :: llm(n, h).Ai? && c in llm(n, h).calls ==> c.Some? && c.value != ""
  }

  lemma AnsweredByResults(calls: seq<Option<string>>, results: seq<Message>)
    requires |results| == |calls|
    requires forall i :: 0 <= i < |calls| ==> calls[i].Some? && calls[i].value != ""
    requires forall i :: 0 <= i < |calls| ==> results[i].Tool? && results[i].callId == CallId(calls[i])
    ensures var needed := set c | c in calls;
            Answered(results, needed) == needed && forall t :: t in results ==> Answers(t, needed)
  {
    var needed := set c | c in calls;
    forall t | t in results
      ensures Answers(t, needed)
    {
      var i :| 0 <= i < |results| && results[i] == t;
      assert calls[i] in needed;
    }
    forall c | c in needed
      ensures c in Answered(results, needed)
    {
      var i :| 0 <= i < |calls| && calls[i] == c;
      assert results[i] in results && Answers(results[i], needed) && Some(results[i].callId) == c;
    }
  }

  /** One round keeps a well-formed history well formed. */
  lemma RoundKeepsWellFormed(st: State, llm: Model, tools: Toolbox, n: nat)
    requires IsModel(llm) && NamesItsCalls(llm) && WellFormed(st.messages)
    ensures var st' := LlmNode(st, llm, n);
            if ShouldContinue(st') then WellFormed(ToolNode(st', tools, n).messages) else WellFormed(st'.messages)
  {
    hide WellFormed;
    var st' := LlmNode(st, llm, n);
    var m := st'.messages[|st.messages|];
    assert st'.messages == st.messages + [m] && m.Ai?;
    if HasCalls(m) {
      assert m == llm(n, Strict(st.messages));
      var results := Results(st', m.calls, tools, n);
      AnsweredByResults(m.calls, results);
      WellFormedBlock(m, results);
      WellFormedConcat(st.messages, [m] + results);
      assert ToolNode(st', tools, n).messages == st.messages + ([m] + results);
    } else {
      WellFormedAlone(m);
      WellFormedConcat(st.messages, [m]);
    }
  }

  /** From a well-formed history, the strict sanitiser has nothing to do at any model call of the run, and the
      run leaves a well-formed history behind for the next one. */
  lemma {:induction false} SanitizerIsIdle(st: State, llm: Model, tools: Toolbox, n: nat)
    requires IsModel(llm) && NamesItsCalls(llm) && WellFormed(st.messages)
    ensures forall h :: h in Run(st, llm, tools, n).seen ==> Strict(h) == h
    ensures WellFormed(Run(st, llm, tools, n).end.messages)
    decreases if Rounds(st) > 0 then Rounds(st) else 0
  {
    hide WellFormed, Strict;
    var st' := LlmNode(st, llm, n);
    RoundKeepsWellFormed(st, llm, tools, n);
    StrictKeepsWellFormed(st.messages);
    if ShouldContinue(st') {
      SanitizerIsIdle(ToolNode(st', tools, n), llm, tools, n + 1);
    }
  }

  /** A run only adds to the history it was given. */
  lemma {:induction false} RunExtendsHistory(st: State, llm: Model, tools: Toolbox, n: nat)
    ensures st.messages <= Run(st, llm, tools, n).end.messages
    decreases if Rounds(st) > 0 then Rounds(st) else 0
  {
    var st' := LlmNode(st, llm, n);
    if ShouldContinue(st') && Rounds(st') < Rounds(st) {
      RunExtendsHistory(ToolNode(st', tools, n), llm, tools, n + 1);
    }
  }

  // ----- what the model is asked, and what becomes of its answers -----

  /** `before` is extended by an answer and by what the tools say to each of its calls. */
  ghost predicate Extends(before: seq<Message>, answer: Message, tools: Toolbox, n: nat, after: seq<Message>) {
    && HasCalls(answer)
    && |after| == |before| + 1 + |answer.calls| && before + [answer] <= after
    && forall i: nat :: i < |answer.calls| ==>
         after[|before| + 1 + i] == Tool(tools(n, i), CallId(answer.calls[i]))
  }

  /** `before` is closed by an answer: by the answer itself when it calls nothing; otherwise no round was left for its
      calls, and its text closes, or a notice when it has none. */
  ghost predicate Closes(before: seq<Message>, rounds: int, answer: Message, after: seq<Message>) {
    && |after| == |before| + 1 && before <= after
    && (!HasCalls(answer) ==> after[|before|] == answer)
    && (HasCalls(answer) ==>
          rounds <= 1 && after[|before|] == Ai(if answer.content == "" then EXHAUSTED else answer.content, []))
  }

  /** The k-th turn adds what the model says to the history it saw, and what the tools say to that. */
  ghost predicate FollowsTheModel(t: Trace, llm: Model, tools: Toolbox, rounds: int, n: nat, k: nat)
    requires k < |t.seen|
  {
    var answer := llm(n + k, t.seen[k]);
    if k + 1 < |t.seen| then Extends(t.seen[k], answer, tools, n + k, t.seen[k + 1])
    else Closes(t.seen[k], rounds - k, answer, t.end.messages)
  }

  lemma ToolsExtend(st: State, llm: Model, tools: Toolbox, n: nat)
    requires ShouldContinue(LlmNode(st, llm, n))
    ensures var st' := LlmNode(st, llm, n);
            var next := ToolNode(st', tools, n);
            && Extends(st.messages, llm(n, Strict(st.messages)), tools, n, next.messages)
            && 1 <= Rounds(next) == Rounds(st) - 1
  {
    hide Strict;
  }

  /** Every turn of a run asks the model about the sanitised history that the turn saw; the next turn sees that history
      with the answer and what the tools said to it, and the last answer closes the run. */
  lemma {:induction false} TurnsFollowTheModel(st: State, llm: Model, tools: Toolbox, n: nat, k: nat)
    requires k < |Run(st, llm, tools, n).seen|
    ensures var t := Run(st, llm, tools, n);
            var answer := llm(n + k, Strict(t.seen[k]));
            && t.seen[0] == st.messages
            && (k + 1 < |t.seen| ==> Rounds(st) - k >= 2 && Extends(t.seen[k], answer, tools, n + k, t.seen[k + 1]))
            && (k + 1 == |t.seen| ==> Closes(t.seen[k], Rounds(st) - k, answer, t.end.messages))
    decreases k
  {
    hide Strict, Extends;
    var st' := LlmNode(st, llm, n);
    if ShouldContinue(st') {
      ToolsExtend(st, llm, tools, n);
      if k > 0 {
        TurnsFollowTheModel(ToolNode(st', tools, n), llm, tools, n + 1, k - 1);
      } else {
        SeesItsHistory(ToolNode(st', tools, n), llm, tools, n + 1);
      }
    }
  }

  lemma SeesItsHistory(st: State, llm: Model, tools: Toolbox, n: nat)
    ensures Run(st, llm, tools, n).seen != [] && Run(st, llm, tools, n).seen[0] == st.messages
  {
    hide LlmNode;
  }

  /** Two models that give the same answers to what one run asks of them have the same run. */
  lemma {:induction false} AgreeingModels(st: State, llm: Model, other: Model, tools: Toolbox, n: nat)
    requires var seen := Run(st, llm, tools, n).seen;
             forall k: nat :: k < |seen| ==> llm(n + k, Strict(seen[k])) == other(n + k, Strict(seen[k]))
    ensures Run(st, other, tools, n) == Run(st, llm, tools, n)
    decreases if Rounds(st) > 0 then Rounds(st) else 0
  {
    hide Strict;
    var seen := Run(st, llm, tools, n).seen;
    SeesItsHistory(st, llm, tools, n);
    assert llm(n + 0, Strict(seen[0])) == other(n + 0, Strict(seen[0]));
    var st' := LlmNode(st, llm, n);
    assert st' == LlmNode(st, other, n);
    if ShouldContinue(st') && Rounds(st') < Rounds(st) {
      var next := ToolNode(st', tools, n);
      var rest := Run(next, llm, tools, n + 1).seen;
      forall k: nat | k < |rest|
        ensures llm(n + 1 + k, Strict(rest[k])) == other(n + 1 + k, Strict(rest[k]))
      {
        assert seen[k + 1] == rest[k];
        assert llm(n + (k + 1), Strict(seen[k + 1])) == other(n + (k + 1), Strict(seen[k + 1]));
      }
      AgreeingModels(next, llm, other, tools, n + 1);
    }
  }

  /** From a well-formed history the model is asked the very histories that the turns saw: whoever agrees on those has
      the same run, and each answer stands right behind the history it was given. */
  lemma ModelSeesTheHistory(st: State, llm: Model, other: Model, tools: Toolbox, n: nat)
    requires IsModel(llm) && NamesItsCalls(llm) && WellFormed(st.messages)
    requires var seen := Run(st, llm, tools, n).seen;
             forall k: nat :: k < |seen| ==> llm(n + k, seen[k]) == other(n + k, seen[k])
    ensures var t := Run(st, llm, tools, n);
            && Run(st, other, tools, n) == t
            && forall k: nat :: k < |t.seen| ==> FollowsTheModel(t, llm, tools, Rounds(st), n, k)
  {
    hide Strict, WellFormed, Run, Extends, Closes;
    var t := Run(st, llm, tools, n);
    SanitizerIsIdle(st, llm, tools, n);
    forall k: nat | k < |t.seen|
      ensures Strict(t.seen[k]) == t.seen[k]
    {
      assert t.seen[k] in t.seen;
    }
    AgreeingModels(st, llm, other, tools, n);
    forall k: nat | k < |t.seen|
      ensures FollowsTheModel(t, llm, tools, Rounds(st), n, k)
    {
      TurnsFollowTheModel(st, llm, tools, n, k);
    }
  }

  // ----- the node bodies -----

  /** The model node after the model has answered. */
  method AcceptResponse(st: State, answer: Message) returns (st': State)
    ensures st' == Accepted(st, answer)
  {
    var remaining, response := Rounds(st), answer;
    if response.Ai? && response.calls != [] {
      if remaining <= 1 {
        var content := if response.content != "" then response.content else EXHAUSTED;
        response := Ai(content, []);
        remaining := 0;
      } else {
        remaining := remaining - 1;
      }
    }
    st' := State(st.messages + [response], Some(remaining));
  }
}
