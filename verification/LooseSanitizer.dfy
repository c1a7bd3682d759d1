/**
 `_sanitize_tool_pairs`: anywhere in the history, every tool call has an answer and every answer a call.
 One pass over calls and one over answers reach that closure.
 */
module LooseSanitizer {
  import opened Outcomes
  import opened Messages

  function ToolIds(ms: seq<Message>): set<string> {
    set m | m in ms && m.Tool? :: m.callId
  }

  function CalledIds(ms: seq<Message>): set<Option<string>> {
    set m, c | m in ms && m.Ai? && c in m.calls :: c
  }

  /** Whether some call of the message has no answer among `ids`. */
  predicate Unanswered(m: Message, ids: set<string>) {
    m.Ai? && exists c :: c in m.calls && (c.None? || c.value !in ids)
  }

  function StripUnanswered(ms: seq<Message>, ids: set<string>): seq<Message> {
    if ms == [] then []
    else
      var last := ms[|ms| - 1];
      StripUnanswered(ms[..|ms| - 1], ids) + if Unanswered(last, ids) then Stripped(last) else [last]
  }

  function DropUncalled(ms: seq<Message>, ids: set<Option<string>>): seq<Message> {
    if ms == [] then []
    else
      var last := ms[|ms| - 1];
      DropUncalled(ms[..|ms| - 1], ids) + if last.Tool? && Some(last.callId) !in ids then [] else [last]
  }

  function Loose(ms: seq<Message>): seq<Message> {
    var answered := StripUnanswered(ms, ToolIds(ms));
    DropUncalled(answered, CalledIds(answered))
  }

  /** Calls and answers match up over the whole history. */
  ghost predicate Closed(ms: seq<Message>) {
    && (forall m :: m in ms ==> !Unanswered(m, ToolIds(ms)))
    && (forall t :: t in ms && t.Tool? ==> Some(t.callId) in CalledIds(ms))
  }

  // ----- membership -----

  lemma CalledIn(ms: seq<Message>, m: Message, c: Option<string>)
    requires m in ms && m.Ai? && c in m.calls
    ensures c in CalledIds(ms)
  {
  }

  lemma {:induction false} StripMembers(ms: seq<Message>, ids: set<string>, m: Message)
    ensures m in StripUnanswered(ms, ids) <==>
              || (m in ms && !Unanswered(m, ids))
              || (exists o :: o in ms && Unanswered(o, ids) && m in Stripped(o))
  {
    if ms != [] {
      var front, last := ms[..|ms| - 1], ms[|ms| - 1];
      assert ms == front + [last];
      StripMembers(front, ids, m);
      if m in StripUnanswered(ms, ids) && m !in StripUnanswered(front, ids) && Unanswered(last, ids) {
        assert last in ms && m in Stripped(last);
      }
    }
  }

  lemma {:induction false} DropMembers(ms: seq<Message>, ids: set<Option<string>>, m: Message)
    ensures m in DropUncalled(ms, ids) <==> m in ms && !(m.Tool? && Some(m.callId) !in ids)
  {
    if ms != [] {
      assert ms == ms[..|ms| - 1] + [ms[|ms| - 1]];
      DropMembers(ms[..|ms| - 1], ids, m);
    }
  }

  /** Messages that matter for pairing after the first pass. */
  lemma StripPairs(ms: seq<Message>, ids: set<string>)
    ensures forall m: Message :: m.Tool? ==> (m in StripUnanswered(ms, ids) <==> m in ms)
    ensures forall m :: HasCalls(m) ==> (m in StripUnanswered(ms, ids) <==> m in ms && !Unanswered(m, ids))
  {
    hide StripUnanswered;
    forall m: Message | m.Tool? || HasCalls(m)
      ensures m in StripUnanswered(ms, ids) <==> m in ms && !Unanswered(m, ids)
    {
      StripMembers(ms, ids, m);
    }
  }

  // ----- the laws -----

  /** One pass is enough. */
  lemma LooseIsClosed(ms: seq<Message>)
    ensures Closed(Loose(ms))
  {
    hide StripUnanswered, DropUncalled;
    var ids := ToolIds(ms);
    var answered := StripUnanswered(ms, ids);
    var called := CalledIds(answered);
    var r := Loose(ms);
    StripPairs(ms, ids);
    forall m
      ensures m in r <==> m in answered && !(m.Tool? && Some(m.callId) !in called)
    {
      DropMembers(answered, called, m);
    }
    forall m, c | m in r && m.Ai? && c in m.calls
      ensures c.Some? && c.value in ToolIds(r)
    {
      assert HasCalls(m) && !Unanswered(m, ids);
      var t :| t in ms && t.Tool? && t.callId == c.value;
      assert t in answered && c in called;
      assert t in r;
    }
    assert forall m :: m in r ==> !Unanswered(m, ToolIds(r));
    forall t | t in r && t.Tool?
      ensures Some(t.callId) in CalledIds(r)
    {
      var m, c :| m in answered && m.Ai? && c in m.calls && c == Some(t.callId);
      assert m in r;
    }
  }

  lemma {:induction false} StripKeeps(ms: seq<Message>, ids: set<string>)
    requires forall m :: m in ms ==> !Unanswered(m, ids)
    ensures StripUnanswered(ms, ids) == ms
  {
    if ms != [] {
      assert ms == ms[..|ms| - 1] + [ms[|ms| - 1]];
      StripKeeps(ms[..|ms| - 1], ids);
      assert ms[|ms| - 1] in ms;
    }
  }

  lemma {:induction false} DropKeeps(ms: seq<Message>, ids: set<Option<string>>)
    requires forall t :: t in ms && t.Tool? ==> Some(t.callId) in ids
    ensures DropUncalled(ms, ids) == ms
  {
    if ms != [] {
      assert ms == ms[..|ms| - 1] + [ms[|ms| - 1]];
      DropKeeps(ms[..|ms| - 1], ids);
      assert ms[|ms| - 1] in ms;
    }
  }

  /** The sanitiser changes a history exactly when it is not closed; and twice is as good as once. */
  lemma LooseFixpoints(ms: seq<Message>)
    ensures Loose(ms) == ms <==> Closed(ms)
    ensures Loose(Loose(ms)) == Loose(ms)
  {
    hide StripUnanswered, DropUncalled;
    LooseIsClosed(ms);
    ClosedIsKept(Loose(ms));
    if Closed(ms) {
      ClosedIsKept(ms);
    }
  }

  lemma ClosedIsKept(ms: seq<Message>)
    requires Closed(ms)
    ensures Loose(ms) == ms
  {
    StripKeeps(ms, ToolIds(ms));
    DropKeeps(ms, CalledIds(ms));
  }

  /** Messages that take no part in tool calling are kept, in order. */
  function Bystanders(ms: seq<Message>): seq<Message> {
    if ms == [] then []
    else
      var last := ms[|ms| - 1];
      Bystanders(ms[..|ms| - 1]) + if last.System? || last.Human? then [last] else []
  }

  lemma {:induction false} BystandersOneMore(ms: seq<Message>, m: Message)
    ensures Bystanders(ms + [m]) == Bystanders(ms) + if m.System? || m.Human? then [m] else []
  {
    assert (ms + [m])[..|ms|] == ms;
  }

  lemma {:induction false} StripBystanders(ms: seq<Message>, ids: set<string>)
    ensures Bystanders(StripUnanswered(ms, ids)) == Bystanders(ms)
  {
    if ms != [] {
      var front, last := ms[..|ms| - 1], ms[|ms| - 1];
      StripBystanders(front, ids);
      if !Unanswered(last, ids) {
        BystandersOneMore(StripUnanswered(front, ids), last);
      } else if last.content != "" {
        BystandersOneMore(StripUnanswered(front, ids), Ai(last.content, []));
      } else {
        assert StripUnanswered(front, ids) + [] == StripUnanswered(front, ids);
      }
    }
  }

  lemma {:induction false} DropBystanders(ms: seq<Message>, ids: set<Option<string>>)
    ensures Bystanders(DropUncalled(ms, ids)) == Bystanders(ms)
  {
    if ms != [] {
      var front, last := ms[..|ms| - 1], ms[|ms| - 1];
      DropBystanders(front, ids);
      if last.Tool? && Some(last.callId) !in ids {
        assert DropUncalled(front, ids) + [] == DropUncalled(front, ids);
      } else {
        BystandersOneMore(DropUncalled(front, ids), last);
      }
    }
  }

  lemma LooseKeepsBystanders(ms: seq<Message>)
    ensures Bystanders(Loose(ms)) == Bystanders(ms)
  {
    var answered := StripUnanswered(ms, ToolIds(ms));
    StripBystanders(ms, ToolIds(ms));
    DropBystanders(answered, CalledIds(answered));
  }

  // ----- the loops -----

  lemma StripOneMore(ms: seq<Message>, m: Message, ids: set<string>)
    ensures StripUnanswered(ms + [m], ids) == StripUnanswered(ms, ids) + if Unanswered(m, ids) then Stripped(m) else [m]
  {
    assert (ms + [m])[..|ms|] == ms;
  }

  lemma DropOneMore(ms: seq<Message>, m: Message, ids: set<Option<string>>)
    ensures DropUncalled(ms + [m], ids) == DropUncalled(ms, ids) + if m.Tool? && Some(m.callId) !in ids then [] else [m]
  {
    assert (ms + [m])[..|ms|] == ms;
  }

  method SanitizeLoose(ms: seq<Message>) returns (r: seq<Message>)
    ensures r == Loose(ms)
  {
    var toolIds: set<string> := {};
    for i := 0 to |ms|
      invariant toolIds == ToolIds(ms[..i])
    {
      assert ms[..i + 1] == ms[..i] + [ms[i]];
      if ms[i].Tool? {
        toolIds := toolIds + {ms[i].callId};
      }
    }
    assert ms[..|ms|] == ms;

    var answered: seq<Message> := [];
    for i := 0 to |ms|
      invariant answered == StripUnanswered(ms[..i], toolIds)
    {
      assert ms[..i + 1] == ms[..i] + [ms[i]];
      StripOneMore(ms[..i], ms[i], toolIds);
      answered := answered + if Unanswered(ms[i], toolIds) then Stripped(ms[i]) else [ms[i]];
    }

    var called: set<Option<string>> := {};
    for i := 0 to |answered|
      invariant called == CalledIds(answered[..i])
    {
      assert answered[..i + 1] == answered[..i] + [answered[i]];
      if answered[i].Ai? {
        called := called + CallIds(answered[i]);
      }
    }
    assert answered[..|answered|] == answered;

    r := [];
    for i := 0 to |answered|
      invariant r == DropUncalled(answered[..i], called)
    {
      assert answered[..i + 1] == answered[..i] + [answered[i]];
      DropOneMore(answered[..i], answered[i], called);
      if answered[i].Tool? && Some(answered[i].callId) !in called {
        continue;
      }
      r := r + [answered[i]];
    }
  }
}
