/**
 `_sanitize_tool_pairs_strict`: every assistant message with tool calls is directly followed by tool
 messages that answer exactly its calls.
 */
module StrictSanitizer {
  import opened Outcomes
  import opened Messages

  /** A tool message that answers one of the needed calls; an empty id answers nothing. */
  predicate Answers(m: Message, needed: set<Option<string>>) {
    m.Tool? && m.callId != "" && Some(m.callId) in needed
  }

  function Answered(block: seq<Message>, needed: set<Option<string>>): set<Option<string>> {
    set m | m in block && Answers(m, needed) :: Some(m.callId)
  }

  function Answering(block: seq<Message>, needed: set<Option<string>>): seq<Message> {
    if block == [] then []
    else
      var last := block[|block| - 1];
      Answering(block[..|block| - 1], needed) + if Answers(last, needed) then [last] else []
  }

  /** What becomes of an assistant message with calls and the tool messages right after it. */
  function Kept(m: Message, block: seq<Message>): seq<Message>
    requires HasCalls(m)
  {
    if Answered(block, CallIds(m)) == CallIds(m) then [m] + Answering(block, CallIds(m)) else Stripped(m)
  }

  /** What the sanitiser returns, block by block. */
  function Strict(ms: seq<Message>): seq<Message>
    decreases |ms|
  {
    if ms == [] then []
    else if ms[0].Tool? then Strict(ms[1..])
    else if HasCalls(ms[0]) then
      var n := ToolRun(ms[1..]);
      Kept(ms[0], ms[1..1 + n]) + Strict(ms[1 + n..])
    else [ms[0]] + Strict(ms[1..])
  }

  // ----- what a well-formed history is, by positions -----

  /** The messages right after position `i` that are tool messages. */
  function BlockAfter(ms: seq<Message>, i: nat): seq<Message>
    requires i < |ms|
  {
    ms[i + 1..i + 1 + ToolRun(ms[i + 1..])]
  }

  /** Every call of the assistant message at `i` is answered right after it. */
  ghost predicate CallsAnswered(ms: seq<Message>, i: nat)
    requires i < |ms| && ms[i].Ai?
  {
    Answered(BlockAfter(ms, i), CallIds(ms[i])) == CallIds(ms[i])
  }

  /** The tool message at `j` answers the assistant message at `i`, with nothing but tool messages in between. */
  ghost predicate AnswersAt(ms: seq<Message>, i: nat, j: nat)
    requires j < |ms|
  {
    i < j && HasCalls(ms[i]) && Answers(ms[j], CallIds(ms[i])) && forall k :: i < k < j ==> ms[k].Tool?
  }

  ghost predicate WellFormed(ms: seq<Message>) {
    && (forall i :: 0 <= i < |ms| && HasCalls(ms[i]) ==> CallsAnswered(ms, i))
    && (forall j :: 0 <= j < |ms| && ms[j].Tool? ==> exists i :: AnswersAt(ms, i, j))
  }

  /** No tool message starts `b`, so nothing in `b` answers a call in front of it. */
  predicate Detached(b: seq<Message>) {
    b == [] || !b[0].Tool?
  }

  lemma {:induction false} ToolRunConcat(a: seq<Message>, b: seq<Message>)
    requires Detached(b)
    ensures ToolRun(a + b) == ToolRun(a)
  {
    if a == [] {
      assert a + b == b;
    } else {
      assert (a + b)[1..] == a[1..] + b;
      ToolRunConcat(a[1..], b);
    }
  }

  lemma {:induction false} ToolRunOfBlock(block: seq<Message>, rest: seq<Message>)
    requires (forall m :: m in block ==> m.Tool?) && Detached(rest)
    ensures ToolRun(block + rest) == |block|
  {
    ToolRunConcat(block, rest);
    if block != [] {
      ToolRunOfBlock(block[1..], []);
      assert block[1..] + [] == block[1..];
    }
  }

  lemma BlockAfterConcat(a: seq<Message>, b: seq<Message>, i: nat)
    requires Detached(b) && i < |a| + |b|
    ensures BlockAfter(a + b, i) == if i < |a| then BlockAfter(a, i) else BlockAfter(b, i - |a|)
  {
    if i < |a| {
      assert (a + b)[i + 1..] == a[i + 1..] + b;
      ToolRunConcat(a[i + 1..], b);
    } else {
      assert (a + b)[i + 1..] == b[i - |a| + 1..];
    }
  }

  lemma AnswersAtConcat(a: seq<Message>, b: seq<Message>, i: nat, j: nat)
    requires Detached(b) && j < |a| + |b|
    ensures AnswersAt(a + b, i, j) <==>
              if j < |a| then AnswersAt(a, i, j) else i >= |a| && AnswersAt(b, i - |a|, j - |a|)
  {
    var ms := a + b;
    if i < j && j < |a| {
      assert forall k :: i <= k <= j ==> ms[k] == a[k];
    } else if i < j && i >= |a| {
      assert forall k :: i <= k <= j ==> ms[k] == b[k - |a|];
      assert forall k :: i - |a| < k < j - |a| ==> b[k] == ms[k + |a|];
    } else if i < j {
      assert ms[|a|] == b[0];
    }
  }

  lemma WellFormedFront(a: seq<Message>, b: seq<Message>)
    requires Detached(b) && WellFormed(a + b)
    ensures WellFormed(a)
  {
    var ms := a + b;
    forall i | 0 <= i < |a| && HasCalls(a[i])
      ensures CallsAnswered(a, i)
    {
      assert ms[i] == a[i] && CallsAnswered(ms, i);
      BlockAfterConcat(a, b, i);
    }
    forall j | 0 <= j < |a| && a[j].Tool?
      ensures exists i :: AnswersAt(a, i, j)
    {
      assert ms[j] == a[j];
      var i: nat :| AnswersAt(ms, i, j);
      AnswersAtConcat(a, b, i, j);
    }
  }

  lemma Answerer(ms: seq<Message>, j: nat) returns (i: nat)
    requires WellFormed(ms) && j < |ms| && ms[j].Tool?
    ensures AnswersAt(ms, i, j)
  {
    i :| AnswersAt(ms, i, j);
  }

  lemma AnswererBehind(a: seq<Message>, b: seq<Message>, j: nat)
    requires Detached(b) && WellFormed(a + b) && j < |b| && b[j].Tool?
    ensures exists i :: AnswersAt(b, i, j)
  {
    hide WellFormed, AnswersAt;
    assert (a + b)[|a| + j] == b[j];
    var i := Answerer(a + b, |a| + j);
    AnswersAtConcat(a, b, i, |a| + j);
  }

  lemma AnsweredBehind(a: seq<Message>, b: seq<Message>, i: nat)
    requires Detached(b) && i < |b| && HasCalls(b[i]) && (a + b)[|a| + i] == b[i] && CallsAnswered(a + b, |a| + i)
    ensures CallsAnswered(b, i)
  {
    hide BlockAfter;
    assert (a + b)[|a| + i] == b[i];
    BlockAfterConcat(a, b, |a| + i);
  }

  lemma WellFormedBack(a: seq<Message>, b: seq<Message>)
    requires Detached(b) && WellFormed(a + b)
    ensures WellFormed(b)
  {
    forall i | 0 <= i < |b| && HasCalls(b[i])
      ensures CallsAnswered(b, i)
    {
      assert (a + b)[|a| + i] == b[i];
      AnsweredBehind(a, b, i);
    }
    forall j | 0 <= j < |b| && b[j].Tool?
      ensures exists i :: AnswersAt(b, i, j)
    {
      AnswererBehind(a, b, j);
    }
  }

  lemma AnsweredInConcat(a: seq<Message>, b: seq<Message>, i: nat)
    requires Detached(b) && WellFormed(a) && WellFormed(b) && i < |a| + |b| && HasCalls((a + b)[i])
    ensures CallsAnswered(a + b, i)
  {
    hide BlockAfter;
    BlockAfterConcat(a, b, i);
    assert if i < |a| then CallsAnswered(a, i) else CallsAnswered(b, i - |a|);
  }

  lemma AnswererInConcat(a: seq<Message>, b: seq<Message>, j: nat)
    requires Detached(b) && WellFormed(a) && WellFormed(b) && j < |a| + |b| && (a + b)[j].Tool?
    ensures exists i :: AnswersAt(a + b, i, j)
  {
    hide WellFormed, AnswersAt;
    if j < |a| {
      var i := Answerer(a, j);
      AnswersAtConcat(a, b, i, j);
    } else {
      var i := Answerer(b, j - |a|);
      AnswersAtConcat(a, b, i + |a|, j);
    }
  }

  lemma WellFormedConcat(a: seq<Message>, b: seq<Message>)
    requires Detached(b) && WellFormed(a) && WellFormed(b)
    ensures WellFormed(a + b)
  {
    var ms := a + b;
    forall i | 0 <= i < |ms| && HasCalls(ms[i])
      ensures CallsAnswered(ms, i)
    {
      AnsweredInConcat(a, b, i);
    }
    forall j | 0 <= j < |ms| && ms[j].Tool?
      ensures exists i :: AnswersAt(ms, i, j)
    {
      AnswererInConcat(a, b, j);
    }
  }

  lemma BlockAfterHead(m: Message, block: seq<Message>)
    requires forall t :: t in block ==> t.Tool?
    ensures BlockAfter([m] + block, 0) == block
  {
    assert ([m] + block)[1..] == block && block + [] == block;
    ToolRunOfBlock(block, []);
  }

  /** One assistant message with calls and the tool messages after it. */
  lemma WellFormedBlock(m: Message, block: seq<Message>)
    requires HasCalls(m) && Answered(block, CallIds(m)) == CallIds(m)
    requires forall t :: t in block ==> Answers(t, CallIds(m))
    ensures WellFormed([m] + block)
  {
    var ms := [m] + block;
    BlockAfterHead(m, block);
    forall j | 0 <= j < |ms| && ms[j].Tool?
      ensures AnswersAt(ms, 0, j)
    {
      assert ms[j] in block;
    }
  }

  lemma BlockOfWellFormed(m: Message, block: seq<Message>)
    requires HasCalls(m) && (forall t :: t in block ==> t.Tool?) && WellFormed([m] + block)
    ensures Answered(block, CallIds(m)) == CallIds(m)
    ensures forall t :: t in block ==> Answers(t, CallIds(m))
  {
    var ms := [m] + block;
    BlockAfterHead(m, block);
    assert CallsAnswered(ms, 0);
    assert forall k :: 1 <= k < |ms| ==> ms[k] in block;
    forall j | 0 <= j < |block|
      ensures Answers(block[j], CallIds(m))
    {
      assert ms[j + 1] == block[j];
      var i: nat :| AnswersAt(ms, i, j + 1);
    }
  }

  /** A message that neither calls nor answers. */
  lemma WellFormedAlone(m: Message)
    requires !m.Tool? && !HasCalls(m)
    ensures WellFormed([m])
  {
  }

  // ----- the laws of the sanitiser -----

  lemma StrictBlock(m: Message, block: seq<Message>, rest: seq<Message>)
    requires HasCalls(m) && (forall t :: t in block ==> t.Tool?) && Detached(rest)
    ensures Strict([m] + block + rest) == Kept(m, block) + Strict(rest)
  {
    var ms := [m] + block + rest;
    assert ms[1..] == block + rest;
    ToolRunOfBlock(block, rest);
    assert ms[1..1 + |block|] == block && ms[1 + |block|..] == rest;
  }

  lemma StrictBlockConcat(m: Message, block: seq<Message>, rest: seq<Message>, b: seq<Message>)
    requires HasCalls(m) && (forall t :: t in block ==> t.Tool?) && Detached(rest) && Detached(b)
    requires Strict(rest + b) == Strict(rest) + Strict(b)
    ensures Strict([m] + block + (rest + b)) == Strict([m] + block + rest) + Strict(b)
  {
    hide Strict, Kept;
    StrictBlock(m, block, rest + b);
    StrictBlock(m, block, rest);
    assert Kept(m, block) + (Strict(rest) + Strict(b)) == Kept(m, block) + Strict(rest) + Strict(b);
  }

  lemma StrictAlone(m: Message, rest: seq<Message>)
    requires !HasCalls(m)
    ensures Strict([m] + rest) == (if m.Tool? then [] else [m]) + Strict(rest)
  {
    assert ([m] + rest)[1..] == rest;
  }

  /** An assistant message with calls, the tool messages right after it, and everything else. */
  lemma SplitBlock(ms: seq<Message>) returns (block: seq<Message>, rest: seq<Message>)
    requires ms != [] && HasCalls(ms[0])
    ensures ms == [ms[0]] + block + rest && Detached(rest)
    ensures forall t :: t in block ==> t.Tool?
  {
    var n := ToolRun(ms[1..]);
    block, rest := ms[1..1 + n], ms[1 + n..];
    assert forall i :: 0 <= i < n ==> block[i] == ms[1..][i];
    assert rest != [] ==> rest[0] == ms[1..][n];
  }

  lemma ConcatAssoc<T>(x: seq<T>, y: seq<T>, z: seq<T>)
    ensures (x + y) + z == x + (y + z)
  {
  }

  lemma StrictOfNothing()
    ensures Strict([]) == []
  {
  }

  /** The sanitiser works on the parts of a history separately. */
  lemma {:induction false} StrictConcat(a: seq<Message>, b: seq<Message>)
    requires Detached(b)
    ensures Strict(a + b) == Strict(a) + Strict(b)
    decreases |a|
  {
    hide Strict;
    if a == [] {
      StrictOfNothing();
      assert a + b == b;
    } else if HasCalls(a[0]) {
      var block, rest := SplitBlock(a);
      StrictConcat(rest, b);
      ConcatAssoc([a[0]] + block, rest, b);
      StrictBlockConcat(a[0], block, rest, b);
    } else {
      assert a == [a[0]] + a[1..];
      ConcatAssoc([a[0]], a[1..], b);
      StrictAlone(a[0], a[1..]);
      StrictAlone(a[0], a[1..] + b);
      StrictConcat(a[1..], b);
    }
  }

  lemma {:induction false} AnsweringMembers(block: seq<Message>, needed: set<Option<string>>, m: Message)
    ensures m in Answering(block, needed) <==> m in block && Answers(m, needed)
  {
    if block != [] {
      assert block == block[..|block| - 1] + [block[|block| - 1]];
      AnsweringMembers(block[..|block| - 1], needed, m);
    }
  }

  lemma AnsweringIsComplete(block: seq<Message>, needed: set<Option<string>>)
    ensures Answered(Answering(block, needed), needed) == Answered(block, needed)
    ensures forall m :: m in Answering(block, needed) ==> Answers(m, needed)
  {
    hide Answering;
    forall m
      ensures m in Answering(block, needed) <==> m in block && Answers(m, needed)
    {
      AnsweringMembers(block, needed, m);
    }
  }

  lemma {:induction false} AnsweringAll(block: seq<Message>, needed: set<Option<string>>)
    requires forall m :: m in block ==> Answers(m, needed)
    ensures Answering(block, needed) == block
  {
    if block != [] {
      var front, last := block[..|block| - 1], block[|block| - 1];
      assert block == front + [last];
      AnsweringAll(front, needed);
      assert last in block;
    }
  }

  lemma {:induction false} StrictStartsDetached(ms: seq<Message>)
    ensures Detached(Strict(ms))
    decreases |ms|
  {
    if ms != [] {
      if ms[0].Tool? {
        StrictStartsDetached(ms[1..]);
      } else if HasCalls(ms[0]) {
        StrictStartsDetached(ms[1 + ToolRun(ms[1..])..]);
      }
    }
  }

  lemma NothingIsWellFormed()
    ensures WellFormed([])
  {
  }

  lemma KeptIsWellFormed(m: Message, block: seq<Message>)
    requires HasCalls(m)
    ensures WellFormed(Kept(m, block))
  {
    if Answered(block, CallIds(m)) == CallIds(m) {
      AnsweringIsComplete(block, CallIds(m));
      WellFormedBlock(m, Answering(block, CallIds(m)));
    } else if m.content != "" {
      WellFormedAlone(Ai(m.content, []));
    }
  }

  /** The output is always well formed. */
  lemma {:induction false} StrictIsWellFormed(ms: seq<Message>)
    ensures WellFormed(Strict(ms))
    decreases |ms|
  {
    hide Strict, WellFormed, Kept;
    StrictOfNothing();
    NothingIsWellFormed();
    if ms != [] {
      if HasCalls(ms[0]) {
        var block, rest := SplitBlock(ms);
        StrictBlock(ms[0], block, rest);
        KeptIsWellFormed(ms[0], block);
        StrictIsWellFormed(rest);
        StrictStartsDetached(rest);
        WellFormedConcat(Kept(ms[0], block), Strict(rest));
      } else {
        assert ms == [ms[0]] + ms[1..];
        StrictAlone(ms[0], ms[1..]);
        StrictIsWellFormed(ms[1..]);
        if !ms[0].Tool? {
          StrictStartsDetached(ms[1..]);
          WellFormedAlone(ms[0]);
          WellFormedConcat([ms[0]], Strict(ms[1..]));
        } else {
          assert [] + Strict(ms[1..]) == Strict(ms[1..]);
        }
      }
    }
  }

  /** A well-formed history is left as it is. */
  lemma {:induction false} StrictKeepsWellFormed(ms: seq<Message>)
    requires WellFormed(ms)
    ensures Strict(ms) == ms
    decreases |ms|
  {
    hide Strict, WellFormed;
    StrictOfNothing();
    if ms != [] {
      NoToolFirst(ms);
      if HasCalls(ms[0]) {
        var block, rest := SplitBlock(ms);
        WellFormedFront([ms[0]] + block, rest);
        WellFormedBack([ms[0]] + block, rest);
        BlockOfWellFormed(ms[0], block);
        AnsweringAll(block, CallIds(ms[0]));
        StrictBlock(ms[0], block, rest);
        StrictKeepsWellFormed(rest);
      } else {
        assert ms == [ms[0]] + ms[1..];
        NoToolAfter(ms);
        WellFormedBack([ms[0]], ms[1..]);
        StrictAlone(ms[0], ms[1..]);
        StrictKeepsWellFormed(ms[1..]);
      }
    }
  }

  lemma NoToolFirst(ms: seq<Message>)
    requires WellFormed(ms)
    ensures Detached(ms)
  {
    assert forall i: nat :: ms != [] ==> !AnswersAt(ms, i, 0);
  }

  lemma NoToolAfter(ms: seq<Message>)
    requires WellFormed(ms) && ms != [] && !HasCalls(ms[0])
    ensures Detached(ms[1..])
  {
    assert forall i: nat :: |ms| >= 2 ==> !AnswersAt(ms, i, 1);
  }

  /** The sanitiser changes a history exactly when it is not well formed; and twice is as good as once. */
  lemma StrictFixpoints(ms: seq<Message>)
    ensures Strict(ms) == ms <==> WellFormed(ms)
    ensures Strict(Strict(ms)) == Strict(ms)
  {
    StrictIsWellFormed(ms);
    StrictKeepsWellFormed(Strict(ms));
    if WellFormed(ms) {
      StrictKeepsWellFormed(ms);
    }
  }

  // ----- the two passes over indices -----

  /** What the rebuilding pass emits for one message. */
  function Emit(m: Message, valid: bool, strip: bool): seq<Message> {
    if m.Tool? && !valid then [] else if strip && m.Ai? then Stripped(m) else [m]
  }

  function Rebuilt(ms: seq<Message>, valid: set<nat>, strip: set<nat>, n: nat): seq<Message>
    requires n <= |ms|
  {
    if n == 0 then [] else Rebuilt(ms, valid, strip, n - 1) + Emit(ms[n - 1], n - 1 in valid, n - 1 in strip)
  }

  lemma {:induction false} RebuiltPrefix(ms: seq<Message>, valid: set<nat>, strip: set<nat>, valid': set<nat>,
                                         strip': set<nat>, n: nat)
    requires n <= |ms|
    requires forall k :: 0 <= k < n ==> (k in valid <==> k in valid') && (k in strip <==> k in strip')
    ensures Rebuilt(ms, valid, strip, n) == Rebuilt(ms, valid', strip', n)
  {
    if n > 0 {
      RebuiltPrefix(ms, valid, strip, valid', strip', n - 1);
    }
  }

  /** The tool messages of a block whose answering members are marked valid. */
  lemma {:induction false} RebuiltBlock(ms: seq<Message>, valid: set<nat>, strip: set<nat>, lo: nat, hi: nat,
                                        needed: set<Option<string>>)
    requires lo <= hi <= |ms|
    requires forall k :: lo <= k < hi ==> ms[k].Tool? && k !in strip && (k in valid <==> Answers(ms[k], needed))
    ensures Rebuilt(ms, valid, strip, hi) == Rebuilt(ms, valid, strip, lo) + Answering(ms[lo..hi], needed)
    decreases hi
  {
    hide Answering;
    if lo < hi {
      RebuiltBlock(ms, valid, strip, lo, hi - 1, needed);
      AnsweringOneMore(ms[lo..hi - 1], ms[hi - 1], needed);
      assert ms[lo..hi - 1] + [ms[hi - 1]] == ms[lo..hi];
      ConcatAssoc(Rebuilt(ms, valid, strip, lo), Answering(ms[lo..hi - 1], needed),
                  Emit(ms[hi - 1], hi - 1 in valid, hi - 1 in strip));
    } else {
      AnsweringNothing(needed);
      assert ms[lo..hi] == [];
    }
  }

  lemma AnsweringNothing(needed: set<Option<string>>)
    ensures Answering([], needed) == []
  {
  }

  lemma AnsweringOneMore(block: seq<Message>, m: Message, needed: set<Option<string>>)
    ensures Answering(block + [m], needed) == Answering(block, needed) + if Answers(m, needed) then [m] else []
  {
    assert (block + [m])[..|block|] == block;
  }

  lemma {:induction false} RebuiltNothing(ms: seq<Message>, valid: set<nat>, strip: set<nat>, lo: nat, hi: nat)
    requires lo <= hi <= |ms|
    requires forall k :: lo <= k < hi ==> ms[k].Tool? && k !in valid
    ensures Rebuilt(ms, valid, strip, hi) == Rebuilt(ms, valid, strip, lo)
    decreases hi
  {
    if lo < hi {
      RebuiltNothing(ms, valid, strip, lo, hi - 1);
    }
  }

  /** Scan the tool messages after the assistant message at `i`: where they end, which ids they answer, and where. */
  method ScanBlock(ms: seq<Message>, i: nat) returns (j: nat, found: set<Option<string>>, answers: set<nat>)
    requires i < |ms| && HasCalls(ms[i])
    ensures i < j <= |ms|
    ensures forall k :: i < k < j ==> ms[k].Tool?
    ensures j < |ms| ==> !ms[j].Tool?
    ensures found == Answered(ms[i + 1..j], CallIds(ms[i]))
    ensures answers == set k | i < k < j && Answers(ms[k], CallIds(ms[i]))
  {
    var needed := CallIds(ms[i]);
    found, answers, j := {}, {}, i + 1;
    while j < |ms| && ms[j].Tool?
      invariant i < j <= |ms|
      invariant forall k :: i < k < j ==> ms[k].Tool?
      invariant found == Answered(ms[i + 1..j], needed)
      invariant answers == set k | i < k < j && Answers(ms[k], needed)
    {
      assert ms[i + 1..j + 1] == ms[i + 1..j] + [ms[j]];
      if Answers(ms[j], needed) {
        found := found + {Some(ms[j].callId)};
        answers := answers + {j};
      }
      j := j + 1;
    }
  }

  ghost predicate Marked(ms: seq<Message>, i: nat, valid: set<nat>, strip: set<nat>) {
    && i <= |ms|
    && (forall k :: k in valid || k in strip ==> k < i)
    && (forall k :: k in strip ==> ms[k].Ai?)
    && Rebuilt(ms, valid, strip, i) + Strict(ms[i..]) == Strict(ms)
  }

  lemma RebuiltKept(ms: seq<Message>, i: nat, j: nat, valid: set<nat>, strip: set<nat>, block: seq<Message>)
    requires i < j <= |ms| && HasCalls(ms[i]) && block == ms[i + 1..j]
    requires forall k :: i < k < j ==> ms[k].Tool? && k !in strip
    requires if Answered(block, CallIds(ms[i])) == CallIds(ms[i])
             then i !in strip && forall k :: i < k < j ==> (k in valid <==> Answers(ms[k], CallIds(ms[i])))
             else i in strip && forall k :: i < k < j ==> k !in valid
    ensures Rebuilt(ms, valid, strip, j) == Rebuilt(ms, valid, strip, i) + Kept(ms[i], block)
  {
    if Answered(block, CallIds(ms[i])) == CallIds(ms[i]) {
      RebuiltBlock(ms, valid, strip, i + 1, j, CallIds(ms[i]));
      ConcatAssoc(Rebuilt(ms, valid, strip, i), [ms[i]], Answering(block, CallIds(ms[i])));
    } else {
      RebuiltNothing(ms, valid, strip, i + 1, j);
    }
  }

  /** Marking one block moves the boundary of what has been decided past it. */
  lemma MarkedBlock(ms: seq<Message>, i: nat, j: nat, valid: set<nat>, strip: set<nat>, valid': set<nat>,
                    strip': set<nat>, block: seq<Message>)
    requires Marked(ms, i, valid, strip) && i < j <= |ms| && HasCalls(ms[i]) && block == ms[i + 1..j]
    requires (forall k :: i < k < j ==> ms[k].Tool?) && (j < |ms| ==> !ms[j].Tool?)
    requires var answers := set k | i < k < j && Answers(ms[k], CallIds(ms[i]));
             if Answered(block, CallIds(ms[i])) == CallIds(ms[i])
             then valid' == valid + answers && strip' == strip
             else valid' == valid && strip' == strip + {i}
    ensures Marked(ms, j, valid', strip')
  {
    hide Strict, Kept, Rebuilt;
    RebuiltPrefix(ms, valid, strip, valid', strip', i);
    RebuiltKept(ms, i, j, valid', strip', block);
    assert ms[i..] == [ms[i]] + block + ms[j..];
    StrictBlock(ms[i], block, ms[j..]);
    ConcatAssoc(Rebuilt(ms, valid, strip, i), Kept(ms[i], block), Strict(ms[j..]));
  }

  lemma MarkedAlone(ms: seq<Message>, i: nat, valid: set<nat>, strip: set<nat>)
    requires Marked(ms, i, valid, strip) && i < |ms| && !HasCalls(ms[i])
    ensures Marked(ms, i + 1, valid, strip)
  {
    assert ms[i..] == [ms[i]] + ms[i + 1..];
    StrictAlone(ms[i], ms[i + 1..]);
    ConcatAssoc(Rebuilt(ms, valid, strip, i), if ms[i].Tool? then [] else [ms[i]], Strict(ms[i + 1..]));
  }

  method SanitizeStrict(ms: seq<Message>) returns (r: seq<Message>)
    ensures r == Strict(ms)
  {
    var valid: set<nat>, strip: set<nat> := {}, {};
    var i := 0;
    while i < |ms|
      invariant Marked(ms, i, valid, strip)
    {
      if HasCalls(ms[i]) {
        var j, found, answers := ScanBlock(ms, i);
        ghost var valid0, strip0 := valid, strip;
        if found == CallIds(ms[i]) {
          valid := valid + answers;
        } else {
          strip := strip + {i};
        }
        MarkedBlock(ms, i, j, valid0, strip0, valid, strip, ms[i + 1..j]);
        i := j;
      } else {
        MarkedAlone(ms, i, valid, strip);
        i := i + 1;
      }
    }
    r := [];
    for n := 0 to |ms|
      invariant r == Rebuilt(ms, valid, strip, n)
    {
      if ms[n].Tool? && n !in valid {
        continue;
      }
      if n in strip {
        r := r + Stripped(ms[n]);
        continue;
      }
      r := r + [ms[n]];
    }
    assert ms[|ms|..] == [] && r + [] == r;
  }
}
