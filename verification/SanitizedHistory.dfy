/** What the two sanitisers keep of a history: everything that was said, and exactly which calls and answers. */
module SanitizedHistory {
  import opened Outcomes
  import opened Messages
  import opened StrictSanitizer
  import opened LooseSanitizer

  // ----- reading a history message by message -----

  /** What `f` reads off a history, in order. */
  function Read<T>(f: Message -> seq<T>, ms: seq<Message>): seq<T> {
    if ms == [] then [] else Read(f, ms[..|ms| - 1]) + f(ms[|ms| - 1])
  }

  /** `f` reads no tool messages and no calls, and nothing from an assistant message without text. */
  ghost predicate ReadsTexts<T(!new)>(f: Message -> seq<T>) {
    && (forall content, id :: f(Tool(content, id)) == [])
    && (forall content, calls :: f(Ai(content, calls)) == f(Ai(content, [])))
    && f(Ai("", [])) == []
  }

  datatype Speaker = SystemSpeaks | UserSpeaks | AssistantSpeaks

  datatype Said = Said(speaker: Speaker, text: string)

  /** What a message says: nothing when it has no text, or is a tool's. */
  function TextOf(m: Message): seq<Said> {
    if m.content == "" then [] else
      match m
      case System(text) => [Said(SystemSpeaks, text)]
      case Human(text) => [Said(UserSpeaks, text)]
      case Ai(text, _) => [Said(AssistantSpeaks, text)]
      case Tool(_, _) => []
  }

  function BystanderOf(m: Message): seq<Message> {
    if m.System? || m.Human? then [m] else []
  }

  /** Messages that call or answer. */
  function PairOf(m: Message): seq<Message> {
    if m.Tool? || HasCalls(m) then [m] else []
  }

  lemma ReadOne<T>(f: Message -> seq<T>, m: Message)
    ensures Read(f, [m]) == f(m) && Read(f, []) == []
  {
    assert [m][..0] == [] && Read(f, []) == [];
  }

  lemma {:induction false} ReadConcat<T>(f: Message -> seq<T>, a: seq<Message>, b: seq<Message>)
    ensures Read(f, a + b) == Read(f, a) + Read(f, b)
    decreases |b|
  {
    if b == [] {
      assert a + b == a;
    } else {
      var front, last := b[..|b| - 1], b[|b| - 1];
      ReadConcat(f, a, front);
      assert (a + b)[..|a + b| - 1] == a + front;
    }
  }

  lemma {:induction false} ReadNothing<T>(f: Message -> seq<T>, ms: seq<Message>)
    requires forall m :: m in ms ==> f(m) == []
    ensures Read(f, ms) == []
  {
    if ms != [] {
      ReadNothing(f, ms[..|ms| - 1]);
      assert ms[|ms| - 1] in ms;
    }
  }

  // ----- the strict sanitiser keeps what is said -----

  lemma KeptReads<T(!new)>(f: Message -> seq<T>, m: Message, block: seq<Message>)
    requires ReadsTexts(f) && HasCalls(m)
    ensures Read(f, Kept(m, block)) == f(m)
  {
    ReadOne(f, m);
    ReadOne(f, Ai(m.content, []));
    if Answered(block, CallIds(m)) == CallIds(m) {
      AnsweringIsComplete(block, CallIds(m));
      ReadNothing(f, Answering(block, CallIds(m)));
      ReadConcat(f, [m], Answering(block, CallIds(m)));
    } else {
      assert f(Ai(m.content, m.calls)) == f(Ai(m.content, []));
    }
  }

  /** Whatever is read off a history without looking at tool messages and calls is the same after sanitising. */
  lemma {:induction false} StrictReads<T(!new)>(f: Message -> seq<T>, ms: seq<Message>)
    requires ReadsTexts(f)
    ensures Read(f, Strict(ms)) == Read(f, ms)
    decreases |ms|
  {
    hide Strict, Kept, ReadsTexts;
    if ms == [] {
      StrictOfNothing();
    } else if HasCalls(ms[0]) {
      var block, rest := SplitBlock(ms);
      StrictBlock(ms[0], block, rest);
      KeptReads(f, ms[0], block);
      StrictReads(f, rest);
      ReadConcat(f, Kept(ms[0], block), Strict(rest));
      ReadConcat(f, [ms[0]] + block, rest);
      ReadConcat(f, [ms[0]], block);
      ReadOne(f, ms[0]);
      ToolsReadNothing(f, block);
    } else {
      assert ms == [ms[0]] + ms[1..];
      StrictAlone(ms[0], ms[1..]);
      StrictReads(f, ms[1..]);
      ReadConcat(f, [ms[0]], ms[1..]);
      ReadOne(f, ms[0]);
      if ms[0].Tool? {
        ToolsReadNothing(f, [ms[0]]);
        assert [] + Strict(ms[1..]) == Strict(ms[1..]);
      } else {
        ReadConcat(f, [ms[0]], Strict(ms[1..]));
      }
    }
  }

  lemma ToolsReadNothing<T(!new)>(f: Message -> seq<T>, block: seq<Message>)
    requires ReadsTexts(f) && forall m :: m in block ==> m.Tool?
    ensures Read(f, block) == []
  {
    forall m | m in block
      ensures f(m) == []
    {
      assert m == Tool(m.content, m.callId);
    }
    ReadNothing(f, block);
  }

  lemma TextsAreTexts()
    ensures ReadsTexts(TextOf) && ReadsTexts(BystanderOf)
  {
  }

  /** Every text of the system, the user and the assistant survives, in order, also where calls are taken away. */
  lemma StrictKeepsTexts(ms: seq<Message>)
    ensures Read(TextOf, Strict(ms)) == Read(TextOf, ms)
  {
    TextsAreTexts();
    StrictReads(TextOf, ms);
  }

  /** System and user messages survive, in order. */
  lemma StrictKeepsBystanders(ms: seq<Message>)
    ensures Read(BystanderOf, Strict(ms)) == Read(BystanderOf, ms)
  {
    TextsAreTexts();
    StrictReads(BystanderOf, ms);
  }

  // ----- which calls and answers the strict sanitiser keeps -----

  /** A message with calls survives when all of them are answered right after it; a tool message when it answers such a
      message, with nothing but tool messages in between. */
  ghost predicate Survives(ms: seq<Message>, j: nat)
    requires j < |ms|
  {
    if ms[j].Tool? then exists i: nat :: AnswersAt(ms, i, j) && CallsAnswered(ms, i)
    else HasCalls(ms[j]) && CallsAnswered(ms, j)
  }

  /** The survivors among the first n messages, in order. */
  ghost function Survivors(ms: seq<Message>, n: nat): seq<Message>
    requires n <= |ms|
  {
    if n == 0 then [] else Survivors(ms, n - 1) + if Survives(ms, n - 1) then [ms[n - 1]] else []
  }

  lemma Survivor(ms: seq<Message>, j: nat) returns (i: nat)
    requires j < |ms| && ms[j].Tool? && Survives(ms, j)
    ensures AnswersAt(ms, i, j) && CallsAnswered(ms, i)
  {
    i :| AnswersAt(ms, i, j) && CallsAnswered(ms, i);
  }

  lemma SurvivesBy(ms: seq<Message>, i: nat, j: nat)
    requires j < |ms| && ms[j].Tool? && AnswersAt(ms, i, j) && CallsAnswered(ms, i)
    ensures Survives(ms, j)
  {
  }

  lemma CallsAnsweredConcat(a: seq<Message>, b: seq<Message>, i: nat)
    requires Detached(b) && i < |a| + |b| && (a + b)[i].Ai?
    ensures CallsAnswered(a + b, i) <==> if i < |a| then CallsAnswered(a, i) else CallsAnswered(b, i - |a|)
  {
    hide BlockAfter;
    BlockAfterConcat(a, b, i);
  }

  lemma SurvivesConcat(a: seq<Message>, b: seq<Message>, j: nat)
    requires Detached(b) && j < |a| + |b|
    ensures Survives(a + b, j) <==> if j < |a| then Survives(a, j) else Survives(b, j - |a|)
  {
    hide CallsAnswered, AnswersAt;
    if !(a + b)[j].Tool? {
      if HasCalls((a + b)[j]) {
        CallsAnsweredConcat(a, b, j);
      }
    } else {
      hide Survives;
      if Survives(a + b, j) {
        SurvivorParts(a, b, j);
      } else if j < |a| && Survives(a, j) {
        SurvivorInFront(a, b, j);
      } else if j >= |a| && Survives(b, j - |a|) {
        SurvivorBehind(a, b, j - |a|);
      }
    }
  }

  lemma SurvivorInFront(a: seq<Message>, b: seq<Message>, j: nat)
    requires Detached(b) && j < |a| && a[j].Tool? && Survives(a, j)
    ensures Survives(a + b, j)
  {
    hide CallsAnswered, AnswersAt;
    var i := Survivor(a, j);
    Answerers(a, i, j);
    assert (a + b)[j] == a[j] && (a + b)[i] == a[i];
    AnswersAtConcat(a, b, i, j);
    CallsAnsweredConcat(a, b, i);
    SurvivesBy(a + b, i, j);
  }

  lemma SurvivorBehind(a: seq<Message>, b: seq<Message>, j: nat)
    requires Detached(b) && j < |b| && b[j].Tool? && Survives(b, j)
    ensures Survives(a + b, |a| + j)
  {
    hide CallsAnswered, AnswersAt;
    var i := Survivor(b, j);
    Answerers(b, i, j);
    assert (a + b)[|a| + j] == b[j] && (a + b)[|a| + i] == b[i];
    AnswersAtConcat(a, b, |a| + i, |a| + j);
    CallsAnsweredConcat(a, b, |a| + i);
    SurvivesBy(a + b, |a| + i, |a| + j);
  }

  lemma Answerers(ms: seq<Message>, i: nat, j: nat)
    requires j < |ms| && AnswersAt(ms, i, j)
    ensures i < j && HasCalls(ms[i])
  {
  }

  lemma SurvivorParts(a: seq<Message>, b: seq<Message>, j: nat)
    requires Detached(b) && j < |a| + |b| && (a + b)[j].Tool? && Survives(a + b, j)
    ensures if j < |a| then Survives(a, j) else Survives(b, j - |a|)
  {
    hide CallsAnswered, AnswersAt;
    var i := Survivor(a + b, j);
    Answerers(a + b, i, j);
    AnswersAtConcat(a, b, i, j);
    CallsAnsweredConcat(a, b, i);
    if j < |a| {
      SurvivesBy(a, i, j);
    } else {
      SurvivesBy(b, i - |a|, j - |a|);
    }
  }

  lemma {:induction false} SurvivorsConcat(a: seq<Message>, b: seq<Message>, n: nat)
    requires Detached(b) && n <= |a| + |b|
    ensures Survivors(a + b, n) == if n <= |a| then Survivors(a, n) else Survivors(a, |a|) + Survivors(b, n - |a|)
    decreases n
  {
    hide Survives;
    if n > 0 {
      SurvivorsConcat(a, b, n - 1);
      SurvivesConcat(a, b, n - 1);
    }
  }

  /** A message without calls has no part in what survives behind it. */
  lemma SurvivesBehindOne(m: Message, rest: seq<Message>, j: nat)
    requires !HasCalls(m) && j < |rest|
    ensures Survives([m] + rest, j + 1) <==> Survives(rest, j)
  {
    hide CallsAnswered, AnswersAt;
    var ms := [m] + rest;
    if !ms[j + 1].Tool? {
      if HasCalls(rest[j]) {
        AnsweredBehindOne(m, rest, j);
      }
    } else {
      if Survives(rest, j) {
        SurvivorBehindOne(m, rest, j);
      }
      if Survives(ms, j + 1) {
        SurvivorWithoutFirst(m, rest, j);
      }
    }
  }

  lemma SurvivorBehindOne(m: Message, rest: seq<Message>, j: nat)
    requires j < |rest| && rest[j].Tool? && Survives(rest, j)
    ensures Survives([m] + rest, j + 1)
  {
    hide CallsAnswered, AnswersAt;
    var i := Survivor(rest, j);
    Answerers(rest, i, j);
    AnswersBehindOne(m, rest, i, j);
    AnsweredBehindOne(m, rest, i);
    SurvivesBy([m] + rest, i + 1, j + 1);
  }

  lemma SurvivorWithoutFirst(m: Message, rest: seq<Message>, j: nat)
    requires !HasCalls(m) && j < |rest| && rest[j].Tool? && Survives([m] + rest, j + 1)
    ensures Survives(rest, j)
  {
    hide CallsAnswered, AnswersAt;
    var i := Survivor([m] + rest, j + 1);
    Answerers([m] + rest, i, j + 1);
    AnswersBehindOne(m, rest, i - 1, j);
    AnsweredBehindOne(m, rest, i - 1);
    SurvivesBy(rest, i - 1, j);
  }

  lemma AnsweredBehindOne(m: Message, rest: seq<Message>, i: nat)
    requires i < |rest| && rest[i].Ai?
    ensures CallsAnswered([m] + rest, i + 1) <==> CallsAnswered(rest, i)
  {
    hide Answered, ToolRun;
    var ms := [m] + rest;
    assert ms[i + 1] == rest[i] && ms[i + 2..] == rest[i + 1..];
    var n := ToolRun(rest[i + 1..]);
    assert ms[i + 2..i + 2 + n] == rest[i + 1..i + 1 + n];
  }

  lemma AnswersBehindOne(m: Message, rest: seq<Message>, i: nat, j: nat)
    requires j < |rest|
    ensures AnswersAt([m] + rest, i + 1, j + 1) <==> AnswersAt(rest, i, j)
  {
    var ms := [m] + rest;
    if i < j {
      assert forall k :: i <= k <= j ==> ms[k + 1] == rest[k];
      assert forall k :: i + 1 <= k <= j + 1 ==> ms[k] == rest[k - 1];
    }
  }

  lemma NothingSurvivesFirst(m: Message, rest: seq<Message>)
    requires !HasCalls(m)
    ensures !Survives([m] + rest, 0)
  {
  }

  lemma {:induction false} SurvivorsBehindOne(m: Message, rest: seq<Message>, n: nat)
    requires !HasCalls(m) && n <= |rest|
    ensures Survivors([m] + rest, n + 1) == Survivors(rest, n)
    decreases n
  {
    hide Survives;
    if n == 0 {
      NothingSurvivesFirst(m, rest);
      assert Survivors([m] + rest, 0) == [];
    } else {
      SurvivorsBehindOne(m, rest, n - 1);
      SurvivesBehindOne(m, rest, n - 1);
    }
  }

  /** Of one message with calls and its block, all or nothing survives. */
  lemma SurvivesInBlock(m: Message, block: seq<Message>, j: nat)
    requires HasCalls(m) && (forall t :: t in block ==> t.Tool?) && j <= |block|
    ensures Survives([m] + block, j) <==>
              Answered(block, CallIds(m)) == CallIds(m) && (j > 0 ==> Answers(block[j - 1], CallIds(m)))
  {
    hide BlockAfter, Answered;
    var ms := [m] + block;
    BlockAfterHead(m, block);
    assert forall k :: 0 < k < |ms| ==> ms[k] == block[k - 1] && ms[k] in block;
    assert CallsAnswered(ms, 0) <==> Answered(block, CallIds(m)) == CallIds(m);
    if j > 0 {
      assert AnswersAt(ms, 0, j) <==> Answers(block[j - 1], CallIds(m));
      if Survives(ms, j) {
        var i := Survivor(ms, j);
        assert i == 0;
      }
      if AnswersAt(ms, 0, j) && CallsAnswered(ms, 0) {
        SurvivesBy(ms, 0, j);
      }
    }
  }

  lemma {:induction false} SurvivorsInBlock(m: Message, block: seq<Message>, n: nat)
    requires HasCalls(m) && (forall t :: t in block ==> t.Tool?) && n <= |block|
    ensures Survivors([m] + block, n + 1)
            == if Answered(block, CallIds(m)) == CallIds(m) then [m] + Answering(block[..n], CallIds(m)) else []
    decreases n
  {
    hide Survives, Answered, Answers, Answering;
    SurvivesInBlock(m, block, n);
    if n == 0 {
      AnsweringNothing(CallIds(m));
      assert Survivors([m] + block, 0) == [];
    } else {
      SurvivorsInBlock(m, block, n - 1);
      assert block[..n] == block[..n - 1] + [block[n - 1]];
      AnsweringOneMore(block[..n - 1], block[n - 1], CallIds(m));
    }
  }

  lemma {:induction false} ReadAll(ms: seq<Message>)
    requires forall m :: m in ms ==> PairOf(m) == [m]
    ensures Read(PairOf, ms) == ms
  {
    hide PairOf;
    if ms != [] {
      var front, last := ms[..|ms| - 1], ms[|ms| - 1];
      assert ms == front + [last];
      assert last in ms && forall m :: m in front ==> m in ms;
      ReadAll(front);
    }
  }

  lemma KeptSurvives(m: Message, block: seq<Message>)
    requires HasCalls(m) && forall t :: t in block ==> t.Tool?
    ensures Read(PairOf, Kept(m, block)) == Survivors([m] + block, 1 + |block|)
  {
    hide Survivors, Read, Answering, Answered, Answers;
    SurvivorsInBlock(m, block, |block|);
    assert block[..|block|] == block;
    if Answered(block, CallIds(m)) == CallIds(m) {
      AnsweringArePairs(m, block);
    } else if m.content != "" {
      ReadOne(PairOf, Ai(m.content, []));
    } else {
      ReadOne(PairOf, m);
    }
  }

  lemma AnsweringArePairs(m: Message, block: seq<Message>)
    requires HasCalls(m)
    ensures Read(PairOf, [m] + Answering(block, CallIds(m))) == [m] + Answering(block, CallIds(m))
  {
    hide Read;
    AnsweringIsComplete(block, CallIds(m));
    ReadAll([m] + Answering(block, CallIds(m)));
  }

  /** Exactly the calls and answers that survive by position are left, in order. */
  lemma {:induction false} StrictKeepsPairs(ms: seq<Message>)
    ensures Read(PairOf, Strict(ms)) == Survivors(ms, |ms|)
    decreases |ms|
  {
    hide Strict, Kept, Survives, Survivors;
    if ms == [] {
      StrictOfNothing();
      NoSurvivors();
    } else if HasCalls(ms[0]) {
      var block, rest := SplitBlock(ms);
      StrictBlock(ms[0], block, rest);
      KeptSurvives(ms[0], block);
      StrictKeepsPairs(rest);
      ReadConcat(PairOf, Kept(ms[0], block), Strict(rest));
      SurvivorsConcat([ms[0]] + block, rest, |ms|);
      NoSurvivors();
      SurvivorsConcat([ms[0]] + block, rest, 1 + |block|);
    } else {
      assert ms == [ms[0]] + ms[1..];
      StrictAlone(ms[0], ms[1..]);
      StrictKeepsPairs(ms[1..]);
      SurvivorsBehindOne(ms[0], ms[1..], |ms| - 1);
      if ms[0].Tool? {
        assert [] + Strict(ms[1..]) == Strict(ms[1..]);
      } else {
        ReadConcat(PairOf, [ms[0]], Strict(ms[1..]));
        ReadOne(PairOf, ms[0]);
      }
    }
  }

  lemma NoSurvivors()
    ensures forall ms :: Survivors(ms, 0) == []
  {
  }

  // ----- the same of the loose sanitiser -----

  lemma {:induction false} StripReads<T(!new)>(f: Message -> seq<T>, ms: seq<Message>, ids: set<string>)
    requires ReadsTexts(f)
    ensures Read(f, StripUnanswered(ms, ids)) == Read(f, ms)
  {
    if ms != [] {
      var front, last := ms[..|ms| - 1], ms[|ms| - 1];
      StripReads(f, front, ids);
      StrippedReads(f, last, ids);
      ReadConcat(f, StripUnanswered(front, ids), if Unanswered(last, ids) then Stripped(last) else [last]);
    }
  }

  lemma StrippedReads<T(!new)>(f: Message -> seq<T>, m: Message, ids: set<string>)
    requires ReadsTexts(f)
    ensures Read(f, if Unanswered(m, ids) then Stripped(m) else [m]) == f(m)
  {
    ReadOne(f, m);
    if Unanswered(m, ids) {
      ReadOne(f, Ai(m.content, []));
      assert f(Ai(m.content, m.calls)) == f(Ai(m.content, []));
    }
  }

  lemma {:induction false} DropReads<T(!new)>(f: Message -> seq<T>, ms: seq<Message>, ids: set<Option<string>>)
    requires ReadsTexts(f)
    ensures Read(f, DropUncalled(ms, ids)) == Read(f, ms)
  {
    if ms != [] {
      var front, last := ms[..|ms| - 1], ms[|ms| - 1];
      DropReads(f, front, ids);
      if last.Tool? && Some(last.callId) !in ids {
        assert f(Tool(last.content, last.callId)) == [];
        assert DropUncalled(front, ids) + [] == DropUncalled(front, ids);
      } else {
        ReadConcat(f, DropUncalled(front, ids), [last]);
        ReadOne(f, last);
      }
    }
  }

  lemma LooseReads<T(!new)>(f: Message -> seq<T>, ms: seq<Message>)
    requires ReadsTexts(f)
    ensures Read(f, Loose(ms)) == Read(f, ms)
  {
    hide ReadsTexts;
    var answered := StripUnanswered(ms, ToolIds(ms));
    StripReads(f, ms, ToolIds(ms));
    DropReads(f, answered, CalledIds(answered));
  }

  lemma LooseKeepsTexts(ms: seq<Message>)
    ensures Read(TextOf, Loose(ms)) == Read(TextOf, ms)
  {
    TextsAreTexts();
    LooseReads(TextOf, ms);
  }

  /** Every call of the message has an answer somewhere. */
  ghost predicate AllAnswered(ms: seq<Message>, m: Message)
    requires m.Ai?
  {
    forall c :: c in m.calls ==> exists t :: t in ms && t.Tool? && c == Some(t.callId)
  }

  /** A message with calls is matched when all of them have answers; a tool message when such a message calls it. */
  ghost predicate Matched(ms: seq<Message>, m: Message) {
    if m.Tool? then exists o :: o in ms && o.Ai? && Some(m.callId) in o.calls && AllAnswered(ms, o)
    else HasCalls(m) && AllAnswered(ms, m)
  }

  /** The matched ones among the first n messages, in order. */
  ghost function MatchedOnes(ms: seq<Message>, n: nat): seq<Message>
    requires n <= |ms|
  {
    if n == 0 then [] else MatchedOnes(ms, n - 1) + if Matched(ms, ms[n - 1]) then [ms[n - 1]] else []
  }

  lemma AllAnsweredIs(ms: seq<Message>, m: Message)
    requires m.Ai?
    ensures AllAnswered(ms, m) <==> !Unanswered(m, ToolIds(ms))
  {
  }

  lemma MatchedIs(ms: seq<Message>, m: Message)
    ensures Matched(ms, m) <==>
              if m.Tool? then Some(m.callId) in CalledIds(StripUnanswered(ms, ToolIds(ms)))
              else HasCalls(m) && !Unanswered(m, ToolIds(ms))
  {
    hide StripUnanswered, AllAnswered;
    var ids := ToolIds(ms);
    StripPairs(ms, ids);
    if m.Ai? {
      AllAnsweredIs(ms, m);
    } else if m.Tool? {
      forall o | o in ms && o.Ai?
        ensures AllAnswered(ms, o) <==> !Unanswered(o, ids)
      {
        AllAnsweredIs(ms, o);
      }
      if Matched(ms, m) {
        var o :| o in ms && o.Ai? && Some(m.callId) in o.calls && AllAnswered(ms, o);
        assert HasCalls(o);
        CalledIn(StripUnanswered(ms, ids), o, Some(m.callId));
      }
      if Some(m.callId) in CalledIds(StripUnanswered(ms, ids)) {
        var o, c :| o in StripUnanswered(ms, ids) && o.Ai? && c in o.calls && c == Some(m.callId);
        assert HasCalls(o);
      }
    }
  }

  lemma {:induction false} DropConcat(a: seq<Message>, b: seq<Message>, ids: set<Option<string>>)
    requires |b| <= 1
    ensures DropUncalled(a + b, ids) == DropUncalled(a, ids) + DropUncalled(b, ids)
  {
    if b == [] {
      assert a + b == a && DropUncalled(a, ids) + [] == DropUncalled(a, ids);
    } else {
      assert b == [b[0]] && [] + [b[0]] == [b[0]];
      DropOneMore(a, b[0], ids);
      DropOneMore([], b[0], ids);
    }
  }

  /** What both passes leave of the pairs in one message. */
  lemma OneMatched(ms: seq<Message>, m: Message)
    ensures var ids := ToolIds(ms);
            var called := CalledIds(StripUnanswered(ms, ids));
            Read(PairOf, DropUncalled(if Unanswered(m, ids) then Stripped(m) else [m], called))
            == if Matched(ms, m) then [m] else []
  {
    var ids := ToolIds(ms);
    var called := CalledIds(StripUnanswered(ms, ids));
    MatchedIs(ms, m);
    assert Unanswered(m, ids) ==> m.Ai?;
    hide Matched, StripUnanswered, CalledIds, ToolIds, Unanswered, DropUncalled, Read;
    if Unanswered(m, ids) {
      StrippedLeavesNoPair(m, called);
    } else {
      LeftOfOne(m, called);
    }
  }

  lemma LeftOfOne(m: Message, called: set<Option<string>>)
    ensures Read(PairOf, DropUncalled([m], called)) == if m.Tool? && Some(m.callId) !in called then [] else PairOf(m)
  {
    assert [] + [m] == [m];
    DropOneMore([], m, called);
    ReadOne(PairOf, m);
  }

  lemma StrippedLeavesNoPair(m: Message, called: set<Option<string>>)
    requires m.Ai?
    ensures Read(PairOf, DropUncalled(Stripped(m), called)) == []
  {
    if m.content != "" {
      LeftOfOne(Ai(m.content, []), called);
    }
  }

  lemma LoosePairsOneMore(ms: seq<Message>, front: seq<Message>, m: Message)
    ensures var ids := ToolIds(ms);
            var called := CalledIds(StripUnanswered(ms, ids));
            Read(PairOf, DropUncalled(StripUnanswered(front + [m], ids), called))
            == Read(PairOf, DropUncalled(StripUnanswered(front, ids), called)) + if Matched(ms, m) then [m] else []
  {
    var ids := ToolIds(ms);
    var called := CalledIds(StripUnanswered(ms, ids));
    assert Unanswered(m, ids) ==> m.Ai?;
    hide *;
    var left := if Unanswered(m, ids) then Stripped(m) else [m];
    StripOneMore(front, m, ids);
    LeftIsShort(m, ids);
    DropConcat(StripUnanswered(front, ids), left, called);
    ReadConcat(PairOf, DropUncalled(StripUnanswered(front, ids), called), DropUncalled(left, called));
    OneMatched(ms, m);
  }

  lemma NothingLeft(ids: set<string>, called: set<Option<string>>)
    ensures Read(PairOf, DropUncalled(StripUnanswered([], ids), called)) == []
  {
  }

  lemma LeftIsShort(m: Message, ids: set<string>)
    ensures |if Unanswered(m, ids) then Stripped(m) else [m]| <= 1
  {
  }

  lemma {:induction false} LoosePairsUpTo(ms: seq<Message>, n: nat)
    requires n <= |ms|
    ensures var ids := ToolIds(ms);
            Read(PairOf, DropUncalled(StripUnanswered(ms[..n], ids), CalledIds(StripUnanswered(ms, ids))))
            == MatchedOnes(ms, n)
  {
    hide Matched, CalledIds, ToolIds, StripUnanswered, DropUncalled, Read;
    if n == 0 {
      NothingLeft(ToolIds(ms), CalledIds(StripUnanswered(ms, ToolIds(ms))));
    } else {
      LoosePairsUpTo(ms, n - 1);
      LoosePairsOneMore(ms, ms[..n - 1], ms[n - 1]);
      assert ms[..n] == ms[..n - 1] + [ms[n - 1]];
    }
  }

  /** Exactly the matched calls and answers are left, in order. */
  lemma LooseKeepsPairs(ms: seq<Message>)
    ensures Read(PairOf, Loose(ms)) == MatchedOnes(ms, |ms|)
  {
    LoosePairsUpTo(ms, |ms|);
    assert ms[..|ms|] == ms;
  }
}
