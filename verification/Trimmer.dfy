/** `trim_langchain_messages`: keep all system messages and the longest recent history that fits the budget. */
module Trimmer {
  import opened Outcomes
  import opened Messages
  import opened LooseSanitizer
  import StrictSanitizer

  // ----- token estimates -----

  predicate IsCjk(c: char) {
    0x4e00 <= c as int <= 0x9fff
  }

  function CjkCount(text: string): (n: nat)
    ensures n <= |text|
  {
    if text == "" then 0 else CjkCount(text[1..]) + if IsCjk(text[0]) then 1 else 0
  }

  /** Two tokens for three CJK characters, one for four others, rounded down, and one more. */
  function EstimateTokens(text: string): nat {
    if text == "" then 0
    else (8 * CjkCount(text) + 3 * (|text| - CjkCount(text))) / 12 + 1
  }

  lemma {:induction false} CjkConcat(a: string, b: string)
    ensures CjkCount(a + b) == CjkCount(a) + CjkCount(b)
  {
    if a == "" {
      assert a + b == b;
    } else {
      assert (a + b)[1..] == a[1..] + b;
      CjkConcat(a[1..], b);
    }
  }

  lemma {:induction false} CjkOfPure(text: string, cjk: bool)
    requires forall i :: 0 <= i < |text| ==> ('\U{4e00}' <= text[i] <= '\U{9fff}' <==> cjk)
    ensures CjkCount(text) == if cjk then |text| else 0
  {
    if text != "" {
      CjkOfPure(text[1..], cjk);
    }
  }

  /** A text of CJK characters alone costs two tokens for three of them, any other text without CJK characters one for
      four, each rounded down and one more; and every text lies between these. */
  lemma TokenWeights(text: string)
    requires text != ""
    ensures |text| / 4 + 1 <= EstimateTokens(text) <= 2 * |text| / 3 + 1
    ensures (forall i :: 0 <= i < |text| ==> '\U{4e00}' <= text[i] <= '\U{9fff}') ==>
              EstimateTokens(text) == 2 * |text| / 3 + 1
    ensures (forall i :: 0 <= i < |text| ==> !('\U{4e00}' <= text[i] <= '\U{9fff}')) ==>
              EstimateTokens(text) == |text| / 4 + 1
  {
    if forall i :: 0 <= i < |text| ==> '\U{4e00}' <= text[i] <= '\U{9fff}' {
      CjkOfPure(text, true);
    }
    if forall i :: 0 <= i < |text| ==> !('\U{4e00}' <= text[i] <= '\U{9fff}') {
      CjkOfPure(text, false);
    }
  }

  /** A longer text costs no less; and two texts in one cost no more than apart, and at most one token less. */
  lemma ConcatCost(a: string, b: string)
    ensures EstimateTokens(a) <= EstimateTokens(a + b) <= EstimateTokens(a) + EstimateTokens(b)
    ensures EstimateTokens(a) + EstimateTokens(b) <= EstimateTokens(a + b) + 1
  {
    CjkConcat(a, b);
    if a == "" {
      assert a + b == b;
    } else if b == "" {
      assert a + b == a;
    }
  }

  function Tokens(ms: seq<Message>): nat {
    if ms == [] then 0 else Tokens(ms[..|ms| - 1]) + EstimateTokens(ms[|ms| - 1].content)
  }

  lemma TokensOneMore(ms: seq<Message>, m: Message)
    ensures Tokens(ms + [m]) == Tokens(ms) + EstimateTokens(m.content)
  {
    assert (ms + [m])[..|ms|] == ms;
  }

  lemma {:induction false} TokensConcat(a: seq<Message>, b: seq<Message>)
    ensures Tokens(a + b) == Tokens(a) + Tokens(b)
  {
    if b == [] {
      assert a + b == a;
    } else {
      var front, last := b[..|b| - 1], b[|b| - 1];
      assert a + b == (a + front) + [last];
      TokensOneMore(a + front, last);
      TokensConcat(a, front);
    }
  }

  lemma {:induction false} StripTokens(ms: seq<Message>, ids: set<string>)
    ensures Tokens(StripUnanswered(ms, ids)) <= Tokens(ms)
  {
    if ms != [] {
      var front, last := ms[..|ms| - 1], ms[|ms| - 1];
      StripTokens(front, ids);
      TokensConcat(StripUnanswered(front, ids), if Unanswered(last, ids) then Stripped(last) else [last]);
      if Unanswered(last, ids) && last.content != "" {
        TokensOneMore([], Ai(last.content, []));
      } else if !Unanswered(last, ids) {
        TokensOneMore([], last);
      }
      assert Tokens([]) == 0;
    }
  }

  lemma {:induction false} DropTokens(ms: seq<Message>, ids: set<Option<string>>)
    ensures Tokens(DropUncalled(ms, ids)) <= Tokens(ms)
  {
    if ms != [] {
      var front, last := ms[..|ms| - 1], ms[|ms| - 1];
      DropTokens(front, ids);
      if last.Tool? && Some(last.callId) !in ids {
        assert DropUncalled(front, ids) + [] == DropUncalled(front, ids);
      } else {
        TokensOneMore(DropUncalled(front, ids), last);
      }
    }
  }

  /** Sanitising never makes a history longer in tokens. */
  lemma LooseTokens(ms: seq<Message>)
    ensures Tokens(Loose(ms)) <= Tokens(ms)
  {
    var answered := StripUnanswered(ms, ToolIds(ms));
    StripTokens(ms, ToolIds(ms));
    DropTokens(answered, CalledIds(answered));
  }

  // ----- trimming -----

  function Systems(ms: seq<Message>): seq<Message> {
    if ms == [] then []
    else Systems(ms[..|ms| - 1]) + if ms[|ms| - 1].System? then [ms[|ms| - 1]] else []
  }

  function Others(ms: seq<Message>): seq<Message> {
    if ms == [] then []
    else Others(ms[..|ms| - 1]) + if ms[|ms| - 1].System? then [] else [ms[|ms| - 1]]
  }

  /** How many messages from the end fit, when `used` tokens are already spent. */
  function FitCount(ms: seq<Message>, used: int, maxTokens: int): (n: nat)
    ensures n <= |ms|
  {
    if ms == [] then 0
    else
      var t := EstimateTokens(ms[|ms| - 1].content);
      if used + t > maxTokens then 0 else 1 + FitCount(ms[..|ms| - 1], used + t, maxTokens)
  }

  function LastMessages(ms: seq<Message>, n: nat): seq<Message>
    requires n <= |ms|
  {
    ms[|ms| - n..]
  }

  function Trim(ms: seq<Message>, maxTokens: int): seq<Message> {
    if Tokens(ms) <= maxTokens then Loose(ms)
    else
      var others, used := Others(ms), Tokens(Systems(ms));
      Loose(Systems(ms) + LastMessages(others, FitCount(others, used, maxTokens)))
  }

  lemma LastOneMore(ms: seq<Message>, n: nat)
    requires 0 < n <= |ms|
    ensures Tokens(LastMessages(ms, n)) == Tokens(LastMessages(ms[..|ms| - 1], n - 1))
            + EstimateTokens(ms[|ms| - 1].content)
  {
    assert LastMessages(ms, n) == LastMessages(ms[..|ms| - 1], n - 1) + [ms[|ms| - 1]];
    TokensOneMore(LastMessages(ms[..|ms| - 1], n - 1), ms[|ms| - 1]);
  }

  /** A suffix is kept exactly when it fits: the kept one is the longest that does. */
  lemma {:induction false} FitIsLongest(ms: seq<Message>, used: int, maxTokens: int, n: nat)
    requires 0 < n <= |ms|
    ensures n <= FitCount(ms, used, maxTokens) <==> used + Tokens(LastMessages(ms, n)) <= maxTokens
    decreases |ms|
  {
    var front, t := ms[..|ms| - 1], EstimateTokens(ms[|ms| - 1].content);
    LastOneMore(ms, n);
    if n > 1 {
      FitIsLongest(front, used + t, maxTokens, n - 1);
    } else {
      assert LastMessages(front, 0) == [];
    }
  }

  lemma {:induction false} OnlySystems(ms: seq<Message>)
    ensures forall m :: m in Systems(ms) ==> m.System?
    ensures forall m :: m in Others(ms) ==> !m.System?
  {
    if ms != [] {
      OnlySystems(ms[..|ms| - 1]);
    }
  }

  lemma {:induction false} SystemsOfConcat(a: seq<Message>, b: seq<Message>)
    ensures Systems(a + b) == Systems(a) + Systems(b)
  {
    if b == [] {
      assert a + b == a;
    } else {
      assert (a + b)[..|a + b| - 1] == a + b[..|b| - 1];
      SystemsOfConcat(a, b[..|b| - 1]);
    }
  }

  lemma {:induction false} SystemsAlone(ms: seq<Message>)
    requires forall m :: m in ms ==> m.System?
    ensures Systems(ms) == ms
  {
    if ms != [] {
      assert ms[|ms| - 1] in ms && ms == ms[..|ms| - 1] + [ms[|ms| - 1]];
      SystemsAlone(ms[..|ms| - 1]);
    }
  }

  lemma {:induction false} NoSystems(ms: seq<Message>)
    requires forall m :: m in ms ==> !m.System?
    ensures Systems(ms) == []
  {
    if ms != [] {
      assert ms[|ms| - 1] in ms;
      NoSystems(ms[..|ms| - 1]);
    }
  }

  lemma {:induction false} SystemsAreBystanders(ms: seq<Message>)
    ensures Systems(Bystanders(ms)) == Systems(ms)
  {
    if ms != [] {
      var front, last := ms[..|ms| - 1], ms[|ms| - 1];
      SystemsAreBystanders(front);
      SystemsOfConcat(Bystanders(front), if last.System? || last.Human? then [last] else []);
      if last.System? || last.Human? {
        assert [last][..0] == [];
        assert Systems([last]) == if last.System? then [last] else [];
      }
    }
  }

  /** Every system message survives, in order. */
  lemma TrimKeepsSystems(ms: seq<Message>, maxTokens: int)
    ensures Systems(Trim(ms, maxTokens)) == Systems(ms)
  {
    var input := if Tokens(ms) <= maxTokens then ms
                 else Systems(ms) + LastMessages(Others(ms), FitCount(Others(ms), Tokens(Systems(ms)), maxTokens));
    LooseKeepsBystanders(input);
    SystemsAreBystanders(input);
    SystemsAreBystanders(Loose(input));
    if Tokens(ms) > maxTokens {
      var kept := LastMessages(Others(ms), FitCount(Others(ms), Tokens(Systems(ms)), maxTokens));
      OnlySystems(ms);
      SystemsOfConcat(Systems(ms), kept);
      SystemsAlone(Systems(ms));
      NoSystems(kept);
    }
  }

  /** The result fits the budget, unless the system messages alone do not. */
  lemma TrimFits(ms: seq<Message>, maxTokens: int)
    ensures var limit := if Tokens(Systems(ms)) > maxTokens then Tokens(Systems(ms)) else maxTokens;
            Tokens(Trim(ms, maxTokens)) <= limit
  {
    if Tokens(ms) <= maxTokens {
      LooseTokens(ms);
    } else {
      var used, others := Tokens(Systems(ms)), Others(ms);
      var kept := LastMessages(others, FitCount(others, used, maxTokens));
      LooseTokens(Systems(ms) + kept);
      TokensConcat(Systems(ms), kept);
      if kept != [] {
        FitIsLongest(others, used, maxTokens, |kept|);
      }
    }
  }

  // ----- over budget: system messages, then the sanitised suffix -----

  lemma {:induction false} StripAfterSystems(sys: seq<Message>, ms: seq<Message>, ids: set<string>)
    requires forall m :: m in sys ==> m.System?
    ensures StripUnanswered(sys + ms, ids) == sys + StripUnanswered(ms, ids)
  {
    if ms == [] {
      assert sys + ms == sys;
      StripKeeps(sys, ids);
    } else {
      assert sys + ms == (sys + ms[..|ms| - 1]) + [ms[|ms| - 1]];
      StripOneMore(sys + ms[..|ms| - 1], ms[|ms| - 1], ids);
      StripAfterSystems(sys, ms[..|ms| - 1], ids);
    }
  }

  lemma {:induction false} DropAfterSystems(sys: seq<Message>, ms: seq<Message>, ids: set<Option<string>>)
    requires forall m :: m in sys ==> m.System?
    ensures DropUncalled(sys + ms, ids) == sys + DropUncalled(ms, ids)
  {
    if ms == [] {
      assert sys + ms == sys;
      DropKeeps(sys, ids);
    } else {
      assert sys + ms == (sys + ms[..|ms| - 1]) + [ms[|ms| - 1]];
      DropOneMore(sys + ms[..|ms| - 1], ms[|ms| - 1], ids);
      DropAfterSystems(sys, ms[..|ms| - 1], ids);
    }
  }

  lemma LooseAfterSystems(sys: seq<Message>, ms: seq<Message>)
    requires forall m :: m in sys ==> m.System?
    ensures Loose(sys + ms) == sys + Loose(ms)
  {
    assert ToolIds(sys + ms) == ToolIds(ms);
    var answered := StripUnanswered(ms, ToolIds(ms));
    StripAfterSystems(sys, ms, ToolIds(ms));
    assert CalledIds(sys + answered) == CalledIds(answered);
    DropAfterSystems(sys, answered, CalledIds(answered));
  }

  /** Over budget, the result is the system messages and the sanitised longest suffix of the rest that fits. */
  lemma TrimOverBudget(ms: seq<Message>, maxTokens: int) returns (n: nat)
    requires Tokens(ms) > maxTokens
    ensures n <= |Others(ms)|
    ensures Trim(ms, maxTokens) == Systems(ms) + Loose(LastMessages(Others(ms), n))
    ensures forall k :: 1 <= k <= |Others(ms)| ==>
              (k <= n <==> Tokens(Systems(ms)) + Tokens(LastMessages(Others(ms), k)) <= maxTokens)
  {
    var used, others := Tokens(Systems(ms)), Others(ms);
    n := FitCount(others, used, maxTokens);
    OnlySystems(ms);
    LooseAfterSystems(Systems(ms), LastMessages(others, n));
    forall k | 1 <= k <= |others|
      ensures k <= n <==> used + Tokens(LastMessages(others, k)) <= maxTokens
    {
      FitIsLongest(others, used, maxTokens, k);
    }
  }

  lemma {:induction false} SystemTokens(ms: seq<Message>)
    ensures Tokens(Systems(ms)) <= Tokens(ms)
  {
    if ms != [] {
      var front, last := ms[..|ms| - 1], ms[|ms| - 1];
      SystemTokens(front);
      if last.System? {
        TokensOneMore(Systems(front), last);
      } else {
        assert Systems(front) + [] == Systems(front);
      }
    }
  }

  lemma {:induction false} NoOthers(ms: seq<Message>)
    requires forall m :: m in ms ==> m.System?
    ensures Others(ms) == []
  {
    if ms != [] {
      assert ms[|ms| - 1] in ms;
      NoOthers(ms[..|ms| - 1]);
    }
  }

  /** When the system messages alone exceed the budget, they are all that is left. */
  lemma TrimToSystems(ms: seq<Message>, maxTokens: int)
    requires Tokens(Systems(ms)) > maxTokens
    ensures Trim(ms, maxTokens) == Systems(ms)
  {
    SystemTokens(ms);
    var n := TrimOverBudget(ms, maxTokens);
    assert LastMessages(Others(ms), 0) == [];
    assert Loose([]) == [];
  }

  /** Trimming twice with the same budget changes nothing more. */
  lemma TrimTwice(ms: seq<Message>, maxTokens: int)
    ensures Trim(Trim(ms, maxTokens), maxTokens) == Trim(ms, maxTokens)
  {
    if Tokens(Systems(ms)) > maxTokens {
      OnlySystems(ms);
      SystemsAlone(Systems(ms));
      TrimToSystems(ms, maxTokens);
      TrimToSystems(Systems(ms), maxTokens);
    } else {
      TrimFits(ms, maxTokens);
      LooseFixpoints(if Tokens(ms) <= maxTokens then ms
                     else Systems(ms) + LastMessages(Others(ms), FitCount(Others(ms), Tokens(Systems(ms)), maxTokens)));
    }
  }

  // ----- the two sanitisers -----

  /** What the strict sanitiser leaves is closed, so the loose one has nothing to do. */
  lemma LooseAfterStrict(ms: seq<Message>)
    ensures Loose(StrictSanitizer.Strict(ms)) == StrictSanitizer.Strict(ms)
  {
    hide StrictSanitizer.Strict;
    StrictSanitizer.StrictIsWellFormed(ms);
    WellFormedIsClosed(StrictSanitizer.Strict(ms));
    LooseFixpoints(StrictSanitizer.Strict(ms));
  }

  lemma WellFormedIsClosed(ms: seq<Message>)
    requires StrictSanitizer.WellFormed(ms)
    ensures Closed(ms)
  {
    hide StrictSanitizer.WellFormed, ToolIds, CalledIds, Unanswered;
    forall m | m in ms
      ensures !Unanswered(m, ToolIds(ms))
    {
      var i :| 0 <= i < |ms| && ms[i] == m;
      NoneUnanswered(ms, i);
    }
    forall t | t in ms && t.Tool?
      ensures Some(t.callId) in CalledIds(ms)
    {
      var j :| 0 <= j < |ms| && ms[j] == t;
      AnswerIsCalled(ms, j);
    }
  }

  lemma AnswerIsCalled(ms: seq<Message>, j: nat)
    requires StrictSanitizer.WellFormed(ms) && j < |ms| && ms[j].Tool?
    ensures Some(ms[j].callId) in CalledIds(ms)
  {
    hide StrictSanitizer.WellFormed;
    var i: nat := StrictSanitizer.Answerer(ms, j);
    CalledIn(ms, ms[i], Some(ms[j].callId));
  }

  lemma NoneUnanswered(ms: seq<Message>, i: nat)
    requires StrictSanitizer.WellFormed(ms) && i < |ms|
    ensures !Unanswered(ms[i], ToolIds(ms))
  {
    hide StrictSanitizer.WellFormed, ToolIds;
    if ms[i].Ai? {
      forall c | c in ms[i].calls
        ensures c.Some? && c.value in ToolIds(ms)
      {
        CallIsAnswered(ms, i, c);
      }
    }
  }

  lemma CallIsAnswered(ms: seq<Message>, i: nat, c: Option<string>)
    requires StrictSanitizer.WellFormed(ms) && i < |ms| && ms[i].Ai? && c in ms[i].calls
    ensures c.Some? && c.value in ToolIds(ms)
  {
    assert HasCalls(ms[i]) && StrictSanitizer.CallsAnswered(ms, i);
    hide StrictSanitizer.WellFormed;
    var block := StrictSanitizer.BlockAfter(ms, i);
    assert c in StrictSanitizer.Answered(block, CallIds(ms[i]));
    var t :| t in block && StrictSanitizer.Answers(t, CallIds(ms[i])) && Some(t.callId) == c;
    assert t in ms;
  }

  /** Closure is weaker: an answer that does not directly follow its call satisfies only the loose rule. */
  lemma ClosedIsNotEnough()
    ensures var ms := [Ai("", [Some("tc1")]), Ai("text", []), Tool("result", "tc1")];
            Closed(ms) && !StrictSanitizer.WellFormed(ms) && Loose(ms) == ms && StrictSanitizer.Strict(ms) != ms
  {
    var ms := [Ai("", [Some("tc1")]), Ai("text", []), Tool("result", "tc1")];
    assert ms[2] in ms && ms[2].callId in ToolIds(ms);
    assert ms[0] in ms && ms[0].calls[0] == Some("tc1");
    CalledIn(ms, ms[0], Some("tc1"));
    ClosedIsKept(ms);
    assert !StrictSanitizer.WellFormed(ms) by {
      assert forall i: nat :: !StrictSanitizer.AnswersAt(ms, i, 2) by {
        assert !ms[1].Tool? && !HasCalls(ms[1]);
      }
    }
    StrictSanitizer.StrictFixpoints(ms);
  }

  // ----- the loops -----

  method TrimMessages(ms: seq<Message>, maxTokens: int) returns (r: seq<Message>)
    ensures r == Trim(ms, maxTokens)
  {
    if ms == [] {
      return ms;
    }
    var total := SumTokens(ms);
    if total <= maxTokens {
      r := SanitizeLoose(ms);
      return;
    }
    var systems, others := Partition(ms);
    var used := SumTokens(systems);
    var kept := KeepRecent(others, used, maxTokens);
    r := SanitizeLoose(systems + kept);
  }

  method Partition(ms: seq<Message>) returns (systems: seq<Message>, others: seq<Message>)
    ensures systems == Systems(ms) && others == Others(ms)
  {
    systems, others := [], [];
    for i := 0 to |ms|
      invariant systems == Systems(ms[..i]) && others == Others(ms[..i])
    {
      assert ms[..i + 1][..i] == ms[..i];
      if ms[i].System? {
        systems := systems + [ms[i]];
      } else {
        others := others + [ms[i]];
      }
    }
    assert ms[..|ms|] == ms;
  }

  /** Walk back from the newest message until one does not fit. */
  method KeepRecent(ms: seq<Message>, used: int, maxTokens: int) returns (kept: seq<Message>)
    ensures kept == LastMessages(ms, FitCount(ms, used, maxTokens))
  {
    var n, current := |ms|, used;
    assert ms[..n] == ms;
    while n > 0
      invariant 0 <= n <= |ms|
      invariant FitCount(ms, used, maxTokens) == |ms| - n + FitCount(ms[..n], current, maxTokens)
    {
      assert ms[..n][..n - 1] == ms[..n - 1];
      var t := EstimateTokens(ms[n - 1].content);
      if current + t > maxTokens {
        break;
      }
      current := current + t;
      n := n - 1;
    }
    kept := ms[n..];
  }

  method SumTokens(ms: seq<Message>) returns (total: nat)
    ensures total == Tokens(ms)
  {
    total := 0;
    for i := 0 to |ms|
      invariant total == Tokens(ms[..i])
    {
      assert ms[..i + 1][..i] == ms[..i];
      total := total + EstimateTokens(ms[i].content);
    }
    assert ms[..|ms|] == ms;
  }
}
