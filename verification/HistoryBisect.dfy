/** The bisecting diagnostic that looks for the history message a content filter objects to. */
module HistoryBisect {
  import opened Outcomes

  /** A probe sent the messages first..last, and was let through or blocked. */
  datatype Probe = Probe(first: nat, last: nat, blocked: bool)

  /** How often n messages can be halved, rounding up. */
  function Halvings(n: nat): nat {
    if n <= 1 then 0 else 1 + Halvings((n + 1) / 2)
  }

  lemma {:induction false} HalvingsMonotone(m: nat, n: nat)
    requires m <= n
    ensures Halvings(m) <= Halvings(n)
  {
    if m > 1 {
      HalvingsMonotone((m + 1) / 2, (n + 1) / 2);
    }
  }

  /** `n` is within `Halvings(n)` doublings of one. */
  lemma {:induction false} HalvingsIsLogarithm(n: nat)
    requires n >= 1
    ensures n <= Power(Halvings(n)) && (n > 1 ==> Power(Halvings(n) - 1) < n)
  {
    if n > 1 {
      HalvingsIsLogarithm((n + 1) / 2);
    }
  }

  function Power(k: nat): nat {
    if k == 0 then 1 else 2 * Power(k - 1)
  }

  /** Some probe let message i through. */
  ghost predicate Passed(probes: seq<Probe>, i: nat) {
    exists p :: p in probes && p.first <= i <= p.last && !p.blocked
  }

  lemma PassedSnoc(probes: seq<Probe>, p: Probe, i: nat)
    ensures Passed(probes + [p], i) <==> Passed(probes, i) || (p.first <= i <= p.last && !p.blocked)
  {
    assert forall q :: q in probes + [p] <==> q in probes || q == p;
    assert p in probes + [p];
  }

  /** The answer of a filter that blocks exactly the probes holding an objectionable message. */
  ghost predicate Exact(answer: (nat, nat, nat) -> bool, bad: set<nat>) {
    forall k: nat, first: nat, last: nat :: answer(k, first, last) <==> exists i :: i in bad && first <= i <= last
  }

  ghost predicate Diagnosed(n: nat, found: Option<nat>, probes: seq<Probe>, cleared: nat) {
    && cleared <= n
    && (forall i: nat :: i < cleared ==> Passed(probes, i))
    && (found.Some? ==> found.value == cleared < n && Probe(cleared, cleared, true) in probes)
    && (found.None? ==> cleared == n || exists p :: p in probes && p.blocked && p.last < cleared)
  }

  /** What the diagnostic reports. */
  datatype Diagnosis = Diagnosis(found: Option<nat>, probes: seq<Probe>)

  /** The search in the messages left..right, from the k-th probe on. */
  function Search(answer: (nat, nat, nat) -> bool, k: nat, left: nat, right: int): Diagnosis
    decreases right - left + 1
  {
    if left > right then Diagnosis(None, []) else
      var mid := (left + right) / 2;
      if !answer(k, left, mid) then Behind([Probe(left, mid, false)], Search(answer, k + 1, mid + 1, right))
      else if left == mid then Diagnosis(Some(left), [Probe(left, mid, true)])
      else Behind([Probe(left, mid, true)], Search(answer, k + 1, left, mid))
  }

  /** One turn of the search, put behind the probes so far. */
  lemma SearchTurn(answer: (nat, nat, nat) -> bool, probes: seq<Probe>, left: nat, right: nat, whole: Diagnosis)
    requires left <= right && whole == Behind(probes, Search(answer, |probes|, left, right))
    ensures var mid := (left + right) / 2;
            var longer := probes + [Probe(left, mid, answer(|probes|, left, mid))];
            whole == if !answer(|probes|, left, mid) then Behind(longer, Search(answer, |longer|, mid + 1, right))
                     else if left == mid then Diagnosis(Some(left), longer)
                     else Behind(longer, Search(answer, |longer|, left, mid))
  {
    assert forall p: Probe, ps :: probes + ([p] + ps) == (probes + [p]) + ps;
  }

  lemma BehindNothing(d: Diagnosis)
    ensures Behind([], d) == d
  {
    assert [] + d.probes == d.probes;
  }

  lemma SearchEnds(answer: (nat, nat, nat) -> bool, probes: seq<Probe>, left: nat, right: int)
    requires left > right
    ensures Behind(probes, Search(answer, |probes|, left, right)) == Diagnosis(None, probes)
  {
  }

  function Behind(probes: seq<Probe>, d: Diagnosis): Diagnosis {
    Diagnosis(d.found, probes + d.probes)
  }

  /** `_diagnose_history`, for a filter whose answer to the k-th probe may be anything: it ends within
      Halvings(n) + 1 probes, having cleared some messages piecewise from the start; a message it names comes next and
      was blocked on its own; and when it names none, it cleared everything, or a blocked probe's every part. */
  method DiagnoseHistory(n: nat, answer: (nat, nat, nat) -> bool)
      returns (found: Option<nat>, probes: seq<Probe>, ghost cleared: nat)
    ensures Diagnosis(found, probes) == Search(answer, 0, 0, n - 1)
    ensures |probes| <= if n == 0 then 0 else Halvings(n) + 1
    ensures forall p :: p in probes ==> p.first <= p.last < n
    ensures forall k :: 0 <= k < |probes| ==> probes[k].blocked == answer(k, probes[k].first, probes[k].last)
    ensures Diagnosed(n, found, probes, cleared)
  {
    hide Search, Behind;
    var left, right := 0, n - 1;
    probes := [];
    ghost var whole := Search(answer, 0, 0, n - 1);
    assert whole == Behind([], whole) by { BehindNothing(whole); }
    while left <= right
      invariant 0 <= left <= right + 1 <= n
      invariant whole == Behind(probes, Search(answer, |probes|, left, right))
      invariant left <= right ==> |probes| + Halvings(right - left + 1) <= Halvings(n)
      invariant left > right ==> |probes| <= if n == 0 then 0 else Halvings(n) + 1
      invariant forall p :: p in probes ==> p.first <= p.last < n
      invariant forall k :: 0 <= k < |probes| ==> probes[k].blocked == answer(k, probes[k].first, probes[k].last)
      invariant forall i: nat :: i < left ==> Passed(probes, i)
      invariant right == n - 1 || exists p :: p in probes && p.blocked && p.last == right
      decreases right - left + 1, if left <= right then 1 else 0
    {
      var mid := (left + right) / 2;
      var blocked := answer(|probes|, left, mid);
      var probe := Probe(left, mid, blocked);
      forall i: nat
        ensures Passed(probes + [probe], i) <==> Passed(probes, i) || (left <= i <= mid && !blocked)
      {
        PassedSnoc(probes, probe, i);
      }
      HalvingsMonotone(right - mid, (right - left + 2) / 2);
      assert forall p :: p in probes + [probe] <==> p in probes || p == probe;
      SearchTurn(answer, probes, left, right, whole);
      probes := probes + [probe];
      if blocked {
        if left == mid {
          return Some(left), probes, left;
        }
        right := mid;
      } else {
        left := mid + 1;
      }
    }
    SearchEnds(answer, probes, left, right);
    found, cleared := None, left;
  }

  /** With an exact filter, what a run of the diagnostic names is the first objectionable message, and it names none
      only when there is none. */
  lemma ExactFindsFirst(n: nat, answer: (nat, nat, nat) -> bool, bad: set<nat>, found: Option<nat>, probes: seq<Probe>,
                          cleared: nat)
    requires Exact(answer, bad)
    requires forall k :: 0 <= k < |probes| ==> probes[k].blocked == answer(k, probes[k].first, probes[k].last)
    requires Diagnosed(n, found, probes, cleared)
    ensures found.Some? ==> found.value in bad && forall i :: 0 <= i < found.value ==> i !in bad
    ensures found.None? ==> forall i :: 0 <= i < n ==> i !in bad
  {
    forall i: nat | i < cleared
      ensures i !in bad
    {
      assert Passed(probes, i);
      var p :| p in probes && p.first <= i <= p.last && !p.blocked;
      var k :| 0 <= k < |probes| && probes[k] == p;
      assert !answer(k, p.first, p.last);
    }
    if found.Some? {
      var k :| 0 <= k < |probes| && probes[k] == Probe(cleared, cleared, true);
      assert answer(k, cleared, cleared);
    }
  }

  // ----- filters that react to combinations -----

  /** A probe that holds all messages of a blocked probe is blocked, whenever either is sent. */
  ghost predicate Monotone(answer: (nat, nat, nat) -> bool) {
    forall j: nat, k: nat, a: nat, b: nat, first: nat, last: nat ::
      first <= a <= b <= last && answer(j, a, b) ==> answer(k, first, last)
  }

  lemma WiderIsBlocked(answer: (nat, nat, nat) -> bool, j: nat, a: nat, b: nat, k: nat, first: nat, last: nat)
    requires Monotone(answer) && first <= a <= b <= last && answer(j, a, b)
    ensures answer(k, first, last)
  {
  }

  /** Some message among first..last is blocked on its own. */
  ghost predicate Guilty(answer: (nat, nat, nat) -> bool, first: nat, last: int) {
    exists i: nat :: first <= i <= last && answer(0, i, i)
  }

  /** A message that is named is blocked on its own, and was searched. */
  lemma {:induction false} NamedIsGuilty(answer: (nat, nat, nat) -> bool, k: nat, left: nat, right: int)
    requires Monotone(answer) && Search(answer, k, left, right).found.Some?
    ensures var i := Search(answer, k, left, right).found.value; left <= i <= right && answer(0, i, i)
    decreases right - left + 1
  {
    hide Monotone;
    var mid := (left + right) / 2;
    if !answer(k, left, mid) {
      NamedIsGuilty(answer, k + 1, mid + 1, right);
    } else if left != mid {
      NamedIsGuilty(answer, k + 1, left, mid);
    } else {
      WiderIsBlocked(answer, k, left, left, 0, left, left);
    }
  }

  /** No window of messages is blocked only as a combination. */
  ghost predicate NoCombination(answer: (nat, nat, nat) -> bool, n: nat) {
    forall first: nat, last: nat :: first <= last < n && answer(0, first, last) ==> Guilty(answer, first, last)
  }

  /** What is blocked on its own lies behind a part that is let through. */
  lemma GuiltyBehind(answer: (nat, nat, nat) -> bool, k: nat, left: nat, mid: nat, right: nat)
    requires Monotone(answer) && left <= mid <= right && !answer(k, left, mid)
    ensures Guilty(answer, left, right) <==> Guilty(answer, mid + 1, right)
    ensures Guilty(answer, left, right) ==> mid < right && answer(0, mid + 1, right)
  {
    hide Monotone;
    if Guilty(answer, left, right) {
      var i: nat :| left <= i <= right && answer(0, i, i);
      if i <= mid {
        WiderIsBlocked(answer, 0, i, i, k, left, mid);
      } else {
        WiderIsBlocked(answer, 0, i, i, 0, mid + 1, right);
      }
    }
  }

  lemma SomeoneIsGuilty(answer: (nat, nat, nat) -> bool, n: nat, first: nat, last: nat)
    requires NoCombination(answer, n) && first <= last < n && answer(0, first, last)
    ensures Guilty(answer, first, last)
  {
    hide Guilty;
  }

  lemma {:induction false} BlockedIsNamed(answer: (nat, nat, nat) -> bool, n: nat, k: nat, left: nat, right: nat)
    requires Monotone(answer) && NoCombination(answer, n) && left <= right < n && answer(0, left, right)
    ensures Search(answer, k, left, right).found.Some?
    decreases right - left
  {
    hide Monotone, NoCombination, Guilty;
    SomeoneIsGuilty(answer, n, left, right);
    var mid := (left + right) / 2;
    if answer(k, left, mid) {
      if left != mid {
        WiderIsBlocked(answer, k, left, mid, 0, left, mid);
        BlockedIsNamed(answer, n, k + 1, left, mid);
      }
    } else {
      GuiltyBehind(answer, k, left, mid, right);
      BlockedIsNamed(answer, n, k + 1, mid + 1, right);
    }
  }

  /** For every filter that blocks a probe whenever it blocks a part of it: the search names a message in every blocked
      window of a history if and only if every blocked window holds a message that is blocked on its own. */
  lemma NamesWheneverBlocked(answer: (nat, nat, nat) -> bool, n: nat)
    requires Monotone(answer)
    ensures (forall left: nat, right: nat :: left <= right < n && answer(0, left, right) ==>
               Search(answer, 0, left, right).found.Some?)
            <==> NoCombination(answer, n)
  {
    hide Monotone;
    if NoCombination(answer, n) {
      forall left: nat, right: nat | left <= right < n && answer(0, left, right)
        ensures Search(answer, 0, left, right).found.Some?
      {
        BlockedIsNamed(answer, n, 0, left, right);
      }
    } else {
      var left: nat, right: nat :| left <= right < n && answer(0, left, right) && !Guilty(answer, left, right);
      if Search(answer, 0, left, right).found.Some? {
        NamedIsGuilty(answer, 0, left, right);
      }
    }
  }

  /** The first probe of this window is blocked only as a combination, and there is a message blocked on its own behind
      it, which the search will not come to. */
  ghost predicate Distracts(answer: (nat, nat, nat) -> bool, left: nat, right: nat) {
    var mid := (left + right) / 2;
    left <= right && answer(0, left, mid) && !Guilty(answer, left, mid) && Guilty(answer, mid + 1, right)
  }

  lemma {:induction false} SilentIsInnocent(answer: (nat, nat, nat) -> bool, n: nat, k: nat, left: nat, right: int)
    requires Monotone(answer) && right < n && Search(answer, k, left, right).found.None?
    requires forall a: nat, b: nat :: b < n ==> !Distracts(answer, a, b)
    ensures !Guilty(answer, left, right)
    decreases right - left + 1
  {
    hide Monotone;
    if left <= right {
      var mid := (left + right) / 2;
      assert !Distracts(answer, left, right);
      if answer(k, left, mid) {
        SilentIsInnocent(answer, n, k + 1, left, mid);
        WiderIsBlocked(answer, k, left, mid, 0, left, mid);
      } else {
        SilentIsInnocent(answer, n, k + 1, mid + 1, right);
        GuiltyBehind(answer, k, left, mid, right);
      }
    }
  }

  /** What the diagnostic says when it names none - that no message is blocked on its own - is true of every window of a
      history if and only if no window is distracting. */
  lemma SilenceIsRight(answer: (nat, nat, nat) -> bool, n: nat)
    requires Monotone(answer)
    ensures (forall left: nat, right: nat :: right < n && Search(answer, 0, left, right).found.None? ==>
               !Guilty(answer, left, right))
            <==> forall left: nat, right: nat :: right < n ==> !Distracts(answer, left, right)
  {
    hide Monotone;
    if forall left: nat, right: nat :: right < n ==> !Distracts(answer, left, right) {
      forall left: nat, right: nat | right < n && Search(answer, 0, left, right).found.None?
        ensures !Guilty(answer, left, right)
      {
        SilentIsInnocent(answer, n, 0, left, right);
      }
    } else {
      var left: nat, right: nat :| right < n && Distracts(answer, left, right);
      DistractedIsSilent(answer, left, right);
    }
  }

  lemma DistractedIsSilent(answer: (nat, nat, nat) -> bool, left: nat, right: nat)
    requires Monotone(answer) && Distracts(answer, left, right)
    ensures Search(answer, 0, left, right).found.None? && Guilty(answer, left, right)
  {
    hide Monotone;
    var mid := (left + right) / 2;
    assert left == mid ==> Guilty(answer, left, mid);
    if Search(answer, 0, left, right).found.Some? {
      NamedIsGuilty(answer, 1, left, mid);
    }
  }

  /** Blocks message 3, and messages 0 and 1 together. */
  function PairOrThird(k: nat, first: nat, last: nat): bool {
    first <= 3 <= last || (first == 0 && last >= 1)
  }

  /** Of four messages, the last is blocked on its own, and the diagnostic names none: it never probes the last two. */
  lemma CombinationDistracts()
    ensures Monotone(PairOrThird) && PairOrThird(0, 3, 3) && Distracts(PairOrThird, 0, 3)
    ensures Search(PairOrThird, 0, 0, 3) == Diagnosis(None, [Probe(0, 1, true), Probe(0, 0, false), Probe(1, 1, false)])
  {
    assert Guilty(PairOrThird, 2, 3) by { assert PairOrThird(0, 3, 3); }
    assert Search(PairOrThird, 3, 2, 1) == Diagnosis(None, []);
    assert Search(PairOrThird, 2, 1, 1).probes == [Probe(1, 1, false)];
    assert Search(PairOrThird, 1, 0, 1).probes == [Probe(0, 0, false), Probe(1, 1, false)];
  }
}
