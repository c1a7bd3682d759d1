/**
 `Safe` asks for no more than it must: every step it forbids can be continued, in an orderly way, to a host that runs
 an extension on a dependency that is down, or runs something after its stop has ended.
 */
module RuntimeExactness {
  import opened Outcomes
  import opened Extensions
  import opened RuntimeMachine
  import opened RuntimeSafety
  import opened RuntimeStopping
  import opened RuntimeRuns

  /** `h` goes to `h'` by orderly steps. */
  ghost predicate Goes(l: Layout, h: Host, es: seq<Event>, h': Host) {
    OrderlyRun(l, h, es) && Run(l, h, es) == Some(h')
  }

  lemma GoesNowhere(l: Layout, h: Host)
    ensures Goes(l, h, [], h)
  {
  }

  lemma GoesFirst(l: Layout, h: Host, e: Event, h1: Host, es: seq<Event>, h2: Host)
    requires Orderly(l, h, e) && Step(l, h, e) == Some(h1) && Goes(l, h1, es, h2)
    ensures Goes(l, h, [e] + es, h2)
  {
    hide Orderly, Step;
    assert ([e] + es)[1..] == es;
  }

  lemma GoesOn2(l: Layout, h: Host, es: seq<Event>, h1: Host, fs: seq<Event>, h2: Host)
    requires Goes(l, h, es, h1) && Goes(l, h1, fs, h2)
    ensures Goes(l, h, es + fs, h2)
  {
    RunsCompose(l, h, es, fs);
  }

  // ----- pieces of runs: a start -----

  /** An extension that is being started, is not refused and has running dependencies passes all its checkpoints. */
  lemma {:induction false} Checkpoints(l: Layout, h: Host) returns (es: seq<Event>, h': Host)
    requires h.start.Some? && h.start.value.pc.Awaiting? && h.start.value.pos < |l.order|
    requires StatusOf(h.status, l.order[h.start.value.pos]) != Blocked
    requires DependenciesRunning(l, h.status, l.order[h.start.value.pos])
    ensures Goes(l, h, es, h')
    ensures h' == h.(status := h.status[l.order[h.start.value.pos] := Running], started := h'.started,
                     start := Some(StartTask(h.start.value.pos + 1, Next)))
    decreases if h.start.value.pc.stage < LAST_STAGE then LAST_STAGE - h.start.value.pc.stage else 0
  {
    hide DependenciesRunning, Goes;
    var StartTask(pos, Awaiting(stage)) := h.start.value;
    var h1 := Step(l, h, StartResumes(true)).value;
    if stage < LAST_STAGE {
      es, h' := Checkpoints(l, h1);
    } else {
      es, h' := [], h1;
      GoesNowhere(l, h1);
    }
    GoesFirst(l, h, StartResumes(true), h1, es, h');
    es := [StartResumes(true)] + es;
  }

  // ----- pieces of runs: a crash handler -----

  lemma ScanSkips(l: Layout, h: Host, owner: Id, p: nat)
    requires owner in h.crashes && h.crashes[owner].pc == Scanning(p + 1) && p < |l.order|
    requires l.order[p] == owner || l.order[p] !in h.crashes[owner].affected || !IsRunning(h.status, l.order[p])
    ensures Orderly(l, h, CrashScans(owner))
    ensures Step(l, h, CrashScans(owner)) 
            == Some(h.(crashes := h.crashes[owner := h.crashes[owner].(pc := Scanning(p))]))
  {
  }

  /** A scanning handler may scan down to a position above which nothing runs. */
  lemma {:induction false} ScanTo(l: Layout, h: Host, owner: Id, p: nat, pos: nat) returns (es: seq<Event>, h': Host)
    requires owner in h.crashes && h.crashes[owner].pc == Scanning(p) && pos <= p <= |l.order|
    requires forall i :: pos <= i < |l.order| ==> !IsRunning(h.status, l.order[i])
    ensures Goes(l, h, es, h')
    ensures h' == h.(crashes := h.crashes[owner := h.crashes[owner].(pc := Scanning(pos))])
    decreases p
  {
    hide Goes, Orderly, Step, IsRunning;
    if p == pos {
      assert h.crashes[owner := h.crashes[owner].(pc := Scanning(pos))] == h.crashes;
      es, h' := [], h;
      GoesNowhere(l, h);
    } else {
      ScanSkips(l, h, owner, p - 1);
      var h1 := h.(crashes := h.crashes[owner := h.crashes[owner].(pc := Scanning(p - 1))]);
      es, h' := ScanTo(l, h1, owner, p - 1, pos);
      assert h1.crashes[owner := h1.crashes[owner].(pc := Scanning(pos))]
             == h.crashes[owner := h.crashes[owner].(pc := Scanning(pos))];
      GoesFirst(l, h, CrashScans(owner), h1, es, h');
      es := [CrashScans(owner)] + es;
    }
  }

  /** What a handler has yet to come to. */
  function ToCome(l: Layout, c: Crash): nat {
    match c.pc
    case Scanning(p) => 2 * p + 1
    case Stopping(k) => 2 * k + 2
    case Degrading => 0
  }

  /** The handler will not come to `z` any more. */
  predicate PassedBy(l: Layout, owner: Id, c: Crash, z: Id) {
    z != owner &&
    match c.pc
    case Scanning(p) => p <= |l.order| && z !in l.order[..p]
    case Stopping(k) => k < |l.order| && z !in l.order[..k + 1]
    case Degrading => true
  }

  lemma HandlerTurn(l: Layout, h: Host, owner: Id, z: Id) returns (e: Event, h1: Host)
    requires owner in h.crashes && PassedBy(l, owner, h.crashes[owner], z) && IsRunning(h.status, z)
    requires h.crashes[owner].pc != Degrading
    ensures Orderly(l, h, e) && Step(l, h, e) == Some(h1)
    ensures IsRunning(h1.status, z) && owner in h1.crashes && PassedBy(l, owner, h1.crashes[owner], z)
    ensures ToCome(l, h1.crashes[owner]) < ToCome(l, h.crashes[owner])
  {
    var c := h.crashes[owner];
    if c.pc.Scanning? {
      e := CrashScans(owner);
      if c.pc.pos > 0 {
        assert l.order[..c.pc.pos][..c.pc.pos - 1] == l.order[..c.pc.pos - 1];
      }
    } else {
      e := CrashResumes(owner);
      assert l.order[..c.pc.pos + 1][c.pc.pos] == l.order[c.pc.pos];
    }
    h1 := Step(l, h, e).value;
  }

  /** A handler left to itself takes its owner down, and nothing it has passed by. */
  lemma {:induction false} HandlerFinishes(l: Layout, h: Host, owner: Id, z: Id) returns (es: seq<Event>, h': Host)
    requires owner in h.crashes && PassedBy(l, owner, h.crashes[owner], z) && IsRunning(h.status, z)
    ensures Goes(l, h, es, h') && IsRunning(h'.status, z) && !IsRunning(h'.status, owner)
    decreases ToCome(l, h.crashes[owner])
  {
    hide Goes;
    if h.crashes[owner].pc == Degrading {
      es := [CrashResumes(owner)];
      h' := Step(l, h, CrashResumes(owner)).value;
      GoesNowhere(l, h');
      GoesFirst(l, h, CrashResumes(owner), h', [], h');
      assert [CrashResumes(owner)] + [] == es;
    } else {
      hide Orderly, Step, PassedBy, ToCome, IsRunning;
      var e, h1 := HandlerTurn(l, h, owner, z);
      es, h' := HandlerFinishes(l, h1, owner, z);
      GoesFirst(l, h, e, h1, es, h');
      es := [e] + es;
    }
  }

  // ----- a start in a crash window -----

  lemma AheadOf(l: Layout, pos: nat, i: nat)
    requires l.Valid() && pos <= i < |l.order|
    ensures l.order[i] !in l.order[..pos]
  {
  }

  lemma AffectedHandler(l: Layout, h: Host, pos: nat, owner: Id)
    requires l.Valid() && UpInv(l, h) && h.start == Some(StartTask(pos, Next)) && pos < |l.order|
    requires owner in h.crashes
    ensures h.crashes[owner].affected == Affected(l, owner, |l.order|)
    ensures owner != l.order[pos] && l.order[pos] !in l.order[..pos] && !IsRunning(h.status, l.order[pos])
    ensures forall i :: pos <= i < |l.order| ==> !IsRunning(h.status, l.order[i])
    ensures match h.crashes[owner].pc
            case Scanning(p) => p <= |l.order|
            case Stopping(k) => k < pos
            case Degrading => true
  {
    HandlerOk(l, h, owner);
    NotBehind(l, pos);
    forall i | pos <= i < |l.order|
      ensures !IsRunning(h.status, l.order[i])
    {
      AheadOf(l, pos, i);
    }
  }

  /** An extension that depends on a handler's owner ends up unsupported when it runs and the owner does not. */
  lemma OwnerDownUnsound(l: Layout, h: Host, owner: Id, x: Id)
    requires l.Valid() && x in Affected(l, owner, |l.order|) && IsRunning(h.status, x) && !IsRunning(h.status, owner)
    ensures !Supported(l, h.status)
  {
    AffectedReaches(l, owner, |l.order|, x);
    var p :| IsPath(l.graph, p) && p[0] == x && p[|p| - 1] == owner;
    if Supported(l, h.status) {
      RunningAlongPath(l, h.status, p);
    }
  }

  /** Whenever an extension may begin to start while a crash handler that affects it is in progress, at whatever stage
      and distance, there is an orderly continuation that leaves it RUNNING on a dependency that is down. */
  lemma StartInCrashWindow(l: Layout, h: Host, owner: Id) returns (es: seq<Event>, h': Host)
    requires l.Valid() && UpInv(l, h) && h.start.Some? && h.start.value.pc == Next && h.start.value.pos < |l.order|
    requires StatusOf(h.status, l.order[h.start.value.pos]) == Loaded
    requires DependenciesRunning(l, h.status, l.order[h.start.value.pos])
    requires owner in h.crashes && l.order[h.start.value.pos] in h.crashes[owner].affected
    ensures Goes(l, Step(l, h, StartNext).value, es, h')
    ensures IsRunning(h'.status, l.order[h.start.value.pos]) && !IsRunning(h'.status, owner) && !Supported(l, h'.status)
  {
    var pos := h.start.value.pos;
    var x := l.order[pos];
    AffectedHandler(l, h, pos, owner);
    var h1 := Step(l, h, StartNext).value;
    StatusSet(h.status, x, Starting);
    assert DependenciesRunning(l, h1.status, x) by { DependenciesStay(l, h.status, h1.status, x); }
    hide UpInv, Goes, DependenciesRunning, Step;
    var scans, h2 := [], h1;
    if h1.crashes[owner].pc.Scanning? && h1.crashes[owner].pc.pos > pos {
      scans, h2 := ScanTo(l, h1, owner, h1.crashes[owner].pc.pos, pos);
    } else {
      GoesNowhere(l, h1);
    }
    var ups, h3 := Checkpoints(l, h2);
    assert PassedBy(l, owner, h3.crashes[owner], x) by {
      NotInPrefix(l, pos, x);
    }
    var downs;
    downs, h' := HandlerFinishes(l, h3, owner, x);
    OwnerDownUnsound(l, h', owner, x);
    GoesOn2(l, h1, scans, h2, ups, h3);
    GoesOn2(l, h1, scans + ups, h3, downs, h');
    es := scans + ups + downs;
  }

  lemma NotInPrefix(l: Layout, pos: nat, x: Id)
    requires l.Valid() && pos < |l.order| && x == l.order[pos]
    ensures forall n :: 0 <= n <= pos ==> x !in l.order[..n]
  {
  }

  lemma DependenciesStay(l: Layout, before: map<Id, Status>, after: map<Id, Status>, x: Id)
    requires DependenciesRunning(l, before, x)
    requires forall y :: IsRunning(before, y) ==> IsRunning(after, y)
    ensures DependenciesRunning(l, after, x)
  {
  }

  // ----- pieces of runs: a stop -----

  /** The next extension of the stop loop, taken down if it is registered as started. */
  lemma StopTurn(l: Layout, h: Host, p: nat) returns (es: seq<Event>, h': Host)
    requires h.stop == Some(StopTask(p + 1, false)) && p < |l.order|
    ensures Goes(l, h, es, h')
    ensures h' == h.(stop := Some(StopTask(p, false)), status := h'.status, started := h.started - {l.order[p]})
    ensures forall y :: y != l.order[p] ==> StatusOf(h'.status, y) == StatusOf(h.status, y)
    ensures StatusOf(h'.status, l.order[p]) == Swept(l, h, l.order[p])
  {
    hide Goes;
    var x := l.order[p];
    var h1 := Step(l, h, StopNext).value;
    if x in h.started {
      h' := Step(l, h1, StopResumes(true)).value;
      GoesNowhere(l, h');
      GoesFirst(l, h1, StopResumes(true), h', [], h');
      GoesFirst(l, h, StopNext, h1, [StopResumes(true)] + [], h');
      es := [StopNext] + ([StopResumes(true)] + []);
    } else {
      h' := h1;
      assert h.started - {x} == h.started;
      GoesNowhere(l, h');
      GoesFirst(l, h, StopNext, h', [], h');
      es := [StopNext] + [];
    }
  }

  /** What the stop loop leaves of an extension's status. */
  function Swept(l: Layout, h: Host, x: Id): Status {
    if x in h.started || (x in l.registered && StatusOf(h.status, x) == Blocked) then Loaded else StatusOf(h.status, x)
  }

  /** The stop loop comes down to `i`, and changes nothing but what it passes. */
  lemma {:induction false} SweepTo(l: Layout, h: Host, p: nat, i: nat) returns (es: seq<Event>, h': Host)
    requires l.Valid() && h.stop == Some(StopTask(p, false)) && i <= p <= |l.order|
    ensures Goes(l, h, es, h')
    ensures h' == h.(stop := Some(StopTask(i, false)), status := h'.status, started := h'.started)
    ensures forall y :: y !in l.order[i..p] ==>
              StatusOf(h'.status, y) == StatusOf(h.status, y) && (y in h'.started <==> y in h.started)
    ensures forall y :: y in l.order[i..p] ==> StatusOf(h'.status, y) == Swept(l, h, y)
    decreases p
  {
    hide Goes;
    if p == i {
      es, h' := [], h;
      GoesNowhere(l, h);
    } else {
      var es1, h1 := StopTurn(l, h, p - 1);
      var es2;
      es2, h' := SweepTo(l, h1, p - 1, i);
      GoesOn2(l, h, es1, h1, es2, h');
      es := es1 + es2;
      var x := l.order[p - 1];
      assert l.order[i..p] == l.order[i..p - 1] + [x];
      assert x !in l.order[i..p - 1] by {
        assert forall j :: i <= j < p - 1 ==> l.order[j] != x;
      }
      assert forall y :: y != x ==> Swept(l, h1, y) == Swept(l, h, y);
    }
  }

  /** A stop that has passed a running extension, or passes it because it is not registered as started, ends
      under it. */
  lemma {:induction false} StopSweeps(l: Layout, h: Host, p: nat, z: Id) returns (es: seq<Event>, h': Host)
    requires h.stop == Some(StopTask(p, false)) && p <= |l.order|
    requires IsRunning(h.status, z) && (z !in h.started || z !in l.order[..p])
    ensures Goes(l, h, es, h') && !h'.runtime && IsRunning(h'.status, z)
    decreases p
  {
    hide Goes;
    if p == 0 {
      h' := Step(l, h, StopNext).value;
      GoesNowhere(l, h');
      GoesFirst(l, h, StopNext, h', [], h');
      es := [StopNext] + [];
    } else {
      var es1, h1 := StopTurn(l, h, p - 1);
      assert l.order[..p] == l.order[..p - 1] + [l.order[p - 1]];
      assert IsRunning(h1.status, z);
      var es2;
      es2, h' := StopSweeps(l, h1, p - 1, z);
      GoesOn2(l, h, es1, h1, es2, h');
      es := es1 + es2;
    }
  }

  // ----- a stop in a crash window -----

  /** What a handler that still has something to take down looks like. */
  ghost predicate HasWork(l: Layout, h: Host, owner: Id, a: Id) {
    && owner in h.crashes && a in h.crashes[owner].affected && IsRunning(h.status, a) && (a == owner || a in l.order)
    && var Crash(affected, pc) := h.crashes[owner];
       && (forall x :: Tears(l, owner, h.crashes[owner], x) ==> x !in h.started)
       && match pc
          case Scanning(p) => p <= |l.order| && CrashDone(l, h.status, owner, affected, p)
          case Stopping(k) => k < |l.order| && l.order[k] in affected && l.order[k] != owner
            && CrashDone(l, h.status, owner, affected, k + 1)
          case Degrading => CrashDone(l, h.status, owner, affected, 0)
  }

  ghost predicate TearsRunning(l: Layout, h: Host, z: Id) {
    IsRunning(h.status, z) && z !in h.started
  }

  /** One turn of such a handler: it tears something that runs, or has less to come to. */
  lemma WorkTurn(l: Layout, h: Host, owner: Id, a: Id) returns (e: Event, h1: Host, z: Id)
    requires l.Valid() && HasWork(l, h, owner, a)
    requires !(h.crashes[owner].pc == Degrading)
    requires !(h.crashes[owner].pc.Stopping? && IsRunning(h.status, l.order[h.crashes[owner].pc.pos]))
    ensures Orderly(l, h, e) && Step(l, h, e) == Some(h1)
    ensures h1.stop == h.stop && h1.runtime == h.runtime
    ensures TearsRunning(l, h1, z) || (HasWork(l, h1, owner, a)
                                       && ToCome(l, h1.crashes[owner]) < ToCome(l, h.crashes[owner]))
  {
    var c := h.crashes[owner];
    z := owner;
    if c.pc.Stopping? {
      e := CrashResumes(owner);
      h1 := Step(l, h, e).value;
      StatusSet(h.status, l.order[c.pc.pos], Blocked);
      assert HasWork(l, h1, owner, a);
    } else {
      e := CrashScans(owner);
      h1 := Step(l, h, e).value;
      if c.pc.pos == 0 {
        assert a == owner;
      } else if l.order[c.pc.pos - 1] == owner || l.order[c.pc.pos - 1] !in c.affected
        || !IsRunning(h.status, l.order[c.pc.pos - 1]) {
        assert HasWork(l, h1, owner, a);
      } else {
        z := l.order[c.pc.pos - 1];
      }
    }
  }

  /** A handler with something left to take down can be led to where it is taking down something that still runs. */
  lemma {:induction false} WorksUntilTearing(l: Layout, h: Host, owner: Id, a: Id)
    returns (es: seq<Event>, h': Host, z: Id)
    requires l.Valid() && HasWork(l, h, owner, a)
    ensures Goes(l, h, es, h') && h'.stop == h.stop && h'.runtime == h.runtime && TearsRunning(l, h', z)
    decreases ToCome(l, h.crashes[owner])
  {
    hide Goes;
    var c := h.crashes[owner];
    if c.pc == Degrading || (c.pc.Stopping? && IsRunning(h.status, l.order[c.pc.pos])) {
      z := if c.pc == Degrading then owner else l.order[c.pc.pos];
      assert c.pc == Degrading ==> a == owner;
      assert Tears(l, owner, c, z);
      es, h' := [], h;
      GoesNowhere(l, h);
    } else {
      hide Orderly, Step, ToCome, HasWork, TearsRunning;
      var e, h1, z1 := WorkTurn(l, h, owner, a);
      if TearsRunning(l, h1, z1) {
        es, h', z := [], h1, z1;
        GoesNowhere(l, h1);
      } else {
        es, h', z := WorksUntilTearing(l, h1, owner, a);
      }
      GoesFirst(l, h, e, h1, es, h');
      es := [e] + es;
    }
  }

  /** A stop that begins while a crash handler still has a running extension to take down can pass that extension by
      and end with it running. */
  lemma StopInCrashWindow(l: Layout, h: Host, owner: Id, a: Id) returns (es: seq<Event>, h': Host)
    requires l.Valid() && UpInv(l, h)
    requires owner in h.crashes && a in h.crashes[owner].affected && IsRunning(h.status, a)
    ensures Goes(l, Step(l, h, StopBegins).value, es, h') && !Sound(l, h')
  {
    var h1 := Step(l, h, StopBegins).value;
    HandlerOk(l, h, owner);
    assert Placed(l, a);
    assert HasWork(l, h1, owner, a) by { StillHasWork(l, h, h1, owner, a); }
    hide UpInv, Goes, Step, HasWork;
    var es1, h2, z := WorksUntilTearing(l, h1, owner, a);
    var es2;
    es2, h' := StopSweeps(l, h2, |l.order|, z);
    GoesOn2(l, h1, es1, h2, es2, h');
    es := es1 + es2;
  }

  lemma StillHasWork(l: Layout, h: Host, h1: Host, owner: Id, a: Id)
    requires owner in h.crashes && CrashOk(l, h.status, h.started, owner, h.crashes[owner])
    requires a in h.crashes[owner].affected && IsRunning(h.status, a) && a in l.order
    requires h1.status == h.status && h1.started == h.started && h1.crashes == h.crashes
    ensures HasWork(l, h1, owner, a)
  {
  }

  // ----- a stop during a start -----

  /** The start loop passes an extension that is not ready. */
  lemma StartPasses(l: Layout, h: Host) returns (es: seq<Event>, h': Host)
    requires h.start.Some? && h.start.value.pos < |l.order| && !Ready(l, h, h.start.value.pos)
    requires h.start.value.pc != Next ==> !IsRunning(h.status, l.order[h.start.value.pos])
    ensures Goes(l, h, es, h')
    ensures h' == h.(start := Some(StartTask(h.start.value.pos + 1, Next)), status := h'.status, started := h'.started)
    ensures forall y :: y != l.order[h.start.value.pos] ==>
              StatusOf(h'.status, y) == StatusOf(h.status, y) && (y in h'.started <==> y in h.started)
    ensures IsRunning(h'.status, l.order[h.start.value.pos]) <==> IsRunning(h.status, l.order[h.start.value.pos])
  {
    hide Goes, DependenciesRunning;
    var StartTask(pos, pc) := h.start.value;
    if pc == Next {
      h' := Step(l, h, StartNext).value;
      GoesNowhere(l, h');
      GoesFirst(l, h, StartNext, h', [], h');
      es := [StartNext] + [];
    } else if pc.Awaiting? {
      var h1 := Step(l, h, StartResumes(true)).value;
      h' := Step(l, h1, StartCleaned(false)).value;
      GoesNowhere(l, h');
      GoesFirst(l, h1, StartCleaned(false), h', [], h');
      GoesFirst(l, h, StartResumes(true), h1, [StartCleaned(false)] + [], h');
      es := [StartResumes(true)] + ([StartCleaned(false)] + []);
    } else {
      h' := Step(l, h, StartCleaned(false)).value;
      GoesNowhere(l, h');
      GoesFirst(l, h, StartCleaned(false), h', [], h');
      es := [StartCleaned(false)] + [];
    }
  }

  ghost predicate SameRunning(h: Host, h': Host) {
    forall y :: IsRunning(h'.status, y) <==> IsRunning(h.status, y)
  }

  /** The start loop walks to an extension before which none is ready. */
  lemma {:induction false} StartWalks(l: Layout, h: Host, i: nat) returns (es: seq<Event>, h': Host)
    requires l.Valid() && h.start.Some? && h.start.value.pos <= i < |l.order|
    requires h.start.value.pc == Next || (h.start.value.pos < i && !IsRunning(h.status, l.order[h.start.value.pos]))
    requires forall j :: h.start.value.pos <= j < i ==> !Ready(l, h, j)
    ensures Goes(l, h, es, h')
    ensures h' == h.(start := Some(StartTask(i, Next)), status := h'.status, started := h'.started)
    ensures StatusOf(h'.status, l.order[i]) == StatusOf(h.status, l.order[i]) && SameRunning(h, h')
    decreases i - h.start.value.pos
  {
    hide Goes;
    var pos := h.start.value.pos;
    if pos == i {
      es, h' := [], h;
      GoesNowhere(l, h);
    } else {
      var es1, h1 := StartPasses(l, h);
      assert SameRunning(h, h1) by {
        forall y
          ensures IsRunning(h1.status, y) <==> IsRunning(h.status, y)
        {
          assert y != l.order[pos] ==> StatusOf(h1.status, y) == StatusOf(h.status, y);
        }
      }
      forall j | pos + 1 <= j < i
        ensures !Ready(l, h1, j)
      {
        NotReadyAfter(l, h, h1, j);
      }
      var es2;
      es2, h' := StartWalks(l, h1, i);
      GoesOn2(l, h, es1, h1, es2, h');
      es := es1 + es2;
    }
  }

  lemma NotReadyAfter(l: Layout, h: Host, h1: Host, j: nat)
    requires l.Valid() && h.start.Some? && h.start.value.pos < j < |l.order| && !Ready(l, h, j) && SameRunning(h, h1)
    requires h1.start == Some(StartTask(h.start.value.pos + 1, Next))
    requires StatusOf(h1.status, l.order[j]) == StatusOf(h.status, l.order[j])
             && (l.order[j] in h1.started <==> l.order[j] in h.started)
    ensures !Ready(l, h1, j)
  {
    if DependenciesRunning(l, h1.status, l.order[j]) {
      DependenciesStay(l, h1.status, h.status, l.order[j]);
    }
  }

  lemma {:induction false} FirstReady(l: Layout, h: Host, n: nat) returns (i: nat)
    requires h.start.Some? && h.start.value.pos <= n < |l.order| && Ready(l, h, n)
    ensures h.start.value.pos <= i <= n && Ready(l, h, i)
    ensures forall j :: h.start.value.pos <= j < i ==> !Ready(l, h, j)
    decreases n
  {
    i := n;
    if j :| h.start.value.pos <= j < n && Ready(l, h, j) {
      i := FirstReady(l, h, j);
    }
  }

  /** A ready extension is not affected by a handler whose affected extensions are all down. */
  lemma ReadyIsNotAffected(l: Layout, h: Host, i: nat)
    requires l.Valid() && UpInv(l, h) && NothingAffectedRuns(h) && h.start.Some? && h.start.value.pos <= i < |l.order|
    requires Ready(l, h, i)
    ensures !IsAffected(h, l.order[i])
  {
    hide Affected, DependenciesRunning;
    var x := l.order[i];
    forall owner | owner in h.crashes
      ensures x !in h.crashes[owner].affected
    {
      HandlerOk(l, h, owner);
      if x in h.crashes[owner].affected && x != owner {
        AffectedIsNotReady(l, h, owner, x);
      }
    }
  }

  /** From where the stop has passed the extension the start loop is at, the start brings it up. */
  lemma ComesUp(l: Layout, h: Host) returns (es: seq<Event>, h': Host)
    requires h.start.Some? && h.start.value.pos < |l.order|
    requires DependenciesRunning(l, h.status, l.order[h.start.value.pos])
    requires if h.start.value.pc == Next
             then StatusOf(h.status, l.order[h.start.value.pos]) == Loaded && !IsAffected(h, l.order[h.start.value.pos])
             else h.start.value.pc.Awaiting? && StatusOf(h.status, l.order[h.start.value.pos]) != Blocked
    ensures Goes(l, h, es, h') && h'.stop == h.stop && IsRunning(h'.status, l.order[h.start.value.pos])
  {
    hide Goes;
    var x := l.order[h.start.value.pos];
    if h.start.value.pc == Next {
      var h1 := Step(l, h, StartNext).value;
      StatusSet(h.status, x, Starting);
      DependenciesStay(l, h.status, h1.status, x);
      es, h' := Checkpoints(l, h1);
      GoesFirst(l, h, StartNext, h1, es, h');
      es := [StartNext] + es;
    } else {
      es, h' := Checkpoints(l, h);
    }
  }

  /** Behind the start loop, or at it before it runs, nothing runs. */
  lemma NothingRunsAhead(l: Layout, h: Host, i: nat)
    requires l.Valid() && UpInv(l, h) && h.start.Some? && h.start.value.pos <= i < |l.order|
    ensures !IsRunning(h.status, l.order[i])
  {
    AheadOf(l, h.start.value.pos, i);
  }

  lemma SweptKeepsRunning(l: Layout, h: Host, h2: Host, i: nat)
    requires l.Valid() && i < |l.order|
    requires forall y :: y !in l.order[i..] ==> StatusOf(h2.status, y) == StatusOf(h.status, y)
    requires forall y :: y in l.order[i..] ==> StatusOf(h2.status, y) == Swept(l, h, y) && !IsRunning(h.status, y)
    ensures SameRunning(h, h2)
  {
    forall y
      ensures IsRunning(h2.status, y) <==> IsRunning(h.status, y)
    {
      if y in l.order[i..] {
      } else {
      }
    }
  }

  lemma NotReadySwept(l: Layout, h: Host, h2: Host, i: nat, j: nat)
    requires l.Valid() && h.start.Some? && h2.start == h.start && h.start.value.pos <= j < i < |l.order|
             && !Ready(l, h, j)
    requires SameRunning(h, h2)
    requires forall y :: y !in l.order[i..] ==>
               StatusOf(h2.status, y) == StatusOf(h.status, y) && (y in h2.started <==> y in h.started)
    ensures !Ready(l, h2, j)
  {
    assert l.order[j] !in l.order[i..];
    if DependenciesRunning(l, h2.status, l.order[j]) {
      DependenciesStay(l, h2.status, h.status, l.order[j]);
    }
  }

  /** A stop that begins while a start still has something to bring up can pass it by and end with it running. */
  lemma StopDuringStart(l: Layout, h: Host, n: nat) returns (es: seq<Event>, h': Host)
    requires l.Valid() && UpInv(l, h) && NothingAffectedRuns(h)
    requires h.start.Some? && h.start.value.pos <= n < |l.order| && Ready(l, h, n)
    ensures Goes(l, Step(l, h, StopBegins).value, es, h') && !Sound(l, h')
  {
    hide Goes;
    var i := FirstReady(l, h, n);
    var x := l.order[i];
    var StartTask(pos, pc) := h.start.value;
    var h1 := Step(l, h, StopBegins).value;
    ReadyIsNotAffected(l, h, i);
    forall j | i <= j < |l.order|
      ensures !IsRunning(h.status, l.order[j])
    {
      NothingRunsAhead(l, h, j);
    }
    if pc != Next {
      AtCheckpoint(l, h);
    }
    hide UpInv, Step, NothingAffectedRuns;
    var es1, h2 := SweepTo(l, h1, |l.order|, i);
    assert l.order[i..|l.order|] == l.order[i..];
    assert x in l.order[i..] by { assert l.order[i..][0] == x; }
    SweptKeepsRunning(l, h1, h2, i);
    forall j | pos <= j < i
      ensures !Ready(l, h2, j)
    {
      NotReadySwept(l, h, h2, i, j);
    }
    DependenciesStay(l, h.status, h2.status, x);
    var es2, h3 := [], h2;
    if pos < i {
      es2, h3 := StartWalks(l, h2, i);
      DependenciesStay(l, h2.status, h3.status, x);
    } else {
      GoesNowhere(l, h2);
    }
    hide DependenciesRunning;
    var es3, h4 := ComesUp(l, h3);
    NotInPrefix(l, i, x);
    var es4;
    es4, h' := StopSweeps(l, h4, i, x);
    GoesOn2(l, h1, es1, h2, es2, h3);
    GoesOn2(l, h1, es1 + es2, h3, es3, h4);
    GoesOn2(l, h1, es1 + es2 + es3, h4, es4, h');
    es := es1 + es2 + es3 + es4;
  }

  // ----- the exact condition -----

  /** A step that is not safe has an orderly continuation to an unsound host. */
  lemma UnsafeGoesWrong(l: Layout, h: Host, e: Event) returns (es: seq<Event>, h': Host)
    requires l.Valid() && Inv(l, h) && Lifecycle(h, e) && Step(l, h, e).Some? && !Safe(l, h, e)
    ensures Goes(l, Step(l, h, e).value, es, h') && !Sound(l, h')
  {
    hide Goes;
    if e == StartNext {
      assert UpInv(l, h) by {
        if DownInv(l, h) {
          SpentNow(l, h);
        }
      }
      var owner :| owner in h.crashes && l.order[h.start.value.pos] in h.crashes[owner].affected;
      es, h' := StartInCrashWindow(l, h, owner);
    } else if !NothingAffectedRuns(h) {
      var owner, a :| owner in h.crashes && a in h.crashes[owner].affected && IsRunning(h.status, a);
      es, h' := StopInCrashWindow(l, h, owner, a);
    } else {
      var n :| h.start.value.pos <= n < |l.order| && Ready(l, h, n);
      es, h' := StopDuringStart(l, h, n);
    }
  }

  /** Every orderly continuation keeps what runs supported, and what is stopped quiet. */
  ghost predicate StaysSound(l: Layout, h: Host) {
    forall es :: OrderlyRun(l, h, es) ==> Run(l, h, es).Some? && Sound(l, Run(l, h, es).value)
  }

  lemma InvStaysSound(l: Layout, h: Host)
    requires l.Valid() && Inv(l, h)
    ensures StaysSound(l, h)
  {
    hide Inv, Sound;
    forall es | OrderlyRun(l, h, es)
      ensures Run(l, h, es).Some? && Sound(l, Run(l, h, es).value)
    {
      RunKeeps(l, h, es);
      InvIsSound(l, Run(l, h, es).value);
    }
  }

  lemma GoesUnsound(l: Layout, h: Host, es: seq<Event>, h': Host)
    requires Goes(l, h, es, h') && !Sound(l, h')
    ensures !StaysSound(l, h)
  {
    hide Sound;
    assert OrderlyRun(l, h, es) && Run(l, h, es) == Some(h');
  }

  /** In every state of an orderly run, a step that the life cycle allows is safe if and only if the host stays
      sound after it. */
  lemma SafeExactly(l: Layout, h: Host, e: Event)
    requires l.Valid() && Inv(l, h) && Lifecycle(h, e) && Step(l, h, e).Some?
    ensures Safe(l, h, e) <==> StaysSound(l, Step(l, h, e).value)
  {
    hide Inv, Sound, Safe, Step, Lifecycle, Goes, StaysSound;
    if Safe(l, h, e) {
      StepKeeps(l, h, e);
      InvStaysSound(l, Step(l, h, e).value);
    } else {
      var es, h' := UnsafeGoesWrong(l, h, e);
      GoesUnsound(l, Step(l, h, e).value, es, h');
    }
  }
}
