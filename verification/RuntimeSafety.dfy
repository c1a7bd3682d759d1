/**
 When the dependencies of a running extension stay up: which steps are orderly, and what the steps of starting and
 crashing keep until a stop begins.
 */
module RuntimeSafety {
  import opened Outcomes
  import opened Extensions
  import opened RuntimeMachine

  // ----- orderly steps -----

  /** A crash handler in progress will take this extension down, if it runs. */
  predicate IsAffected(h: Host, x: Id) {
    exists owner :: owner in h.crashes && x in h.crashes[owner].affected
  }

  /** How the two entry points are used: `start` on a host at rest, `stop` once on a host that was started. */
  predicate Lifecycle(h: Host, e: Event) {
    match e
    case StartBegins => !h.runtime && h.start.None? && h.stop.None? && h.crashes == map[]
    case StopBegins => h.runtime && h.stop.None?
    case _ => true
  }

  /** Nothing stands between the extension at `i` and RUNNING but the start loop getting there: its dependencies run,
      and it is loaded, or a stop would put it back to LOADED; or it is being started and not refused for good. */
  predicate Ready(l: Layout, h: Host, i: nat)
    requires h.start.Some? && i < |l.order|
  {
    DependenciesRunning(l, h.status, l.order[i]) && MayPass(l, h, i)
  }

  predicate MayPass(l: Layout, h: Host, i: nat)
    requires h.start.Some? && i < |l.order|
  {
    var x := l.order[i];
    if i == h.start.value.pos && h.start.value.pc != Next
    then h.start.value.pc.Awaiting? && (StatusOf(h.status, x) == Blocked ==> x in h.started || x in l.registered)
    else StatusOf(h.status, x) == Loaded || x in h.started || (x in l.registered && StatusOf(h.status, x) == Blocked)
  }

  predicate NothingReady(l: Layout, h: Host) {
    h.start.Some? ==> forall i :: h.start.value.pos <= i < |l.order| ==> !Ready(l, h, i)
  }

  predicate NothingAffectedRuns(h: Host) {
    forall owner, x :: owner in h.crashes && x in h.crashes[owner].affected ==> !IsRunning(h.status, x)
  }

  /** What a step has to wait for: no extension begins to start while a crash handler that affects it is in progress;
      and no stop begins while a crash handler still has something to take down, or a start something to bring up. */
  predicate Safe(l: Layout, h: Host, e: Event) {
    match e
    case StartNext =>
      (h.start.Some? && h.start.value.pos < |l.order|
       && StatusOf(h.status, l.order[h.start.value.pos]) == Loaded
       && DependenciesRunning(l, h.status, l.order[h.start.value.pos]))
      ==> !IsAffected(h, l.order[h.start.value.pos])
    case StopBegins => NothingAffectedRuns(h) && NothingReady(l, h)
    case _ => true
  }

  predicate Orderly(l: Layout, h: Host, e: Event) {
    Lifecycle(h, e) && Safe(l, h, e)
  }

  // ----- the invariant of a host that is up -----

  /** Every direct dependency of a running extension is running. */
  ghost predicate Supported(l: Layout, status: map<Id, Status>) {
    forall x :: IsRunning(status, x) ==> DependenciesRunning(l, status, x)
  }

  /** `x` comes after all its dependencies in the order. */
  ghost predicate Placed(l: Layout, x: Id) {
    exists i :: 0 <= i < |l.order| && l.order[i] == x && forall d :: d in Deps(l.graph, x) ==> d in l.order[..i]
  }

  ghost predicate Ordered(l: Layout, status: map<Id, Status>) {
    forall x :: IsRunning(status, x) || IsStarting(status, x) ==> Placed(l, x)
  }

  /** Only the extension the start loop is at is starting. */
  ghost predicate OneStarts(l: Layout, h: Host) {
    forall x :: IsStarting(h.status, x) ==>
      && h.start.Some? && h.start.value.pc != Next
      && h.start.value.pos < |l.order| && l.order[h.start.value.pos] == x
  }

  /** Whatever runs or crashes is behind the start loop. */
  ghost predicate Behind(l: Layout, h: Host) {
    h.start.Some? ==>
      var pos := h.start.value.pos;
      && pos <= |l.order|
      && (forall x :: IsRunning(h.status, x) ==> x in l.order[..pos])
      && (forall owner :: owner in h.crashes ==> owner in l.order[..pos])
      && (forall owner :: owner in h.crashes && h.crashes[owner].pc.Stopping? ==> h.crashes[owner].pc.pos < pos)
  }

  ghost predicate CurrentOk(l: Layout, h: Host) {
    h.start.Some? && h.start.value.pc != Next ==>
      var StartTask(pos, pc) := h.start.value;
      && pos < |l.order| && !IsRunning(h.status, l.order[pos])
      && (pc.Awaiting? ==> IsStarting(h.status, l.order[pos]) || StatusOf(h.status, l.order[pos]) == Blocked)
      && (pc == CleaningBlocked ==> !IsStarting(h.status, l.order[pos]))
      && (pc.Awaiting? && pc.stage >= 2 ==> l.order[pos] in h.started)
  }

  /** `x` is no longer registered as started because this handler is deactivating it. */
  ghost predicate Tears(l: Layout, owner: Id, c: Crash, x: Id) {
    match c.pc
    case Stopping(pos) => pos < |l.order| && l.order[pos] == x
    case Degrading => owner == x
    case Scanning(_) => false
  }

  ghost predicate BeingTorn(l: Layout, h: Host, x: Id) {
    exists owner :: owner in h.crashes && Tears(l, owner, h.crashes[owner], x)
  }

  /** Extensions the handler of `owner` has finished with: those from `pos` on. */
  ghost predicate CrashDone(l: Layout, status: map<Id, Status>, owner: Id, affected: set<Id>, pos: nat)
    requires pos <= |l.order|
  {
    forall i :: pos <= i < |l.order| && l.order[i] in affected && l.order[i] != owner ==> !IsRunning(status, l.order[i])
  }

  /** A crash handler knows all that is affected, and nothing it has finished with runs. */
  ghost predicate CrashOk(l: Layout, status: map<Id, Status>, started: set<Id>, owner: Id, c: Crash) {
    var Crash(affected, pc) := c;
    && affected == Affected(l, owner, |l.order|)
    && owner in l.order
    && (forall x :: IsStarting(status, x) ==> x !in affected)
    && (forall x :: Tears(l, owner, c, x) ==> x !in started)
    && match pc
       case Scanning(pos) => pos <= |l.order| && CrashDone(l, status, owner, affected, pos)
       case Stopping(pos) =>
         && pos < |l.order| && l.order[pos] in affected && l.order[pos] != owner && owner in l.order[..pos]
         && CrashDone(l, status, owner, affected, pos + 1)
       case Degrading => CrashDone(l, status, owner, affected, 0)
  }

  ghost predicate CrashesOk(l: Layout, h: Host) {
    forall owner :: owner in h.crashes ==> CrashOk(l, h.status, h.started, owner, h.crashes[owner])
  }

  /** A running extension is registered as started, or about to be taken down. */
  ghost predicate Registered(l: Layout, h: Host) {
    forall x :: IsRunning(h.status, x) ==> x in h.started || BeingTorn(l, h, x)
  }

  ghost predicate UpInv(l: Layout, h: Host) {
    && h.runtime && h.stop.None?
    && Supported(l, h.status) && Ordered(l, h.status)
    && OneStarts(l, h) && Behind(l, h) && CurrentOk(l, h) && CrashesOk(l, h) && Registered(l, h)
  }

  // ----- the affected set -----

  lemma {:induction false} AffectedGrows(l: Layout, owner: Id, m: nat, n: nat)
    requires m <= n <= |l.order|
    ensures owner in Affected(l, owner, m) && Affected(l, owner, m) <= Affected(l, owner, n)
    decreases n
  {
    if m < n {
      AffectedGrows(l, owner, m, n - 1);
    } else if m > 0 {
      AffectedGrows(l, owner, m - 1, m - 1);
    }
  }

  /** An affected extension other than the owner was added when the pass came to it. */
  lemma {:induction false} AddedInItsTurn(l: Layout, owner: Id, n: nat, x: Id) returns (i: nat)
    requires l.Valid() && n <= |l.order| && x in Affected(l, owner, n) && x != owner
    ensures i < n && l.order[i] == x
    ensures exists d :: d in Deps(l.graph, x) && d in Affected(l, owner, i)
    decreases n
  {
    if x in Affected(l, owner, n - 1) {
      i := AddedInItsTurn(l, owner, n - 1, x);
    } else {
      i := n - 1;
    }
  }

  /** What depends on an affected extension earlier in the order is affected. */
  lemma AffectedIsClosed(l: Layout, owner: Id, j: nat, x: Id)
    requires l.Valid() && j < |l.order|
    requires x in Affected(l, owner, |l.order|) && x in l.order[..j] && x in Deps(l.graph, l.order[j])
    ensures l.order[j] in Affected(l, owner, |l.order|)
  {
    AffectedGrows(l, owner, 0, j);
    if x != owner {
      var i := AddedInItsTurn(l, owner, |l.order|, x);
      AffectedGrows(l, owner, i + 1, j);
    }
    AffectedGrows(l, owner, j + 1, |l.order|);
  }

  /** A running affected extension comes after the owner in the order. */
  lemma {:induction false} AffectedComesAfter(l: Layout, status: map<Id, Status>, owner: Id, i: nat)
    requires l.Valid() && Supported(l, status) && Ordered(l, status)
    requires i < |l.order| && l.order[i] in Affected(l, owner, |l.order|) && l.order[i] != owner
    requires IsRunning(status, l.order[i])
    ensures owner in l.order[..i]
    decreases i
  {
    var k := AddedInItsTurn(l, owner, |l.order|, l.order[i]);
    var d :| d in Deps(l.graph, l.order[i]) && d in Affected(l, owner, k);
    assert IsRunning(status, d) && Placed(l, l.order[i]);
    assert d in l.order[..i];
    if d != owner {
      var j :| 0 <= j < i && l.order[j] == d;
      AffectedGrows(l, owner, k, |l.order|);
      AffectedComesAfter(l, status, owner, j);
    }
  }

  lemma {:induction false} AffectedReaches(l: Layout, owner: Id, n: nat, x: Id)
    requires l.Valid() && n <= |l.order| && x in Affected(l, owner, n)
    ensures Reaches(l.graph, x, owner)
    decreases n
  {
    if x == owner {
      ReachesItself(l.graph, owner);
    } else {
      var i := AddedInItsTurn(l, owner, n, x);
      var d :| d in Deps(l.graph, x) && d in Affected(l, owner, i);
      AffectedReaches(l, owner, i, d);
      ReachesThrough(l.graph, x, d, owner);
    }
  }

  lemma {:induction false} PathIsAffected(l: Layout, status: map<Id, Status>, owner: Id, p: seq<Id>)
    requires l.Valid() && Supported(l, status) && Ordered(l, status)
    requires IsPath(l.graph, p) && p[|p| - 1] == owner && IsRunning(status, p[0])
    ensures p[0] in Affected(l, owner, |l.order|)
    decreases |p|
  {
    AffectedGrows(l, owner, 0, |l.order|);
    if |p| >= 2 {
      PathIsAffected(l, status, owner, p[1..]);
      assert Placed(l, p[0]);
      var i :| 0 <= i < |l.order| && l.order[i] == p[0] && forall d :: d in Deps(l.graph, p[0]) ==> d in l.order[..i];
      AffectedIsClosed(l, owner, i, p[1]);
    }
  }

  /** The single pass finds exactly the running extensions that depend on the owner, however indirectly. */
  lemma AffectedIsComplete(l: Layout, status: map<Id, Status>, owner: Id, x: Id)
    requires l.Valid() && Supported(l, status) && Ordered(l, status) && IsRunning(status, x)
    ensures x in Affected(l, owner, |l.order|) <==> Reaches(l.graph, x, owner)
  {
    if x in Affected(l, owner, |l.order|) {
      AffectedReaches(l, owner, |l.order|, x);
    } else if Reaches(l.graph, x, owner) {
      var p :| IsPath(l.graph, p) && p[0] == x && p[|p| - 1] == owner;
      PathIsAffected(l, status, owner, p);
    }
  }

  // ----- changing one status -----

  lemma StatusSetAt(status: map<Id, Status>, x: Id, s: Status, y: Id)
    ensures IsRunning(status[x := s], y) <==> if y == x then s == Running else IsRunning(status, y)
    ensures IsStarting(status[x := s], y) <==> if y == x then s == Starting else IsStarting(status, y)
  {
  }

  lemma StatusSet(status: map<Id, Status>, x: Id, s: Status)
    ensures forall y :: IsRunning(status[x := s], y) <==> if y == x then s == Running else IsRunning(status, y)
    ensures forall y :: IsStarting(status[x := s], y) <==> if y == x then s == Starting else IsStarting(status, y)
  {
    forall y
      ensures IsRunning(status[x := s], y) <==> if y == x then s == Running else IsRunning(status, y)
      ensures IsStarting(status[x := s], y) <==> if y == x then s == Starting else IsStarting(status, y)
    {
      StatusSetAt(status, x, s, y);
    }
  }

  /** An extension nothing running depends on may leave RUNNING. */
  lemma Lowered(l: Layout, status: map<Id, Status>, x: Id, s: Status)
    requires Supported(l, status) && Ordered(l, status) && s != Running
    requires s == Starting ==> Placed(l, x)
    requires IsRunning(status, x) ==> forall y :: IsRunning(status, y) && y != x ==> x !in Deps(l.graph, y)
    requires x !in Deps(l.graph, x) || !IsRunning(status, x)
    ensures Supported(l, status[x := s]) && Ordered(l, status[x := s])
  {
    StatusSet(status, x, s);
    var after := status[x := s];
    forall y | IsRunning(after, y)
      ensures DependenciesRunning(l, after, y)
    {
      assert IsRunning(status, y) && DependenciesRunning(l, status, y);
    }
  }

  lemma Raised(l: Layout, status: map<Id, Status>, x: Id)
    requires Supported(l, status) && Ordered(l, status)
    requires DependenciesRunning(l, status, x) && Placed(l, x)
    ensures Supported(l, status[x := Running]) && Ordered(l, status[x := Running])
  {
    StatusSet(status, x, Running);
    var after := status[x := Running];
    forall y | IsRunning(after, y)
      ensures DependenciesRunning(l, after, y)
    {
      assert DependenciesRunning(l, status, y);
    }
  }

  /** Nothing running depends on an extension once all its dependents later in the order are down. */
  lemma NoRunningDependent(l: Layout, status: map<Id, Status>, i: nat)
    requires l.Valid() && Ordered(l, status) && i < |l.order|
    requires forall j :: i < j < |l.order| && l.order[i] in Deps(l.graph, l.order[j]) ==> !IsRunning(status, l.order[j])
    ensures forall y :: IsRunning(status, y) ==> l.order[i] !in Deps(l.graph, y)
  {
    forall y | IsRunning(status, y)
      ensures l.order[i] !in Deps(l.graph, y)
    {
      assert Placed(l, y);
      var j :| 0 <= j < |l.order| && l.order[j] == y && forall d :: d in Deps(l.graph, y) ==> d in l.order[..j];
      if l.order[i] in l.order[..j] {
        var k :| 0 <= k < j && l.order[k] == l.order[i];
        assert i == k;
      }
    }
  }

  // ----- one status or one task changes -----

  /** The statuses of a host, but for one extension, which runs and starts only as given. */
  ghost predicate OnlyAt(before: map<Id, Status>, after: map<Id, Status>, x: Id, s: Status) {
    && (forall y :: IsRunning(after, y) <==> if y == x then s == Running else IsRunning(before, y))
    && (forall y :: IsStarting(after, y) <==> if y == x then s == Starting else IsStarting(before, y))
  }

  lemma SetOnlyAt(status: map<Id, Status>, x: Id, s: Status)
    ensures OnlyAt(status, status[x := s], x, s)
  {
    StatusSet(status, x, s);
  }

  /** No crash handler is disturbed when nothing affected starts or runs that did not before. */
  lemma HandlerFrame(l: Layout, status: map<Id, Status>, started: set<Id>, status': map<Id, Status>, started': set<Id>,
                     owner: Id, c: Crash)
    requires CrashOk(l, status, started, owner, c)
    requires forall y :: IsRunning(status', y) && !IsRunning(status, y) ==> y !in c.affected
    requires forall y :: IsStarting(status', y) && !IsStarting(status, y) ==> y !in c.affected
    requires forall y :: y in started' && y !in started ==> !Tears(l, owner, c, y)
    ensures CrashOk(l, status', started', owner, c)
  {
  }

  lemma HandlersFrame(l: Layout, h: Host, h': Host)
    requires CrashesOk(l, h) && h'.crashes == h.crashes
    requires forall y :: IsRunning(h'.status, y) && !IsRunning(h.status, y) ==> !IsAffected(h, y)
    requires forall y :: IsStarting(h'.status, y) && !IsStarting(h.status, y) ==> !IsAffected(h, y)
    requires forall y :: y in h'.started && y !in h.started ==> !BeingTorn(l, h, y)
    ensures CrashesOk(l, h')
  {
    hide CrashOk, Tears;
    forall owner | owner in h'.crashes
      ensures CrashOk(l, h'.status, h'.started, owner, h'.crashes[owner])
    {
      var c := h.crashes[owner];
      assert CrashOk(l, h.status, h.started, owner, c);
      HandlerFrame(l, h.status, h.started, h'.status, h'.started, owner, c);
    }
  }

  lemma RegisteredFrame(l: Layout, h: Host, h': Host, x: Id)
    requires Registered(l, h) && h'.crashes == h.crashes
    requires forall y :: IsRunning(h'.status, y) && y != x ==> IsRunning(h.status, y)
    requires h'.started - {x} == h.started - {x}
    requires IsRunning(h'.status, x) ==> x in h'.started
    ensures Registered(l, h')
  {
    hide Tears;
    forall y | IsRunning(h'.status, y)
      ensures y in h'.started || BeingTorn(l, h', y)
    {
      if y != x && y !in h'.started {
        assert y !in h'.started - {x};
        assert BeingTorn(l, h, y);
      }
    }
  }

  lemma UpParts(l: Layout, h: Host)
    requires UpInv(l, h)
    ensures h.runtime && h.stop.None?
    ensures Supported(l, h.status) && Ordered(l, h.status)
    ensures OneStarts(l, h) && Behind(l, h) && CurrentOk(l, h) && CrashesOk(l, h) && Registered(l, h)
  {
  }

  /** What a handler is tearing down is behind the start loop. */
  lemma TornIsBehind(l: Layout, h: Host, x: Id)
    requires Behind(l, h) && h.start.Some? && BeingTorn(l, h, x)
    ensures x in l.order[..h.start.value.pos]
  {
    var owner :| owner in h.crashes && Tears(l, owner, h.crashes[owner], x);
    var pos := h.start.value.pos;
    match h.crashes[owner].pc
    case Stopping(k) => assert l.order[..pos][k] == x;
    case _ =>
  }

  lemma NotBehind(l: Layout, i: nat)
    requires l.Valid() && i < |l.order|
    ensures l.order[i] !in l.order[..i]
  {
  }

  // ----- every orderly step of a start keeps the invariant -----

  /** The extension the start loop is at comes after all running ones, so its running dependencies are before it. */
  lemma StartIsPlaced(l: Layout, h: Host)
    requires l.Valid() && Behind(l, h) && h.start.Some? && h.start.value.pos < |l.order|
    requires DependenciesRunning(l, h.status, l.order[h.start.value.pos])
    ensures Placed(l, l.order[h.start.value.pos])
  {
    forall d | d in Deps(l.graph, l.order[h.start.value.pos])
      ensures d in l.order[..h.start.value.pos]
    {
      assert IsRunning(h.status, d);
    }
  }

  /** Where the start loop may go from its present extension `x`, once that has status `s`. */
  ghost predicate MayGo(h: Host, x: Id, s: Status, task: StartTask, started: set<Id>)
    requires h.start.Some?
  {
    && started - {x} == h.started - {x}
    && (s == Running ==> x in started)
    && if task.pc == Next then task.pos == h.start.value.pos + 1 && s != Starting
       else
         && task.pos == h.start.value.pos && s != Running
         && (task.pc.Awaiting? ==> (s == Starting || s == Blocked) && (task.pc.stage >= 2 ==> x in started))
         && (task.pc == CleaningBlocked ==> s != Starting)
  }

  lemma OnlyItIsRegistered(h: Host, x: Id, s: Status, task: StartTask, started: set<Id>)
    requires h.start.Some? && MayGo(h, x, s, task, started)
    ensures forall y :: y in started && y !in h.started ==> y == x
  {
    forall y | y in started && y != x
      ensures y in h.started
    {
      assert y in started - {x};
    }
  }

  /** The start loop moves, and its present extension has a status it may move with. */
  lemma StartTaskMoves(l: Layout, h: Host, h': Host, x: Id, s: Status)
    requires l.Valid() && h.start.Some? && h.start.value.pos < |l.order| && x == l.order[h.start.value.pos]
    requires OneStarts(l, h) && Behind(l, h) && h'.start.Some? && h'.crashes == h.crashes
    requires OnlyAt(h.status, h'.status, x, s) && StatusOf(h'.status, x) == s
    requires MayGo(h, x, s, h'.start.value, h'.started)
    ensures OneStarts(l, h') && Behind(l, h') && CurrentOk(l, h')
  {
    var pos := h.start.value.pos;
    assert l.order[..pos + 1] == l.order[..pos] + [x];
    forall y | IsStarting(h'.status, y)
      ensures h'.start.value.pc != Next && y == x
    {
      assert y != x ==> IsStarting(h.status, y);
    }
  }

  /** The start loop moves on without a status changing. */
  lemma StartMoves(l: Layout, h: Host, task: StartTask, started: set<Id>)
    requires l.Valid() && UpInv(l, h) && h.start.Some? && h.start.value.pos < |l.order|
    requires var x := l.order[h.start.value.pos];
             MayGo(h, x, StatusOf(h.status, x), task, started)
               && (x in started || x !in h.started || !IsRunning(h.status, x))
    ensures UpInv(l, h.(start := Some(task), started := started))
  {
    hide CrashesOk, Registered, Supported, Ordered, OneStarts, Behind, CurrentOk, MayGo;
    var x := l.order[h.start.value.pos];
    var h' := h.(start := Some(task), started := started);
    UpParts(l, h);
    StartTaskMoves(l, h, h', x, StatusOf(h.status, x));
    OnlyItIsRegistered(h, x, StatusOf(h.status, x), task, started);
    StartKeepsHandlers(l, h, h', x);
    StartKeepsRegistered(l, h, h', x, StatusOf(h.status, x), task);
  }

  lemma StartKeepsHandlers(l: Layout, h: Host, h': Host, x: Id)
    requires l.Valid() && Behind(l, h) && CrashesOk(l, h) && h'.crashes == h.crashes
    requires h.start.Some? && h.start.value.pos < |l.order| && x == l.order[h.start.value.pos]
    requires forall y :: IsRunning(h'.status, y) && !IsRunning(h.status, y) ==> !IsAffected(h, y)
    requires forall y :: IsStarting(h'.status, y) && !IsStarting(h.status, y) ==> !IsAffected(h, y)
    requires forall y :: y in h'.started && y !in h.started ==> y == x
    ensures CrashesOk(l, h')
  {
    hide CrashesOk;
    NotBehind(l, h.start.value.pos);
    if BeingTorn(l, h, x) {
      TornIsBehind(l, h, x);
    }
    HandlersFrame(l, h, h');
  }

  lemma StartKeepsRegistered(l: Layout, h: Host, h': Host, x: Id, s: Status, task: StartTask)
    requires Registered(l, h) && h'.crashes == h.crashes && h.start.Some?
    requires OnlyAt(h.status, h'.status, x, s) && MayGo(h, x, s, task, h'.started)
    ensures Registered(l, h')
  {
    RegisteredFrame(l, h, h', x);
  }

  /** The start loop gives the extension it is at a status. */
  lemma StartSets(l: Layout, h: Host, s: Status, task: StartTask, started: set<Id>)
    requires l.Valid() && UpInv(l, h) && h.start.Some? && h.start.value.pos < |l.order|
    requires !IsRunning(h.status, l.order[h.start.value.pos])
    requires s == Starting || s == Running ==>
               && DependenciesRunning(l, h.status, l.order[h.start.value.pos])
               && (s == Running ==> IsStarting(h.status, l.order[h.start.value.pos]))
               && (s == Starting ==> !IsAffected(h, l.order[h.start.value.pos]))
    requires MayGo(h, l.order[h.start.value.pos], s, task, started)
    ensures UpInv(l, SetStatus(h, l.order[h.start.value.pos], s).(start := Some(task), started := started))
  {
    hide CrashesOk, Registered, Supported, Ordered, OneStarts, Behind, CurrentOk, Placed, OnlyAt, MayGo;
    var x := l.order[h.start.value.pos];
    var h' := SetStatus(h, x, s).(start := Some(task), started := started);
    UpParts(l, h);
    SetOnlyAt(h.status, x, s);
    if s == Starting || s == Running {
      StartIsPlaced(l, h);
    }
    if s == Running {
      Raised(l, h.status, x);
    } else {
      Lowered(l, h.status, x, s);
    }
    StartTaskMoves(l, h, h', x, s);
    StartKeepsRegistered(l, h, h', x, s, task);
    OnlyItIsRegistered(h, x, s, task, started);
    StartSetsHandlers(l, h, h', x, s);
  }

  lemma StartSetsHandlers(l: Layout, h: Host, h': Host, x: Id, s: Status)
    requires l.Valid() && Behind(l, h) && CrashesOk(l, h) && h'.crashes == h.crashes
    requires h.start.Some? && h.start.value.pos < |l.order| && x == l.order[h.start.value.pos]
    requires OnlyAt(h.status, h'.status, x, s)
    requires s == Starting ==> !IsAffected(h, x)
    requires s == Running ==> IsStarting(h.status, x)
    requires forall y :: y in h'.started && y !in h.started ==> y == x
    ensures CrashesOk(l, h')
  {
    hide Behind;
    assert IsStarting(h.status, x) ==> !IsAffected(h, x);
    hide CrashesOk;
    StartKeepsHandlers(l, h, h', x);
  }

  lemma StartNextKeeps(l: Layout, h: Host)
    requires l.Valid() && UpInv(l, h) && Safe(l, h, StartNext) && Step(l, h, StartNext).Some?
    ensures UpInv(l, Step(l, h, StartNext).value)
  {
    hide UpInv;
    var pos := h.start.value.pos;
    if pos >= |l.order| {
      StartEnds(l, h);
    } else if StatusOf(h.status, l.order[pos]) != Loaded {
      NothingStartsAtNext(l, h);
      StartMoves(l, h, StartTask(pos + 1, Next), h.started);
    } else if DependenciesRunning(l, h.status, l.order[pos]) {
      StartSets(l, h, Starting, StartTask(pos, Awaiting(0)), h.started);
    } else {
      StartSets(l, h, Blocked, StartTask(pos + 1, Next), h.started);
    }
  }

  lemma NothingStartsAtNext(l: Layout, h: Host)
    requires l.Valid() && UpInv(l, h) && h.start.Some? && h.start.value.pc == Next && h.start.value.pos < |l.order|
    ensures !IsStarting(h.status, l.order[h.start.value.pos]) && !IsRunning(h.status, l.order[h.start.value.pos])
  {
    NotBehind(l, h.start.value.pos);
  }

  lemma StartEnds(l: Layout, h: Host)
    requires l.Valid() && UpInv(l, h) && h.start.Some? && h.start.value.pc == Next && h.start.value.pos >= |l.order|
    ensures UpInv(l, Step(l, h, StartNext).value)
  {
    hide CrashOk, Tears;
    var h' := h.(start := None);
    HandlersFrame(l, h, h');
    forall x | IsRunning(h'.status, x)
      ensures x in h'.started || BeingTorn(l, h', x)
    {
      if x !in h'.started {
        assert BeingTorn(l, h, x);
      }
    }
  }

  /** The extension being started, at a checkpoint. */
  lemma AtCheckpoint(l: Layout, h: Host)
    requires UpInv(l, h) && h.start.Some? && h.start.value.pc != Next
    ensures h.start.value.pos < |l.order| && !IsRunning(h.status, l.order[h.start.value.pos])
    ensures var StartTask(pos, pc) := h.start.value;
            && (pc.Awaiting? ==> IsStarting(h.status, l.order[pos]) || StatusOf(h.status, l.order[pos]) == Blocked)
            && (pc == CleaningBlocked ==> !IsStarting(h.status, l.order[pos]))
            && (pc.Awaiting? && pc.stage >= 2 ==> l.order[pos] in h.started)
  {
  }

  lemma StartResumesKeeps(l: Layout, h: Host, ok: bool)
    requires l.Valid() && UpInv(l, h) && Step(l, h, StartResumes(ok)).Some?
    ensures UpInv(l, Step(l, h, StartResumes(ok)).value)
  {
    hide UpInv;
    AtCheckpoint(l, h);
    var StartTask(pos, pc) := h.start.value;
    var x := l.order[pos];
    if !ok {
      StartMoves(l, h, StartTask(pos, CleaningFailed), h.started - {x});
    } else if StatusOf(h.status, x) == Blocked || !DependenciesRunning(l, h.status, x) {
      StartSets(l, h, Blocked, StartTask(pos, CleaningBlocked), h.started - {x});
    } else if pc.stage < LAST_STAGE {
      StartMoves(l, h, StartTask(pos, Awaiting(pc.stage + 1)), if pc.stage == 1 then h.started + {x} else h.started);
    } else {
      StartSets(l, h, Running, StartTask(pos + 1, Next), h.started);
    }
  }

  lemma StartCleanedKeeps(l: Layout, h: Host, error: bool)
    requires l.Valid() && UpInv(l, h) && Step(l, h, StartCleaned(error)).Some?
    ensures UpInv(l, Step(l, h, StartCleaned(error)).value)
  {
    hide UpInv;
    AtCheckpoint(l, h);
    var StartTask(pos, pc) := h.start.value;
    var task := StartTask(pos + 1, Next);
    var h' := Step(l, h, StartCleaned(error)).value;
    if pc == CleaningFailed {
      assert h' == SetStatus(h, l.order[pos], Degraded).(start := Some(task), started := h.started);
      StartSets(l, h, Degraded, task, h.started);
    } else if error {
      assert h' == SetStatus(h, l.order[pos], Blocked).(start := Some(task), started := h.started);
      StartSets(l, h, Blocked, task, h.started);
    } else {
      assert h' == h.(start := Some(task), started := h.started);
      StartMoves(l, h, task, h.started);
    }
  }

  // ----- every step of a crash handler keeps the invariant -----

  lemma StartingBlocked(h: Host, affected: set<Id>, owner: Id)
    ensures forall y :: IsRunning(BlockStarting(h, affected, owner), y) <==> IsRunning(h.status, y)
    ensures forall y :: IsStarting(BlockStarting(h, affected, owner), y) <==>
              IsStarting(h.status, y) && (y == owner || y !in affected)
    ensures forall y :: StatusOf(BlockStarting(h, affected, owner), y) ==
              if y != owner && y in affected && IsStarting(h.status, y) then Blocked else StatusOf(h.status, y)
  {
  }

  /** Fewer extensions run, and the starting ones are as before or blocked. */
  lemma FewerRun(l: Layout, h: Host, h': Host)
    requires OneStarts(l, h) && CurrentOk(l, h) && h'.start == h.start
    requires forall y :: IsRunning(h'.status, y) ==> IsRunning(h.status, y)
    requires forall y :: IsStarting(h'.status, y) ==> IsStarting(h.status, y)
    requires h.start.Some? && h.start.value.pc.Awaiting? && h.start.value.pos < |l.order| ==>
               var x := l.order[h.start.value.pos];
               && (StatusOf(h'.status, x) == StatusOf(h.status, x) || StatusOf(h'.status, x) == Blocked)
               && (x in h.started ==> x in h'.started)
    ensures OneStarts(l, h') && CurrentOk(l, h')
  {
  }

  lemma CrashBeginsKeeps(l: Layout, h: Host, owner: Id)
    requires l.Valid() && UpInv(l, h) && Step(l, h, CrashBegins(owner)).Some?
    ensures UpInv(l, Step(l, h, CrashBegins(owner)).value)
  {
    hide Affected, BlockStarting, CrashOk, Supported, CrashesOk, Registered;
    var h' := Step(l, h, CrashBegins(owner)).value;
    UpParts(l, h);
    StartingBlocked(h, Affected(l, owner, |l.order|), owner);
    FewerRun(l, h, h');
    assert Placed(l, owner);
    CrashBeginsHandlers(l, h, owner);
    SameRun(l, h.status, h'.status);
    CrashBeginsRegistered(l, h, h', owner);
  }

  lemma SameRun(l: Layout, before: map<Id, Status>, after: map<Id, Status>)
    requires Supported(l, before)
    requires forall y :: IsRunning(after, y) <==> IsRunning(before, y)
    ensures Supported(l, after)
  {
    forall x | IsRunning(after, x)
      ensures DependenciesRunning(l, after, x)
    {
      assert DependenciesRunning(l, before, x);
    }
  }

  lemma CrashBeginsRegistered(l: Layout, h: Host, h': Host, owner: Id)
    requires Registered(l, h) && owner !in h.crashes && h'.started == h.started
    requires forall y :: IsRunning(h'.status, y) <==> IsRunning(h.status, y)
    requires forall o :: o in h.crashes ==> o in h'.crashes && h'.crashes[o] == h.crashes[o]
    ensures Registered(l, h')
  {
    hide Tears;
    forall x | IsRunning(h'.status, x)
      ensures x in h'.started || BeingTorn(l, h', x)
    {
      if x !in h.started {
        var o :| o in h.crashes && Tears(l, o, h.crashes[o], x);
        assert o in h'.crashes && h'.crashes[o] == h.crashes[o];
      }
    }
  }

  lemma CrashBeginsHandlers(l: Layout, h: Host, owner: Id)
    requires l.Valid() && CrashesOk(l, h) && Step(l, h, CrashBegins(owner)).Some? && owner in l.order
    ensures CrashesOk(l, Step(l, h, CrashBegins(owner)).value)
  {
    hide Affected;
    var h' := Step(l, h, CrashBegins(owner)).value;
    StartingBlocked(h, Affected(l, owner, |l.order|), owner);
    forall o | o in h'.crashes
      ensures CrashOk(l, h'.status, h'.started, o, h'.crashes[o])
    {
      if o != owner {
        HandlerFrame(l, h.status, h.started, h'.status, h'.started, o, h.crashes[o]);
      }
    }
  }

  /** One handler changes to `c`; the others stay, whatever it takes out of RUNNING and out of `started`. */
  lemma OtherHandlersStay(l: Layout, h: Host, h': Host, owner: Id, c: Crash)
    requires CrashesOk(l, h) && h'.crashes == h.crashes[owner := c]
    requires CrashOk(l, h'.status, h'.started, owner, c) && h'.started <= h.started
    requires forall y :: IsRunning(h'.status, y) ==> IsRunning(h.status, y)
    requires forall y :: IsStarting(h'.status, y) ==> IsStarting(h.status, y)
    ensures CrashesOk(l, h')
  {
    hide CrashOk, Tears;
    forall o | o in h'.crashes
      ensures CrashOk(l, h'.status, h'.started, o, h'.crashes[o])
    {
      if o != owner {
        assert CrashOk(l, h.status, h.started, o, h.crashes[o]);
        HandlerFrame(l, h.status, h.started, h'.status, h'.started, o, h.crashes[o]);
      }
    }
  }

  /** Moving one scanning handler without touching any status. */
  lemma CrashMoves(l: Layout, h: Host, owner: Id, c: Crash, started: set<Id>)
    requires l.Valid() && UpInv(l, h) && owner in h.crashes && h.crashes[owner].pc.Scanning?
    requires started <= h.started && CrashOk(l, h.status, started, owner, c)
    requires forall x :: x in h.started && x !in started ==> Tears(l, owner, c, x)
    requires c.pc.Stopping? ==> c.pc.pos < |l.order| && IsRunning(h.status, l.order[c.pc.pos])
    ensures UpInv(l, h.(crashes := h.crashes[owner := c], started := started))
  {
    hide CrashesOk, Supported, Ordered, CrashOk, Registered;
    var h' := h.(crashes := h.crashes[owner := c], started := started);
    OtherHandlersStay(l, h, h', owner, c);
    CrashMovesBehind(l, h, h', owner, c);
    CrashMovesRegistered(l, h, h', owner, c);
    CrashMovesStart(l, h, h', owner, c);
  }

  lemma CrashMovesBehind(l: Layout, h: Host, h': Host, owner: Id, c: Crash)
    requires l.Valid() && Behind(l, h) && owner in h.crashes && h'.crashes == h.crashes[owner := c]
    requires h'.status == h.status && h'.start == h.start
    requires c.pc.Stopping? ==> c.pc.pos < |l.order| && IsRunning(h.status, l.order[c.pc.pos])
    ensures Behind(l, h')
  {
    if c.pc.Stopping? && h.start.Some? {
      var pos := h.start.value.pos;
      var k :| 0 <= k < pos && l.order[k] == l.order[c.pc.pos];
    }
  }

  lemma CrashMovesRegistered(l: Layout, h: Host, h': Host, owner: Id, c: Crash)
    requires Registered(l, h) && owner in h.crashes && h.crashes[owner].pc.Scanning?
    requires h'.crashes == h.crashes[owner := c] && h'.status == h.status
    requires forall x :: x in h.started && x !in h'.started ==> Tears(l, owner, c, x)
    ensures Registered(l, h')
  {
    forall x | IsRunning(h'.status, x)
      ensures x in h'.started || BeingTorn(l, h', x)
    {
      if x in h.started && x !in h'.started {
        assert owner in h'.crashes && Tears(l, owner, h'.crashes[owner], x);
      } else if x !in h.started {
        var o :| o in h.crashes && Tears(l, o, h.crashes[o], x);
        assert o in h'.crashes && Tears(l, o, h'.crashes[o], x);
      }
    }
  }

  lemma CrashMovesStart(l: Layout, h: Host, h': Host, owner: Id, c: Crash)
    requires l.Valid() && OneStarts(l, h) && CurrentOk(l, h) && Behind(l, h) && owner in h.crashes
    requires h'.status == h.status && h'.start == h.start && h'.started <= h.started
    requires forall x :: x in h.started && x !in h'.started ==> Tears(l, owner, c, x)
    requires c.pc.Stopping? ==> c.pc.pos < |l.order| && IsRunning(h.status, l.order[c.pc.pos])
    ensures OneStarts(l, h') && CurrentOk(l, h')
  {
    if h.start.Some? && h.start.value.pc != Next {
      NotBehind(l, h.start.value.pos);
      assert owner in l.order[..h.start.value.pos];
      assert l.order[h.start.value.pos] != owner;
    }
  }

  lemma HandlerOk(l: Layout, h: Host, owner: Id)
    requires UpInv(l, h) && owner in h.crashes
    ensures CrashOk(l, h.status, h.started, owner, h.crashes[owner]) && Supported(l, h.status) && Ordered(l, h.status)
  {
    hide CrashOk;
  }

  lemma CrashScansKeeps(l: Layout, h: Host, owner: Id)
    requires l.Valid() && UpInv(l, h) && Step(l, h, CrashScans(owner)).Some?
    ensures UpInv(l, Step(l, h, CrashScans(owner)).value)
  {
    hide UpInv, Affected;
    HandlerOk(l, h, owner);
    var c := h.crashes[owner];
    var pos := c.pc.pos;
    if pos == 0 {
      CrashMoves(l, h, owner, c.(pc := Degrading), h.started - {owner});
    } else {
      var x := l.order[pos - 1];
      if x == owner || x !in c.affected || !IsRunning(h.status, x) {
        CrashMoves(l, h, owner, c.(pc := Scanning(pos - 1)), h.started);
      } else {
        AffectedComesAfter(l, h.status, owner, pos - 1);
        CrashMoves(l, h, owner, c.(pc := Stopping(pos - 1)), h.started - {x});
      }
    }
  }

  /** A crash handler takes `l.order[i]`, which it was waiting for, out of RUNNING, and goes on as `crashes` has it. */
  lemma CrashLowers(l: Layout, h: Host, owner: Id, i: nat, s: Status, crashes: map<Id, Crash>)
    requires l.Valid() && UpInv(l, h) && owner in h.crashes && i < |l.order| && s != Running && s != Starting
    requires Tears(l, owner, h.crashes[owner], l.order[i])
    requires crashes - {owner} == h.crashes - {owner}
    requires owner in crashes ==>
               && crashes[owner].pc.Scanning?
               && CrashOk(l, h.status[l.order[i] := s], h.started, owner, crashes[owner])
    requires forall j :: i < j < |l.order| && l.order[i] in Deps(l.graph, l.order[j]) ==>
               !IsRunning(h.status, l.order[j])
    ensures UpInv(l, SetStatus(h, l.order[i], s).(crashes := crashes))
  {
    hide CrashesOk, Supported, Ordered, CrashOk, Registered, Tears, OnlyAt, OneStarts, CurrentOk, Behind;
    var x := l.order[i];
    var h' := SetStatus(h, x, s).(crashes := crashes);
    UpParts(l, h);
    SetOnlyAt(h.status, x, s);
    NoRunningDependent(l, h.status, i);
    CrashLowersStatus(l, h.status, i, s);
    CrashLowersHandlers(l, h, h', owner, i, s);
    CrashLowersStart(l, h, h', owner, i, s);
  }

  lemma CrashLowersStatus(l: Layout, status: map<Id, Status>, i: nat, s: Status)
    requires l.Valid() && Supported(l, status) && Ordered(l, status) && i < |l.order| && s != Running && s != Starting
    requires forall y :: IsRunning(status, y) ==> l.order[i] !in Deps(l.graph, y)
    ensures Supported(l, status[l.order[i] := s]) && Ordered(l, status[l.order[i] := s])
  {
    Lowered(l, status, l.order[i], s);
  }

  lemma CrashLowersHandlers(l: Layout, h: Host, h': Host, owner: Id, i: nat, s: Status)
    requires CrashesOk(l, h) && Registered(l, h) && owner in h.crashes && i < |l.order| && s != Running && s != Starting
    requires Tears(l, owner, h.crashes[owner], l.order[i]) && OnlyAt(h.status, h'.status, l.order[i], s)
    requires h'.crashes - {owner} == h.crashes - {owner} && h'.started == h.started
    requires owner in h'.crashes ==> CrashOk(l, h'.status, h'.started, owner, h'.crashes[owner])
    ensures CrashesOk(l, h') && Registered(l, h')
  {
    hide CrashOk;
    forall o | o in h'.crashes
      ensures CrashOk(l, h'.status, h'.started, o, h'.crashes[o])
    {
      if o != owner {
        assert o in h'.crashes - {owner};
        assert CrashOk(l, h.status, h.started, o, h.crashes[o]);
        HandlerFrame(l, h.status, h.started, h'.status, h'.started, o, h.crashes[o]);
      }
    }
    forall y | IsRunning(h'.status, y)
      ensures y in h'.started || BeingTorn(l, h', y)
    {
      if y !in h.started {
        var o :| o in h.crashes && Tears(l, o, h.crashes[o], y);
        assert o in h.crashes - {owner};
        assert o in h'.crashes && Tears(l, o, h'.crashes[o], y);
      }
    }
  }

  lemma CrashLowersStart(l: Layout, h: Host, h': Host, owner: Id, i: nat, s: Status)
    requires l.Valid() && OneStarts(l, h) && CurrentOk(l, h) && Behind(l, h)
    requires owner in h.crashes && i < |l.order| && s != Running && s != Starting
    requires Tears(l, owner, h.crashes[owner], l.order[i])
    requires h' == SetStatus(h, l.order[i], s).(crashes := h'.crashes)
    requires h'.crashes - {owner} == h.crashes - {owner}
    requires owner in h'.crashes ==> h'.crashes[owner].pc.Scanning?
    ensures OneStarts(l, h') && CurrentOk(l, h') && Behind(l, h')
  {
    hide Tears, OneStarts, CurrentOk, BeingTorn;
    SetOnlyAt(h.status, l.order[i], s);
    assert BeingTorn(l, h, l.order[i]) by { TornBy(l, h, owner, l.order[i]); }
    if h.start.Some? {
      TornIsBehind(l, h, l.order[i]);
      if h.start.value.pos < |l.order| {
        NotBehind(l, h.start.value.pos);
      }
      forall o | o in h'.crashes && o != owner
        ensures o in h.crashes && h'.crashes[o] == h.crashes[o]
      {
        assert o in h'.crashes - {owner};
      }
    }
    FewerRun(l, h, h');
  }

  lemma TornBy(l: Layout, h: Host, owner: Id, x: Id)
    requires owner in h.crashes && Tears(l, owner, h.crashes[owner], x)
    ensures BeingTorn(l, h, x)
  {
  }

  lemma CrashResumesKeeps(l: Layout, h: Host, owner: Id)
    requires l.Valid() && UpInv(l, h) && Step(l, h, CrashResumes(owner)).Some?
    ensures UpInv(l, Step(l, h, CrashResumes(owner)).value)
  {
    hide UpInv, Affected, Supported, Ordered;
    HandlerOk(l, h, owner);
    var c := h.crashes[owner];
    if c.pc == Degrading {
      var i :| 0 <= i < |l.order| && l.order[i] == owner;
      forall j | i < j < |l.order| && owner in Deps(l.graph, l.order[j])
        ensures !IsRunning(h.status, l.order[j])
      {
        AffectedGrows(l, owner, 0, |l.order|);
        AffectedIsClosed(l, owner, j, owner);
      }
      CrashLowers(l, h, owner, i, Degraded, h.crashes - {owner});
    } else {
      var i := c.pc.pos;
      forall j | i < j < |l.order| && l.order[i] in Deps(l.graph, l.order[j])
        ensures !IsRunning(h.status, l.order[j])
      {
        AffectedIsClosed(l, owner, j, l.order[i]);
      }
      SetOnlyAt(h.status, l.order[i], Blocked);
      CrashLowers(l, h, owner, i, Blocked, h.crashes[owner := c.(pc := Scanning(i))]);
    }
  }
}
