/** What crashes and stops leave behind: the last status of every extension, whatever the interleaving. */
module RuntimeOutcomes {
  import opened Outcomes
  import opened Extensions
  import opened RuntimeMachine
  import opened RuntimeSafety
  import opened RuntimeStopping
  import opened RuntimeRuns

  // ----- a starting extension has its dependencies -----

  ghost predicate StartingSupported(l: Layout, status: map<Id, Status>) {
    forall x :: IsStarting(status, x) ==> DependenciesRunning(l, status, x)
  }

  lemma StartNextSupports(l: Layout, h: Host)
    requires l.Valid() && UpInv(l, h) && StartingSupported(l, h.status) && Step(l, h, StartNext).Some?
    ensures StartingSupported(l, Step(l, h, StartNext).value.status)
  {
    hide UpInv, DependenciesRunning, StartingSupported;
    if h.start.value.pos < |l.order| {
      var x := l.order[h.start.value.pos];
      SetSupports(l, h.status, x, if DependenciesRunning(l, h.status, x) then Starting else Blocked);
    }
  }

  lemma NothingStarts(l: Layout, h: Host)
    requires UpInv(l, h) && (h.start.None? || h.start.value.pc == Next)
    ensures forall y :: !IsStarting(h.status, y)
  {
  }

  /** What is not running can change without taking a dependency away. */
  lemma SetSupports(l: Layout, status: map<Id, Status>, x: Id, s: Status)
    requires StartingSupported(l, status) && (s == Starting ==> DependenciesRunning(l, status, x))
    ensures !IsRunning(status, x) ==> StartingSupported(l, status[x := s])
  {
    StatusSet(status, x, s);
    var after := status[x := s];
    if !IsRunning(status, x) {
      forall y | IsStarting(after, y)
        ensures DependenciesRunning(l, after, y)
      {
        assert DependenciesRunning(l, status, y);
      }
    }
  }

  lemma StartGoesOnSupports(l: Layout, h: Host, e: Event)
    requires l.Valid() && UpInv(l, h) && StartingSupported(l, h.status) && Step(l, h, e).Some?
    requires e.StartResumes? || e.StartCleaned?
    ensures StartingSupported(l, Step(l, h, e).value.status)
  {
    hide UpInv, DependenciesRunning, StartingSupported;
    AtTheLoop(l, h);
    var x := l.order[h.start.value.pos];
    SetSupports(l, h.status, x, Running);
    SetSupports(l, h.status, x, Blocked);
    SetSupports(l, h.status, x, Degraded);
  }

  lemma AtTheLoop(l: Layout, h: Host)
    requires UpInv(l, h) && h.start.Some? && h.start.value.pc != Next
    ensures h.start.value.pos < |l.order| && !IsRunning(h.status, l.order[h.start.value.pos])
  {
  }

  lemma CrashSupports(l: Layout, h: Host, e: Event)
    requires l.Valid() && UpInv(l, h) && StartingSupported(l, h.status) && OfCrash(e) && Step(l, h, e).Some?
    ensures StartingSupported(l, Step(l, h, e).value.status)
  {
    hide UpInv, Affected;
    match e
    case CrashBegins(owner) =>
      StartingBlocked(h, Affected(l, owner, |l.order|), owner);
    case CrashScans(_) =>
    case CrashResumes(owner) =>
      HandlerOk(l, h, owner);
      var c := h.crashes[owner];
      if c.pc == Degrading {
        AffectedGrows(l, owner, 0, |l.order|);
        LoweredSupports(l, h, owner, owner, Degraded);
      } else {
        LoweredSupports(l, h, owner, l.order[c.pc.pos], Blocked);
      }
  }

  /** Nothing that starts depends on what a handler takes down. */
  lemma LoweredSupports(l: Layout, h: Host, owner: Id, y: Id, s: Status)
    requires l.Valid() && UpInv(l, h) && StartingSupported(l, h.status) && owner in h.crashes && AffectedBy(l, owner, y)
    requires s != Starting
    ensures StartingSupported(l, h.status[y := s])
  {
    hide Affected, Supported, CurrentOk, Behind, Registered, OneStarts;
    StatusSet(h.status, y, s);
    var after := h.status[y := s];
    forall x | IsStarting(after, x)
      ensures DependenciesRunning(l, after, x)
    {
      assert CrashOk(l, h.status, h.started, owner, h.crashes[owner]);
      assert Placed(l, x) && DependenciesRunning(l, h.status, x);
      var i :| 0 <= i < |l.order| && l.order[i] == x && forall d :: d in Deps(l.graph, x) ==> d in l.order[..i];
      if y in Deps(l.graph, x) {
        AffectedIsClosed(l, owner, i, y);
      }
    }
  }

  /** Every orderly step short of a stop keeps the dependencies of what is starting running. */
  lemma StepSupports(l: Layout, h: Host, e: Event)
    requires l.Valid() && UpInv(l, h) && StartingSupported(l, h.status) && Step(l, h, e).Some? && Orderly(l, h, e)
    ensures StartingSupported(l, Step(l, h, e).value.status)
  {
    hide Safe;
    match e
    case StartNext => StartNextSupports(l, h);
    case StartResumes(_) => StartGoesOnSupports(l, h, e);
    case StartCleaned(_) => StartGoesOnSupports(l, h, e);
    case CrashBegins(_) => CrashSupports(l, h, e);
    case CrashScans(_) => CrashSupports(l, h, e);
    case CrashResumes(_) => CrashSupports(l, h, e);
    case _ =>
  }

  /** The invariant of orderly runs, with that. */
  ghost predicate SupportedInv(l: Layout, h: Host) {
    Inv(l, h) && (UpInv(l, h) ==> StartingSupported(l, h.status))
  }

  lemma StepKeepsSupport(l: Layout, h: Host, e: Event)
    requires l.Valid() && SupportedInv(l, h) && Orderly(l, h, e) && Step(l, h, e).Some?
    ensures SupportedInv(l, Step(l, h, e).value)
  {
    StepKeeps(l, h, e);
    hide Safe, StartingSupported;
    if UpInv(l, h) {
      StepSupports(l, h, e);
    } else if UpInv(l, Step(l, h, e).value) {
      DownToUp(l, h, e);
    }
  }

  /** A host that was down is up again only when a start begins, and then nothing is starting. */
  lemma DownToUp(l: Layout, h: Host, e: Event)
    requires DownInv(l, h) && Orderly(l, h, e) && Step(l, h, e).Some? && UpInv(l, Step(l, h, e).value)
    ensures StartingSupported(l, Step(l, h, e).value.status)
  {
    hide Safe, Supported, RunningPlaced, LeftoversOk, StartIsSpent, WaitingOk, Ordered, Behind, CrashesOk, Registered;
    var h' := Step(l, h, e).value;
    assert e == StartBegins by {
      assert h'.runtime && h'.stop.None?;
    }
    assert h'.start.value.pc == Next;
    NothingStarts(l, h');
  }

  lemma {:induction false} RunKeepsSupport(l: Layout, h: Host, es: seq<Event>)
    requires l.Valid() && SupportedInv(l, h) && OrderlyRun(l, h, es)
    ensures Run(l, h, es).Some? && SupportedInv(l, Run(l, h, es).value)
    decreases |es|
  {
    hide SupportedInv, Orderly;
    if es != [] {
      StepKeepsSupport(l, h, es[0]);
      RunKeepsSupport(l, Step(l, h, es[0]).value, es[1..]);
    }
  }

  // ----- crash handlers, and nothing else -----

  predicate OfCrash(e: Event) {
    e.CrashBegins? || e.CrashScans? || e.CrashResumes?
  }

  /** The extensions whose handlers begin. */
  function Owners(es: seq<Event>): set<Id>
    decreases |es|
  {
    if es == [] then {} else (if es[0].CrashBegins? then {es[0].owner} else {}) + Owners(es[1..])
  }

  predicate WasUp(status: map<Id, Status>, x: Id) {
    IsRunning(status, x) || IsStarting(status, x)
  }

  ghost predicate AffectedBy(l: Layout, owner: Id, x: Id) {
    x in Affected(l, owner, |l.order|)
  }

  /** What the handlers of `owners` may have made of one extension that was up. */
  ghost predicate Taken(l: Layout, owners: set<Id>, now: Status, x: Id) {
    || (now == Blocked && exists o :: o in owners && o != x && AffectedBy(l, o, x))
    || (now == Degraded && x in owners)
  }

  ghost predicate Accounted(l: Layout, first: map<Id, Status>, owners: set<Id>, h: Host, x: Id) {
    || StatusOf(h.status, x) == StatusOf(first, x)
    || (WasUp(first, x) && Taken(l, owners, StatusOf(h.status, x), x) && (IsRunning(first, x) ==> x !in h.started))
  }

  /** A handler waits only for extensions that were running. */
  ghost predicate WaitsForRunning(l: Layout, first: map<Id, Status>, c: Crash) {
    c.pc.Stopping? && c.pc.pos < |l.order| ==> IsRunning(first, l.order[c.pc.pos])
  }

  /** How far the handlers of `owners` have come, from a state with none. */
  ghost predicate Progress(l: Layout, first: map<Id, Status>, owners: set<Id>, h: Host) {
    && UpInv(l, h)
    && h.crashes.Keys <= owners
    && (forall o :: o in owners ==> IsRunning(first, o))
    && (forall o :: o in h.crashes ==> WaitsForRunning(l, first, h.crashes[o]))
    && (forall x :: Accounted(l, first, owners, h, x))
    && (forall o, x :: o in owners && o !in h.crashes && AffectedBy(l, o, x) ==> !WasUp(h.status, x))
  }

  lemma Unchanged(l: Layout, first: map<Id, Status>, owners: set<Id>, h: Host, x: Id)
    requires Progress(l, first, owners, h) && WasUp(h.status, x)
    ensures StatusOf(h.status, x) == StatusOf(first, x)
  {
    hide UpInv;
    assert Accounted(l, first, owners, h, x);
  }

  lemma MoreOwners(l: Layout, first: map<Id, Status>, owners: set<Id>, more: set<Id>, h: Host, x: Id)
    requires Accounted(l, first, owners, h, x) && owners <= more
    ensures Accounted(l, first, more, h, x)
  {
  }

  lemma BeginProgresses(l: Layout, first: map<Id, Status>, owners: set<Id>, h: Host, owner: Id)
    requires l.Valid() && Progress(l, first, owners, h) && Step(l, h, CrashBegins(owner)).Some?
    ensures Progress(l, first, owners + {owner}, Step(l, h, CrashBegins(owner)).value)
  {
    hide UpInv, Affected, BlockStarting;
    var h' := Step(l, h, CrashBegins(owner)).value;
    CrashBeginsKeeps(l, h, owner);
    Unchanged(l, first, owners, h, owner);
    StartingBlocked(h, Affected(l, owner, |l.order|), owner);
    forall x
      ensures Accounted(l, first, owners + {owner}, h', x)
    {
      MoreOwners(l, first, owners, owners + {owner}, h, x);
      if StatusOf(h'.status, x) != StatusOf(h.status, x) {
        Unchanged(l, first, owners, h, x);
        assert owner in owners + {owner} && AffectedBy(l, owner, x);
      }
    }
  }

  lemma ScanProgresses(l: Layout, first: map<Id, Status>, owners: set<Id>, h: Host, owner: Id)
    requires l.Valid() && Progress(l, first, owners, h) && Step(l, h, CrashScans(owner)).Some?
    ensures Progress(l, first, owners, Step(l, h, CrashScans(owner)).value)
  {
    hide UpInv, Affected;
    var h' := Step(l, h, CrashScans(owner)).value;
    CrashScansKeeps(l, h, owner);
    var c := h.crashes[owner];
    if h'.crashes[owner].pc.Stopping? {
      Unchanged(l, first, owners, h, l.order[c.pc.pos - 1]);
    }
    forall x
      ensures Accounted(l, first, owners, h', x)
    {
      assert Accounted(l, first, owners, h, x);
    }
  }

  /** Every affected extension but the owner has its place in the order. */
  lemma AffectedIsOrdered(l: Layout, owner: Id, x: Id)
    requires l.Valid() && AffectedBy(l, owner, x) && x != owner
    ensures x in l.order
  {
    var i := AddedInItsTurn(l, owner, |l.order|, x);
  }

  /** One extension, that was running, is taken down. */
  lemma TakenDown(l: Layout, first: map<Id, Status>, owners: set<Id>, h: Host, h': Host, y: Id, s: Status)
    requires Progress(l, first, owners, h) && UpInv(l, h') && s != Running && s != Starting
    requires h'.status == h.status[y := s] && h'.started == h.started && h'.crashes.Keys <= h.crashes.Keys
    requires forall o :: o in h'.crashes ==> WaitsForRunning(l, first, h'.crashes[o])
    requires IsRunning(first, y) && y !in h.started && Taken(l, owners, s, y)
    requires forall o, x :: o in h.crashes && o !in h'.crashes && AffectedBy(l, o, x) ==> !WasUp(h'.status, x)
    ensures Progress(l, first, owners, h')
  {
    hide UpInv, AffectedBy, Taken;
    StatusSet(h.status, y, s);
    forall x
      ensures Accounted(l, first, owners, h', x)
    {
      assert Accounted(l, first, owners, h, x);
      assert x != y ==> StatusOf(h'.status, x) == StatusOf(h.status, x);
    }
  }

  lemma ResumeProgresses(l: Layout, first: map<Id, Status>, owners: set<Id>, h: Host, owner: Id)
    requires l.Valid() && Progress(l, first, owners, h) && Step(l, h, CrashResumes(owner)).Some?
    ensures Progress(l, first, owners, Step(l, h, CrashResumes(owner)).value)
  {
    hide UpInv, Affected;
    var h' := Step(l, h, CrashResumes(owner)).value;
    CrashResumesKeeps(l, h, owner);
    HandlerOk(l, h, owner);
    var c := h.crashes[owner];
    if c.pc == Degrading {
      assert Tears(l, owner, c, owner);
      forall x | AffectedBy(l, owner, x)
        ensures !WasUp(h'.status, x)
      {
        if x != owner {
          OwnerIsDone(l, h, owner, x);
        }
        StatusSetAt(h.status, owner, Degraded, x);
      }
      TakenDown(l, first, owners, h, h', owner, Degraded);
    } else {
      var y := l.order[c.pc.pos];
      assert Tears(l, owner, c, y) && AffectedBy(l, owner, y);
      assert WaitsForRunning(l, first, c);
      TakenDown(l, first, owners, h, h', y, Blocked);
    }
  }

  lemma OwnerIsDone(l: Layout, h: Host, owner: Id, x: Id)
    requires l.Valid() && owner in h.crashes && h.crashes[owner].pc == Degrading
    requires AffectedBy(l, owner, x) && x != owner
    requires CrashOk(l, h.status, h.started, owner, h.crashes[owner])
    ensures !WasUp(h.status, x)
  {
    AffectedIsOrdered(l, owner, x);
    var i :| 0 <= i < |l.order| && l.order[i] == x;
  }

  lemma StepProgresses(l: Layout, first: map<Id, Status>, owners: set<Id>, h: Host, e: Event)
    requires l.Valid() && Progress(l, first, owners, h) && OfCrash(e) && Step(l, h, e).Some?
    ensures Progress(l, first, owners + (if e.CrashBegins? then {e.owner} else {}), Step(l, h, e).value)
  {
    hide Progress;
    assert owners + {} == owners;
    match e
    case CrashBegins(owner) => BeginProgresses(l, first, owners, h, owner);
    case CrashScans(owner) => ScanProgresses(l, first, owners, h, owner);
    case CrashResumes(owner) => ResumeProgresses(l, first, owners, h, owner);
  }

  lemma {:induction false} RunProgresses(l: Layout, first: map<Id, Status>, owners: set<Id>, h: Host, es: seq<Event>)
    requires l.Valid() && Progress(l, first, owners, h) && (forall e :: e in es ==> OfCrash(e)) && Run(l, h, es).Some?
    ensures Progress(l, first, owners + Owners(es), Run(l, h, es).value)
    decreases |es|
  {
    hide Progress, Step;
    if es == [] {
      assert owners + {} == owners;
    } else {
      var begun := if es[0].CrashBegins? then {es[0].owner} else {};
      assert es[0] in es && OfCrash(es[0]);
      StepProgresses(l, first, owners, h, es[0]);
      RunProgresses(l, first, owners + begun, Step(l, h, es[0]).value, es[1..]);
      assert owners + begun + Owners(es[1..]) == owners + Owners(es);
    }
  }

  /** Among what is up, a handler affects exactly what depends on its owner, however indirectly. */
  lemma AffectedIsReach(l: Layout, h: Host, owner: Id, x: Id)
    requires l.Valid() && UpInv(l, h) && StartingSupported(l, h.status) && WasUp(h.status, x)
    ensures AffectedBy(l, owner, x) <==> Reaches(l.graph, x, owner)
  {
    hide Affected, OneStarts, Behind, CurrentOk, CrashesOk, Registered;
    if IsRunning(h.status, x) {
      AffectedIsComplete(l, h.status, owner, x);
    } else {
      if AffectedBy(l, owner, x) {
        AffectedReaches(l, owner, |l.order|, x);
      }
      if Reaches(l.graph, x, owner) && x != owner {
        var p :| IsPath(l.graph, p) && p[0] == x && p[|p| - 1] == owner;
        assert p[1] in Deps(l.graph, x) && DependenciesRunning(l, h.status, x);
        assert IsPath(l.graph, p[1..]);
        PathIsAffected(l, h.status, owner, p[1..]);
        assert Placed(l, x);
        var i :| 0 <= i < |l.order| && l.order[i] == x && forall d :: d in Deps(l.graph, x) ==> d in l.order[..i];
        AffectedIsClosed(l, owner, i, p[1]);
      }
      AffectedGrows(l, owner, 0, |l.order|);
    }
  }

  /** From a host without crash handlers, orderly brought there, whatever handlers begin and however they take turns:
      what was not up, or depends on no owner, stays as it was; once the handler of an owner has finished, what depended
      on it is BLOCKED, or DEGRADED if it crashed itself; and the owner is DEGRADED, or BLOCKED if it depended on
      another owner.  What was running and is taken down is no longer registered as started. */
  lemma CrashesOutcome(l: Layout, h: Host, es: seq<Event>, x: Id)
    requires l.Valid() && UpInv(l, h) && StartingSupported(l, h.status) && h.crashes == map[]
    requires (forall e :: e in es ==> OfCrash(e)) && Run(l, h, es).Some?
    ensures var h', owners := Run(l, h, es).value, Owners(es);
            && (StatusOf(h'.status, x) == StatusOf(h.status, x)
                || (WasUp(h.status, x) && StatusOf(h'.status, x) == Blocked
                    && exists o :: o in owners && o != x && Reaches(l.graph, x, o))
                || (IsRunning(h.status, x) && StatusOf(h'.status, x) == Degraded && x in owners))
            && (forall o :: o in owners && o !in h'.crashes && Reaches(l.graph, x, o) ==> !WasUp(h'.status, x))
            && (IsRunning(h.status, x) && !IsRunning(h'.status, x) ==> x !in h'.started)
            && (forall o :: o in owners ==> IsRunning(h.status, o))
  {
    var owners := Owners(es);
    StartsWithNone(l, h);
    RunProgresses(l, h.status, {}, h, es);
    assert {} + owners == owners;
    var h' := Run(l, h, es).value;
    hide UpInv, AffectedBy, Run, StartingSupported;
    assert Accounted(l, h.status, owners, h', x);
    if WasUp(h.status, x) {
      forall o
        ensures AffectedBy(l, o, x) <==> Reaches(l.graph, x, o)
      {
        AffectedIsReach(l, h, o, x);
      }
    }
  }

  lemma StartsWithNone(l: Layout, h: Host)
    requires UpInv(l, h) && h.crashes == map[]
    ensures Progress(l, h.status, {}, h)
  {
    hide UpInv;
  }

  /** In every orderly run that lets the handler of one owner begin and finish, with nothing else in between: the owner
      ends DEGRADED; every other extension that was running or starting and depended on it, however indirectly, ends
      BLOCKED; and no other status changes. */
  lemma OneCrashOutcome(l: Layout, h0: Host, before: seq<Event>, owner: Id, es: seq<Event>, x: Id)
    requires l.Valid() && Initial(h0) && OrderlyRun(l, h0, before) && Run(l, h0, before).Some?
    requires var h := Run(l, h0, before).value;
             && h.crashes == map[] && Owners(es) == {owner} && (forall e :: e in es ==> OfCrash(e))
             && Run(l, h, es).Some? && Run(l, h, es).value.crashes == map[]
    ensures var h := Run(l, h0, before).value;
            StatusOf(Run(l, h, es).value.status, x)
            == if x == owner then Degraded
               else if WasUp(h.status, x) && Reaches(l.graph, x, owner) then Blocked
               else StatusOf(h.status, x)
    ensures IsRunning(Run(l, h0, before).value.status, owner)
    ensures var h := Run(l, h0, before).value;
            IsRunning(h.status, x) && !IsRunning(Run(l, h, es).value.status, x) ==>
              x !in Run(l, h, es).value.started
  {
    hide Inv, OrderlyRun;
    var h := Run(l, h0, before).value;
    InitialInv(l, h0);
    InitialSupported(l, h0);
    RunKeepsSupport(l, h0, before);
    CrashNeedsUp(l, h, es, owner);
    hide Run, UpInv;
    CrashesOutcome(l, h, es, x);
    ReachesItself(l.graph, owner);
  }

  lemma InitialSupported(l: Layout, h: Host)
    requires Initial(h)
    ensures SupportedInv(l, h)
  {
  }

  /** Handlers begin only on a host that is up. */
  lemma CrashNeedsUp(l: Layout, h: Host, es: seq<Event>, owner: Id)
    requires Inv(l, h) && owner in Owners(es) && (forall e :: e in es ==> OfCrash(e)) && Run(l, h, es).Some?
    ensures UpInv(l, h)
  {
    CrashNeedsRuntime(l, h, es, owner);
  }

  lemma {:induction false} CrashNeedsRuntime(l: Layout, h: Host, es: seq<Event>, owner: Id)
    requires owner in Owners(es) && (forall e :: e in es ==> OfCrash(e)) && Run(l, h, es).Some?
    ensures h.runtime && !h.stopping
    decreases |es|
  {
    assert es[0] in es && OfCrash(es[0]);
    if !es[0].CrashBegins? {
      CrashNeedsRuntime(l, Step(l, h, es[0]).value, es[1..], owner);
    }
  }

  // ----- a stop, and nothing else -----

  predicate OfStop(e: Event) {
    e.StopNext? || e.StopResumes?
  }

  /** What a stop makes of one extension: what was started is stopped, and what was blocked is loaded again. */
  ghost predicate Stopped(l: Layout, h: Host, smooth: bool, now: Status, x: Id) {
    if x in h.started then now == Loaded || (now == Degraded && !smooth)
    else if x in l.registered && StatusOf(h.status, x) == Blocked then now == Loaded
    else now == StatusOf(h.status, x)
  }

  /** How far a stop that began at `h` has come with the i-th extension. */
  ghost predicate StopProgressAt(l: Layout, h: Host, smooth: bool, g: Host, i: nat)
    requires i < |l.order| && g.stop.Some?
  {
    var x := l.order[i];
    if i >= g.stop.value.pos then Stopped(l, h, smooth, StatusOf(g.status, x), x)
    else && StatusOf(g.status, x) == StatusOf(h.status, x)
         && (if i == g.stop.value.pos - 1 && g.stop.value.waiting then x in h.started
             else x in g.started <==> x in h.started)
  }

  ghost predicate StopProgress(l: Layout, h: Host, smooth: bool, g: Host) {
    && g.stop.Some? && g.stop.value.pos <= |l.order| && (g.stop.value.waiting ==> g.stop.value.pos > 0)
    && forall i :: 0 <= i < |l.order| ==> StopProgressAt(l, h, smooth, g, i)
  }

  lemma StopStepProgressesAt(l: Layout, h: Host, smooth: bool, g: Host, e: Event, i: nat)
    requires l.Valid() && OfStop(e) && Step(l, g, e).Some? && Step(l, g, e).value.stop.Some?
    requires g.stop.Some? && g.stop.value.pos <= |l.order| && (g.stop.value.waiting ==> g.stop.value.pos > 0)
    requires (smooth ==> e != StopResumes(false)) && i < |l.order| && StopProgressAt(l, h, smooth, g, i)
    ensures StopProgressAt(l, h, smooth, Step(l, g, e).value, i)
  {
    if i != g.stop.value.pos - 1 {
      StepLeavesOthers(l, g, e, l.order[i]);
      hide Step, Stopped;
    }
  }

  /** One step of a stop is about the extension just before its position. */
  lemma StepLeavesOthers(l: Layout, g: Host, e: Event, x: Id)
    requires OfStop(e) && Step(l, g, e).Some? && Step(l, g, e).value.stop.Some? && g.stop.value.pos <= |l.order|
    requires g.stop.value.pos > 0 ==> x != l.order[g.stop.value.pos - 1]
    ensures var g' := Step(l, g, e).value;
            && StatusOf(g'.status, x) == StatusOf(g.status, x) && (x in g'.started <==> x in g.started)
            && 0 < g.stop.value.pos && g.stop.value.pos - 1 <= g'.stop.value.pos <= g.stop.value.pos
            && (g'.stop.value.waiting ==> g'.stop.value.pos == g.stop.value.pos)
  {
  }

  lemma StopStepProgresses(l: Layout, h: Host, smooth: bool, g: Host, e: Event)
    requires l.Valid() && StopProgress(l, h, smooth, g) && OfStop(e) && Step(l, g, e).Some?
    requires smooth ==> e != StopResumes(false)
    ensures var g' := Step(l, g, e).value;
            if g'.stop.Some? then StopProgress(l, h, smooth, g') else g.stop.value.pos == 0 && g'.status == g.status
  {
    hide StopProgressAt, Stopped;
    var g' := Step(l, g, e).value;
    if g'.stop.Some? {
      forall i | 0 <= i < |l.order|
        ensures StopProgressAt(l, h, smooth, g', i)
      {
        StopStepProgressesAt(l, h, smooth, g, e, i);
      }
    }
  }

  lemma {:induction false} StopRunProgresses(l: Layout, h: Host, smooth: bool, g: Host, es: seq<Event>, i: nat)
    requires l.Valid() && StopProgress(l, h, smooth, g) && (forall e :: e in es ==> OfStop(e)) && Run(l, g, es).Some?
    requires (smooth ==> StopResumes(false) !in es) && Run(l, g, es).value.stop.None? && i < |l.order|
    ensures Stopped(l, h, smooth, StatusOf(Run(l, g, es).value.status, l.order[i]), l.order[i])
    decreases |es|
  {
    hide Step, Stopped;
    assert es[0] in es && OfStop(es[0]);
    var g' := Step(l, g, es[0]).value;
    StopStepProgresses(l, h, smooth, g, es[0]);
    if g'.stop.Some? {
      hide StopProgress;
      StopRunProgresses(l, h, smooth, g', es[1..], i);
    } else {
      assert StopProgressAt(l, h, smooth, g, i);
      assert es[1..] != [] ==> es[1] in es;
      AfterTheStop(l, g', es[1..]);
    }
  }

  lemma AfterTheStop(l: Layout, g: Host, es: seq<Event>)
    requires g.stop.None? && (es != [] ==> OfStop(es[0])) && Run(l, g, es).Some?
    ensures es == []
  {
  }

  /** A stop that runs through without anything in between: everything in the order that was started ends LOADED, or
      DEGRADED if its deactivation fails; everything that was blocked ends LOADED; everything else stays as it was. */
  lemma StopOutcome(l: Layout, h: Host, es: seq<Event>, x: Id)
    requires l.Valid() && (forall e :: e in es ==> OfStop(e)) && x in l.order
    requires Run(l, h, [StopBegins] + es).Some? && Run(l, h, [StopBegins] + es).value.stop.None?
    ensures Stopped(l, h, StopResumes(false) !in es, StatusOf(Run(l, h, [StopBegins] + es).value.status, x), x)
  {
    hide Stopped;
    var i :| 0 <= i < |l.order| && l.order[i] == x;
    assert ([StopBegins] + es)[1..] == es;
    StopRunProgresses(l, h, StopResumes(false) !in es, Step(l, h, StopBegins).value, es, i);
  }

  lemma UpIsOrdered(l: Layout, h: Host, x: Id)
    requires UpInv(l, h) && WasUp(h.status, x)
    ensures x in l.order
  {
    assert Placed(l, x);
  }

  /** After one crash and a stop, every loaded dependent that the crash had blocked is LOADED again: those that were
      running in any case, those that were being started unless their deactivation fails. */
  lemma StopUnblocks(l: Layout, h0: Host, before: seq<Event>, owner: Id, es: seq<Event>, stop: seq<Event>, x: Id)
    requires l.Valid() && Initial(h0) && OrderlyRun(l, h0, before) && Run(l, h0, before).Some?
    requires var h := Run(l, h0, before).value;
             && h.crashes == map[] && Owners(es) == {owner} && (forall e :: e in es ==> OfCrash(e))
             && Run(l, h, es).Some? && Run(l, h, es).value.crashes == map[]
             && WasUp(h.status, x) && Reaches(l.graph, x, owner) && x != owner && x in l.registered
             && (IsRunning(h.status, x) || StopResumes(false) !in stop)
             && (forall e :: e in stop ==> OfStop(e))
             && Run(l, Run(l, h, es).value, [StopBegins] + stop).Some?
             && Run(l, Run(l, h, es).value, [StopBegins] + stop).value.stop.None?
    ensures var h' := Run(l, Run(l, h0, before).value, es).value;
            && StatusOf(h'.status, x) == Blocked
            && StatusOf(Run(l, h', [StopBegins] + stop).value.status, x) == Loaded
  {
    hide Run, OrderlyRun, Inv, UpInv;
    OneCrashOutcome(l, h0, before, owner, es, x);
    InitialInv(l, h0);
    RunKeeps(l, h0, before);
    CrashNeedsUp(l, Run(l, h0, before).value, es, owner);
    UpIsOrdered(l, Run(l, h0, before).value, x);
    StopOutcome(l, Run(l, Run(l, h0, before).value, es).value, stop, x);
  }

  // ----- a start, and nothing else -----

  predicate OfStart(e: Event) {
    e.StartNext? || e.StartResumes? || e.StartCleaned?
  }

  /** All dependencies of the i-th extension come before it in the order and run. */
  ghost predicate Carried(l: Layout, status: map<Id, Status>, i: nat)
    requires i < |l.order|
  {
    forall d :: d in Deps(l.graph, l.order[i]) ==> d in l.order[..i] && IsRunning(status, d)
  }

  /** What a start makes of the i-th extension, given what it makes of all of them. */
  ghost predicate StartedAs(l: Layout, first: map<Id, Status>, smooth: bool, status: map<Id, Status>, i: nat)
    requires i < |l.order|
  {
    var now := StatusOf(status, l.order[i]);
    if StatusOf(first, l.order[i]) != Loaded then now == StatusOf(first, l.order[i])
    else if !Carried(l, status, i) then now == Blocked
    else now == Running || (now == Degraded && !smooth)
  }

  /** How far a start has come that found `first`. */
  ghost predicate StartProgress(l: Layout, first: map<Id, Status>, smooth: bool, g: Host) {
    && g.start.Some? && g.start.value.pos <= |l.order|
    && (forall i :: 0 <= i < g.start.value.pos ==> StartedAs(l, first, smooth, g.status, i))
    && (forall x :: IsRunning(g.status, x) ==> x in l.order[..g.start.value.pos])
    && (forall i :: g.start.value.pos <= i < |l.order| && !(i == g.start.value.pos && g.start.value.pc != Next) ==>
          StatusOf(g.status, l.order[i]) == StatusOf(first, l.order[i]))
    && (g.start.value.pc != Next ==> InTheMiddle(l, first, smooth, g))
  }

  ghost predicate InTheMiddle(l: Layout, first: map<Id, Status>, smooth: bool, g: Host)
    requires g.start.Some?
  {
    var StartTask(pos, pc) := g.start.value;
    && pos < |l.order| && StatusOf(first, l.order[pos]) == Loaded && IsStarting(g.status, l.order[pos])
    && Carried(l, g.status, pos) && !pc.CleaningBlocked? && (pc.CleaningFailed? ==> !smooth)
  }

  /** Changing what is not running, at or behind a position, is no matter to what is before it. */
  lemma StartedStays(l: Layout, first: map<Id, Status>, smooth: bool, before: map<Id, Status>, after: map<Id, Status>,
                     pos: nat, i: nat)
    requires l.Valid() && i < pos <= |l.order| && StartedAs(l, first, smooth, before, i)
    requires forall k :: 0 <= k < pos ==> StatusOf(after, l.order[k]) == StatusOf(before, l.order[k])
    ensures StartedAs(l, first, smooth, after, i)
  {
    forall d | d in l.order[..i]
      ensures IsRunning(after, d) <==> IsRunning(before, d)
    {
      var k :| 0 <= k < i && l.order[k] == d;
    }
  }

  /** The start loop leaves an extension behind with its last status. */
  lemma StartPasses(l: Layout, first: map<Id, Status>, smooth: bool, g: Host, s: Status)
    requires l.Valid() && StartProgress(l, first, smooth, g) && g.start.value.pos < |l.order|
    requires var pos := g.start.value.pos;
             if StatusOf(first, l.order[pos]) != Loaded then s == StatusOf(first, l.order[pos])
             else if !Carried(l, g.status, pos) then s == Blocked
             else s == Running || (s == Degraded && !smooth)
    requires StatusOf(first, l.order[g.start.value.pos]) != Running
    ensures StartProgress(l, first, smooth, Advance(SetStatus(g, l.order[g.start.value.pos], s)))
  {
    hide StartedAs, Carried;
    var pos := g.start.value.pos;
    var x := l.order[pos];
    var g' := Advance(SetStatus(g, x, s));
    StatusSet(g.status, x, s);
    assert forall k :: 0 <= k < pos ==> StatusOf(g'.status, l.order[k]) == StatusOf(g.status, l.order[k]);
    forall i | 0 <= i < pos + 1
      ensures StartedAs(l, first, smooth, g'.status, i)
    {
      if i < pos {
        StartedStays(l, first, smooth, g.status, g'.status, pos, i);
      } else {
        LastIsStarted(l, first, smooth, g.status, pos, s);
      }
    }
    assert l.order[..pos + 1] == l.order[..pos] + [x];
  }

  lemma LastIsStarted(l: Layout, first: map<Id, Status>, smooth: bool, status: map<Id, Status>, pos: nat, s: Status)
    requires l.Valid() && pos < |l.order|
    requires if StatusOf(first, l.order[pos]) != Loaded then s == StatusOf(first, l.order[pos])
             else if !Carried(l, status, pos) then s == Blocked
             else s == Running || (s == Degraded && !smooth)
    ensures StartedAs(l, first, smooth, status[l.order[pos] := s], pos)
  {
    assert l.order[pos] !in l.order[..pos];
  }

  /** In a start that nothing disturbs, the dependencies that run are those before the loop. */
  lemma CarriedIs(l: Layout, g: Host, i: nat)
    requires i < |l.order| && forall x :: IsRunning(g.status, x) ==> x in l.order[..i]
    ensures Carried(l, g.status, i) <==> DependenciesRunning(l, g.status, l.order[i])
  {
  }

  lemma StartNextProgresses(l: Layout, first: map<Id, Status>, smooth: bool, g: Host)
    requires l.Valid() && StartProgress(l, first, smooth, g) && Step(l, g, StartNext).Some?
    requires forall x :: !WasUp(first, x)
    ensures var g' := Step(l, g, StartNext).value;
            if g'.start.Some? then StartProgress(l, first, smooth, g')
               else g.start.value.pos == |l.order| && g' == g.(start := None)
  {
    hide StartedAs, Carried, DependenciesRunning;
    var pos := g.start.value.pos;
    if pos < |l.order| {
      var x := l.order[pos];
      CarriedIs(l, g, pos);
      if StatusOf(g.status, x) != Loaded {
        StartSkips(l, first, smooth, g);
      } else if !DependenciesRunning(l, g.status, x) {
        StartPasses(l, first, smooth, g, Blocked);
      } else {
        StartEnters(l, first, smooth, g);
      }
    }
  }

  lemma StartSkips(l: Layout, first: map<Id, Status>, smooth: bool, g: Host)
    requires l.Valid() && StartProgress(l, first, smooth, g) && g.start.value.pos < |l.order|
             && g.start.value.pc == Next
    requires StatusOf(g.status, l.order[g.start.value.pos]) != Loaded
    ensures StartProgress(l, first, smooth, Advance(g))
  {
    assert l.order[..g.start.value.pos + 1] == l.order[..g.start.value.pos] + [l.order[g.start.value.pos]];
  }

  lemma StartEnters(l: Layout, first: map<Id, Status>, smooth: bool, g: Host)
    requires l.Valid() && StartProgress(l, first, smooth, g) && g.start.value.pos < |l.order|
             && g.start.value.pc == Next
    requires StatusOf(g.status, l.order[g.start.value.pos]) == Loaded && Carried(l, g.status, g.start.value.pos)
    ensures var pos := g.start.value.pos;
            StartProgress(l, first, smooth,
                          SetStatus(g, l.order[pos], Starting).(start := Some(StartTask(pos, Awaiting(0)))))
  {
    hide StartedAs;
    var pos := g.start.value.pos;
    var x := l.order[pos];
    var after := g.status[x := Starting];
    StatusSet(g.status, x, Starting);
    forall i | 0 <= i < pos
      ensures StartedAs(l, first, smooth, after, i)
    {
      StartedStays(l, first, smooth, g.status, after, pos, i);
    }
  }

  lemma StartResumesProgresses(l: Layout, first: map<Id, Status>, smooth: bool, g: Host, e: Event)
    requires l.Valid() && StartProgress(l, first, smooth, g) && Step(l, g, e).Some?
             && (e.StartResumes? || e.StartCleaned?)
    requires smooth ==> e != StartResumes(false)
    ensures StartProgress(l, first, smooth, Step(l, g, e).value)
  {
    hide StartedAs, Carried, DependenciesRunning;
    var StartTask(pos, pc) := g.start.value;
    var x := l.order[pos];
    CarriedIs(l, g, pos);
    if e.StartCleaned? {
      StartPasses(l, first, smooth, g, Degraded);
    } else if e.ok && pc.stage >= LAST_STAGE {
      StartPasses(l, first, smooth, g, Running);
    }
  }

  lemma {:induction false} StartRunProgresses(l: Layout, first: map<Id, Status>, smooth: bool, g: Host, es: seq<Event>,
                                              i: nat)
    requires l.Valid() && StartProgress(l, first, smooth, g) && (forall x :: !WasUp(first, x))
    requires (forall e :: e in es ==> OfStart(e)) && (smooth ==> StartResumes(false) !in es) && i < |l.order|
    requires Run(l, g, es).Some? && Run(l, g, es).value.start.None?
    ensures StartedAs(l, first, smooth, Run(l, g, es).value.status, i)
    decreases |es|
  {
    hide Step, StartedAs;
    assert es[0] in es && OfStart(es[0]);
    var g' := Step(l, g, es[0]).value;
    if es[0] == StartNext {
      StartNextProgresses(l, first, smooth, g);
    } else {
      StartResumesProgresses(l, first, smooth, g, es[0]);
    }
    if g'.start.Some? {
      hide StartProgress;
      StartRunProgresses(l, first, smooth, g', es[1..], i);
    } else {
      assert es[1..] != [] ==> es[1] in es;
      AfterTheStart(l, g', es[1..]);
    }
  }

  lemma AfterTheStart(l: Layout, g: Host, es: seq<Event>)
    requires g.start.None? && (es != [] ==> OfStart(es[0])) && Run(l, g, es).Some?
    ensures es == []
  {
  }

  /** A start that runs through on a loaded host without anything in between: an extension that was LOADED ends BLOCKED
      exactly when some dependency is not before it and running at the end; otherwise RUNNING, or DEGRADED if one of its
      own stages fails; every other extension of the order stays as it was. */
  lemma StartOutcome(l: Layout, h: Host, es: seq<Event>, i: nat)
    requires l.Valid() && Initial(h) && (forall e :: e in es ==> OfStart(e)) && i < |l.order|
    requires Run(l, h, [StartBegins] + es).Some? && Run(l, h, [StartBegins] + es).value.start.None?
    ensures StartedAs(l, h.status, StartResumes(false) !in es, Run(l, h, [StartBegins] + es).value.status, i)
  {
    hide StartedAs;
    assert ([StartBegins] + es)[1..] == es;
    StartRunProgresses(l, h.status, StartResumes(false) !in es, Step(l, h, StartBegins).value, es, i);
  }

  // ----- an extension that is refused while it is being started -----

  /** A crash has blocked the extension that the start loop is at; when `smooth`, no stage of it has failed. */
  ghost predicate Refused(l: Layout, h: Host, pos: nat, smooth: bool) {
    && h.start.Some? && h.start.value.pos == pos < |l.order| && h.start.value.pc != Next
    && StatusOf(h.status, l.order[pos]) == Blocked
    && (smooth ==> !h.start.value.pc.CleaningFailed?)
  }

  /** The start loop is past it. */
  ghost predicate PassedBy(l: Layout, h: Host, pos: nat, smooth: bool) {
    && h.start == Some(StartTask(pos + 1, Next)) && pos < |l.order|
    && (StatusOf(h.status, l.order[pos]) == Blocked || (StatusOf(h.status, l.order[pos]) == Degraded && !smooth))
  }

  lemma RefusedByCrash(l: Layout, h: Host, pos: nat, smooth: bool, e: Event)
    requires l.Valid() && UpInv(l, h) && Refused(l, h, pos, smooth) && OfCrash(e) && Step(l, h, e).Some?
    ensures Refused(l, Step(l, h, e).value, pos, smooth)
  {
    hide Affected, CrashOk, Supported, Ordered, OneStarts, CurrentOk, CrashesOk, Registered;
    NotBehind(l, pos);
    if e.CrashBegins? {
      StartingBlocked(h, Affected(l, e.owner, |l.order|), e.owner);
    } else if e.CrashResumes? && h.crashes[e.owner].pc == Degrading {
      assert e.owner in l.order[..pos];
    }
  }

  lemma RefusedStep(l: Layout, h: Host, pos: nat, smooth: bool, e: Event)
    requires l.Valid() && UpInv(l, h) && Refused(l, h, pos, smooth) && (OfStart(e) || OfCrash(e)) && Step(l, h, e).Some?
    requires smooth ==> e != StartResumes(false)
    ensures Refused(l, Step(l, h, e).value, pos, smooth) || PassedBy(l, Step(l, h, e).value, pos, smooth)
  {
    hide UpInv;
    if OfCrash(e) {
      RefusedByCrash(l, h, pos, smooth, e);
    }
  }

  /** However the start and crash handlers take turns from there: when the start loop goes on, the extension is BLOCKED,
      or DEGRADED if a stage of it has failed. */
  lemma {:induction false} RefusedEndsBlocked(l: Layout, h: Host, pos: nat, smooth: bool, es: seq<Event>)
    returns (n: nat)
    requires l.Valid() && UpInv(l, h) && Refused(l, h, pos, smooth) && (smooth ==> StartResumes(false) !in es)
    requires (forall e :: e in es ==> OfStart(e) || OfCrash(e)) && OrderlyRun(l, h, es) && Run(l, h, es).Some?
    requires !Refused(l, Run(l, h, es).value, pos, smooth)
    ensures 0 < n <= |es| && Run(l, h, es[..n]).Some? && PassedBy(l, Run(l, h, es[..n]).value, pos, smooth)
    decreases |es|
  {
    hide UpInv, Refused, PassedBy, Safe, Step;
    assert es[0] in es;
    var next := Step(l, h, es[0]).value;
    RefusedStep(l, h, pos, smooth, es[0]);
    UpKeeps(l, h, es[0]);
    if Refused(l, next, pos, smooth) {
      n := RefusedEndsBlocked(l, next, pos, smooth, es[1..]);
      n := n + 1;
      assert es[..n][1..] == es[1..][..n - 1];
    } else {
      n := 1;
      assert es[..1][1..] == [];
    }
  }
}
