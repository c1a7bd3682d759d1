/**
 Starting, crashing and stopping extensions as a transition system.

 One event is one stretch of code between two awaits, or less: the loop of the crash handler advances
 one extension at a time.  Any event of any coroutine may come next, so every interleaving is a run.
 */
module RuntimeMachine {
  import opened Outcomes
  import opened Extensions

  datatype Layout = Layout(
    order: seq<Id>,        // the load order
    graph: Graph,          // declared dependencies
    registered: set<Id>)   // extensions with a loaded object (`_extensions`)
  {
    ghost predicate Valid() {
      forall i, j :: 0 <= i < j < |order| ==> order[i] != order[j]
    }
  }

  /** Where the `start` coroutine is in its loop over the order. */
  datatype StartPc =
    | Next                   // about to look at the extension
    | Awaiting(stage: nat)   // lifecycle, processes, start, health checks, tools: stages 0 to 4
    | CleaningBlocked        // deactivating after a failed checkpoint
    | CleaningFailed         // deactivating after an exception

  datatype StartTask = StartTask(pos: nat, pc: StartPc)

  /** Where `stop` is: extensions from `pos` on are done; `waiting` for the one just before. */
  datatype StopTask = StopTask(pos: nat, waiting: bool)

  datatype CrashPc =
    | Scanning(pos: nat)   // extensions from `pos` on are done
    | Stopping(pos: nat)   // deactivating the extension at `pos`
    | Degrading            // deactivating the owner itself

  datatype Crash = Crash(affected: set<Id>, pc: CrashPc)

  datatype Host = Host(
    status: map<Id, Status>,
    started: set<Id>,
    start: Option<StartTask>,
    stop: Option<StopTask>,
    crashes: map<Id, Crash>,   // by owner: the running crash handlers
    runtime: bool,             // `_runtime` is set
    stopping: bool)

  const LAST_STAGE: nat := 4

  function StatusOf(status: map<Id, Status>, x: Id): Status {
    GetOr(status, x, Missing)
  }

  predicate IsRunning(status: map<Id, Status>, x: Id) {
    StatusOf(status, x) == Running
  }

  predicate IsStarting(status: map<Id, Status>, x: Id) {
    StatusOf(status, x) == Starting
  }

  function SetStatus(h: Host, x: Id, s: Status): Host {
    h.(status := h.status[x := s])
  }

  predicate DependenciesRunning(l: Layout, status: map<Id, Status>, x: Id) {
    forall d :: d in Deps(l.graph, x) ==> IsRunning(status, d)
  }

  /** The owner and what the single pass over the first `n` extensions finds to depend on it. */
  function Affected(l: Layout, owner: Id, n: nat): set<Id>
    requires n <= |l.order|
  {
    if n == 0 then {owner} else
      var before := Affected(l, owner, n - 1);
      if exists d :: d in Deps(l.graph, l.order[n - 1]) && d in before then before + {l.order[n - 1]} else before
  }

  function BlockStarting(h: Host, affected: set<Id>, owner: Id): map<Id, Status> {
    map x | x in h.status :: if x != owner && x in affected && h.status[x] == Starting then Blocked else h.status[x]
  }

  datatype Event =
    | StartBegins | StartNext | StartResumes(ok: bool) | StartCleaned(error: bool)
    | CrashBegins(owner: Id) | CrashScans(owner: Id) | CrashResumes(owner: Id)
    | StopBegins | StopNext | StopResumes(ok: bool)

  /** The next extension of the start loop. */
  function Advance(h: Host): Host
    requires h.start.Some?
  {
    h.(start := Some(StartTask(h.start.value.pos + 1, Next)))
  }

  function StartStep(l: Layout, h: Host, e: Event): Option<Host> {
    if e == StartBegins then
      Some(h.(start := Some(StartTask(0, Next)), runtime := true, stopping := false))
    else match h.start
    case None => None
    case Some(StartTask(pos, pc)) =>
      if e == StartNext && pc == Next then
        if pos >= |l.order| then Some(h.(start := None))
        else
          var x := l.order[pos];
          if StatusOf(h.status, x) != Loaded then Some(Advance(h))
          else if !DependenciesRunning(l, h.status, x) then Some(Advance(SetStatus(h, x, Blocked)))
          else Some(SetStatus(h, x, Starting).(start := Some(StartTask(pos, Awaiting(0)))))
      else if pos >= |l.order| then None
      else
        var x := l.order[pos];
        match (e, pc)
        case (StartResumes(false), Awaiting(_)) =>
          Some(h.(started := h.started - {x}, start := Some(StartTask(pos, CleaningFailed))))
        case (StartResumes(true), Awaiting(stage)) =>
          if StatusOf(h.status, x) == Blocked || !DependenciesRunning(l, h.status, x) then
            Some(SetStatus(h, x, Blocked).(started := h.started - {x}, start := Some(StartTask(pos, CleaningBlocked))))
          else if stage < LAST_STAGE then
            Some(h.(started := if stage == 1 then h.started + {x} else h.started,
                    start := Some(StartTask(pos, Awaiting(stage + 1)))))
          else
            Some(Advance(SetStatus(h, x, Running)))
        case (StartCleaned(error), CleaningBlocked) =>
          Some(Advance(if error then SetStatus(h, x, Blocked) else h))
        case (StartCleaned(error), CleaningFailed) =>
          Some(Advance(SetStatus(h, x, Degraded)))
        case _ => None
  }

  /** One turn of the crash handler's loop over the order, from the end. */
  function Scan(l: Layout, h: Host, owner: Id): Host
    requires owner in h.crashes && h.crashes[owner].pc.Scanning? && h.crashes[owner].pc.pos <= |l.order|
  {
    var c := h.crashes[owner];
    if c.pc.pos == 0 then
      h.(started := h.started - {owner}, crashes := h.crashes[owner := c.(pc := Degrading)])
    else
      var x := l.order[c.pc.pos - 1];
      if x == owner || x !in c.affected || !IsRunning(h.status, x) then
        h.(crashes := h.crashes[owner := c.(pc := Scanning(c.pc.pos - 1))])
      else
        h.(started := h.started - {x}, crashes := h.crashes[owner := c.(pc := Stopping(c.pc.pos - 1))])
  }

  function CrashStep(l: Layout, h: Host, e: Event): Option<Host> {
    match e
    case CrashBegins(owner) =>
      if !h.runtime || h.stopping || owner in h.crashes || !IsRunning(h.status, owner) then None
      else
        var affected := Affected(l, owner, |l.order|);
        Some(h.(status := BlockStarting(h, affected, owner),
                crashes := h.crashes[owner := Crash(affected, Scanning(|l.order|))]))
    case CrashScans(owner) =>
      if owner !in h.crashes || !h.crashes[owner].pc.Scanning? || h.crashes[owner].pc.pos > |l.order| then None
      else Some(Scan(l, h, owner))
    case CrashResumes(owner) =>
      if owner !in h.crashes then None
      else
        var c := h.crashes[owner];
        if c.pc == Degrading then
          Some(SetStatus(h, owner, Degraded).(crashes := h.crashes - {owner}))
        else if c.pc.Stopping? && c.pc.pos < |l.order| then
          Some(SetStatus(h, l.order[c.pc.pos], Blocked).(crashes := h.crashes[owner := c.(pc := Scanning(c.pc.pos))]))
        else None
    case _ => None
  }

  function StopStep(l: Layout, h: Host, e: Event): Option<Host> {
    if e == StopBegins then
      Some(h.(stop := Some(StopTask(|l.order|, false)), stopping := true))
    else match h.stop
    case None => None
    case Some(StopTask(pos, waiting)) =>
      if pos > |l.order| then None
      else match e
      case StopNext =>
        if waiting then None
        else if pos == 0 then Some(h.(stop := None, runtime := false))
        else
          var x := l.order[pos - 1];
          if x in h.started then Some(h.(started := h.started - {x}, stop := Some(StopTask(pos, true))))
          else if x in l.registered && StatusOf(h.status, x) == Blocked then
            Some(SetStatus(h, x, Loaded).(stop := Some(StopTask(pos - 1, false))))
          else Some(h.(stop := Some(StopTask(pos - 1, false))))
      case StopResumes(ok) =>
        if !waiting || pos == 0 then None
        else Some(SetStatus(h, l.order[pos - 1], if ok then Loaded else Degraded)
                  .(stop := Some(StopTask(pos - 1, false))))
      case _ => None
  }

  function Step(l: Layout, h: Host, e: Event): Option<Host> {
    match e
    case StartBegins => StartStep(l, h, e)
    case StartNext => StartStep(l, h, e)
    case StartResumes(_) => StartStep(l, h, e)
    case StartCleaned(_) => StartStep(l, h, e)
    case CrashBegins(_) => CrashStep(l, h, e)
    case CrashScans(_) => CrashStep(l, h, e)
    case CrashResumes(_) => CrashStep(l, h, e)
    case StopBegins => StopStep(l, h, e)
    case StopNext => StopStep(l, h, e)
    case StopResumes(_) => StopStep(l, h, e)
  }

  // ----- what every interleaving keeps -----

  lemma StartRaises(l: Layout, h: Host, e: Event, x: Id)
    requires StartStep(l, h, e).Some?
    requires !IsRunning(h.status, x) && IsRunning(StartStep(l, h, e).value.status, x)
    ensures DependenciesRunning(l, h.status, x) && DependenciesRunning(l, StartStep(l, h, e).value.status, x)
  {
    hide DependenciesRunning;
    var h' := StartStep(l, h, e).value;
    var pos := h.start.value.pos;
    assert x == l.order[pos] && h'.status == h.status[x := Running] && DependenciesRunning(l, h.status, x);
    StillRunning(l, h.status, x);
  }

  lemma StillRunning(l: Layout, status: map<Id, Status>, x: Id)
    requires DependenciesRunning(l, status, x)
    ensures DependenciesRunning(l, status[x := Running], x)
  {
  }

  lemma CrashRaisesNothing(l: Layout, h: Host, e: Event, x: Id)
    requires CrashStep(l, h, e).Some? && IsRunning(CrashStep(l, h, e).value.status, x)
    ensures IsRunning(h.status, x)
  {
    hide Affected;
  }

  lemma StopRaisesNothing(l: Layout, h: Host, e: Event, x: Id)
    requires StopStep(l, h, e).Some? && IsRunning(StopStep(l, h, e).value.status, x)
    ensures IsRunning(h.status, x)
  {
  }

  /** Whatever the interleaving, an extension becomes RUNNING only while all its direct dependencies are. */
  lemma RunningOnlyOnRunning(l: Layout, h: Host, e: Event, x: Id)
    requires Step(l, h, e).Some?
    requires !IsRunning(h.status, x) && IsRunning(Step(l, h, e).value.status, x)
    ensures DependenciesRunning(l, h.status, x) && DependenciesRunning(l, Step(l, h, e).value.status, x)
  {
    hide StartStep, CrashStep, StopStep, IsRunning, DependenciesRunning;
    match e
    case StartBegins => StartRaises(l, h, e, x);
    case StartNext => StartRaises(l, h, e, x);
    case StartResumes(_) => StartRaises(l, h, e, x);
    case StartCleaned(_) => StartRaises(l, h, e, x);
    case CrashBegins(_) => CrashRaisesNothing(l, h, e, x);
    case CrashScans(_) => CrashRaisesNothing(l, h, e, x);
    case CrashResumes(_) => CrashRaisesNothing(l, h, e, x);
    case StopBegins => StopRaisesNothing(l, h, e, x);
    case StopNext => StopRaisesNothing(l, h, e, x);
    case StopResumes(_) => StopRaisesNothing(l, h, e, x);
  }
}
