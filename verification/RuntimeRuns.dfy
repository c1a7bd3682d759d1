/** Whole runs: in every orderly interleaving, what runs is supported, and what is stopped is quiet. */
module RuntimeRuns {
  import opened Outcomes
  import opened Extensions
  import opened RuntimeMachine
  import opened RuntimeSafety
  import opened RuntimeStopping

  /** What an operator relies on: the dependencies of everything that runs are running, and once a stop has ended
      nothing runs. */
  ghost predicate Sound(l: Layout, h: Host) {
    Supported(l, h.status) && (!h.runtime ==> forall x :: !IsRunning(h.status, x))
  }

  ghost predicate Inv(l: Layout, h: Host) {
    UpInv(l, h) || DownInv(l, h)
  }

  function Run(l: Layout, h: Host, es: seq<Event>): Option<Host>
    decreases |es|
  {
    if es == [] then Some(h)
    else match Step(l, h, es[0])
         case Some(h') => Run(l, h', es[1..])
         case None => None
  }

  predicate OrderlyRun(l: Layout, h: Host, es: seq<Event>)
    decreases |es|
  {
    es != [] ==> Orderly(l, h, es[0]) && Step(l, h, es[0]).Some? && OrderlyRun(l, Step(l, h, es[0]).value, es[1..])
  }

  /** After the load pass: nothing runs, and no coroutine is in progress. */
  ghost predicate Initial(h: Host) {
    && (forall x :: !IsRunning(h.status, x) && !IsStarting(h.status, x))
    && h.start.None? && h.stop.None? && h.crashes == map[] && !h.runtime
  }

  lemma InitialInv(l: Layout, h: Host)
    requires Initial(h)
    ensures Inv(l, h)
  {
  }

  lemma InvIsSound(l: Layout, h: Host)
    requires Inv(l, h)
    ensures Sound(l, h)
  {
  }

  lemma UpKeeps(l: Layout, h: Host, e: Event)
    requires l.Valid() && UpInv(l, h) && Orderly(l, h, e) && Step(l, h, e).Some?
    ensures if e == StopBegins then DownInv(l, Step(l, h, e).value) else UpInv(l, Step(l, h, e).value)
  {
    hide Safe;
    match e
    case StartBegins =>
    case StartNext => StartNextKeeps(l, h);
    case StartResumes(ok) => StartResumesKeeps(l, h, ok);
    case StartCleaned(error) => StartCleanedKeeps(l, h, error);
    case CrashBegins(owner) => CrashBeginsKeeps(l, h, owner);
    case CrashScans(owner) => CrashScansKeeps(l, h, owner);
    case CrashResumes(owner) => CrashResumesKeeps(l, h, owner);
    case StopBegins => StopBeginsKeeps(l, h);
    case StopNext =>
    case StopResumes(ok) =>
  }

  /** Every orderly step keeps the invariant. */
  lemma StepKeeps(l: Layout, h: Host, e: Event)
    requires l.Valid() && Inv(l, h) && Orderly(l, h, e) && Step(l, h, e).Some?
    ensures Inv(l, Step(l, h, e).value)
  {
    hide UpInv, DownInv, Safe, Lifecycle;
    if UpInv(l, h) {
      UpKeeps(l, h, e);
    } else {
      DownKeeps(l, h, e);
    }
  }

  lemma {:induction false} RunKeeps(l: Layout, h: Host, es: seq<Event>)
    requires l.Valid() && Inv(l, h) && OrderlyRun(l, h, es)
    ensures Run(l, h, es).Some? && Inv(l, Run(l, h, es).value)
    decreases |es|
  {
    hide Inv, Orderly;
    if es != [] {
      StepKeeps(l, h, es[0]);
      RunKeeps(l, Step(l, h, es[0]).value, es[1..]);
    }
  }

  /** In every state an orderly run reaches, including between the awaits of several crash handlers and of a stop, every
      dependency of a running extension is running, directly and indirectly; and once a stop has ended nothing runs. */
  lemma RunningIsSupported(l: Layout, h: Host, es: seq<Event>, x: Id, y: Id)
    requires l.Valid() && Initial(h) && OrderlyRun(l, h, es)
    requires Run(l, h, es).Some? && IsRunning(Run(l, h, es).value.status, x) && Reaches(l.graph, x, y)
    ensures IsRunning(Run(l, h, es).value.status, y) && Run(l, h, es).value.runtime
  {
    hide Inv;
    InitialInv(l, h);
    RunKeeps(l, h, es);
    InvIsSound(l, Run(l, h, es).value);
    var p :| IsPath(l.graph, p) && p[0] == x && p[|p| - 1] == y;
    RunningAlongPath(l, Run(l, h, es).value.status, p);
  }

  lemma {:induction false} RunningAlongPath(l: Layout, status: map<Id, Status>, p: seq<Id>)
    requires Supported(l, status) && IsPath(l.graph, p) && IsRunning(status, p[0])
    ensures IsRunning(status, p[|p| - 1])
    decreases |p|
  {
    if |p| >= 2 {
      assert DependenciesRunning(l, status, p[0]);
      RunningAlongPath(l, status, p[1..]);
    }
  }

  lemma {:induction false} RunsCompose(l: Layout, h: Host, es: seq<Event>, fs: seq<Event>)
    requires Run(l, h, es).Some?
    ensures Run(l, h, es + fs) == Run(l, Run(l, h, es).value, fs)
    ensures OrderlyRun(l, h, es) && OrderlyRun(l, Run(l, h, es).value, fs) ==> OrderlyRun(l, h, es + fs)
    decreases |es|
  {
    hide Orderly, Step;
    if es == [] {
      assert es + fs == fs;
    } else {
      assert (es + fs)[1..] == es[1..] + fs;
      RunsCompose(l, Step(l, h, es[0]).value, es[1..], fs);
    }
  }
}
