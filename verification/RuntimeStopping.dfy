/** What the steps of a stop keep, while the last of a start and of crash handlers may still be under way. */
module RuntimeStopping {
  import opened Outcomes
  import opened Extensions
  import opened RuntimeMachine
  import opened RuntimeSafety

  ghost predicate RunningPlaced(l: Layout, status: map<Id, Status>) {
    forall x :: IsRunning(status, x) ==> Placed(l, x)
  }

  /** A handler that is left over knows what is affected and waits only for an affected extension. */
  ghost predicate LeftoverOk(l: Layout, owner: Id, c: Crash) {
    && c.affected == Affected(l, owner, |l.order|)
    && (c.pc.Stopping? && c.pc.pos < |l.order| ==> l.order[c.pc.pos] in c.affected && l.order[c.pc.pos] != owner)
  }

  ghost predicate LeftoversOk(l: Layout, h: Host) {
    && NothingAffectedRuns(h)
    && forall owner :: owner in h.crashes ==> LeftoverOk(l, owner, h.crashes[owner])
  }

  /** The start that is left over brings nothing up any more. */
  ghost predicate StartIsSpent(l: Layout, h: Host) {
    h.start.Some? ==>
      && NothingReady(l, h)
      && (h.start.value.pc != Next && h.start.value.pos < |l.order| ==>
            && l.order[h.start.value.pos] !in h.crashes && !IsRunning(h.status, l.order[h.start.value.pos])
            && (h.start.value.pc == CleaningBlocked ==> !IsStarting(h.status, l.order[h.start.value.pos])))
  }

  /** Nothing the stop has passed runs, and everything that runs is registered for it. */
  ghost predicate StopOk(l: Layout, h: Host) {
    match h.stop
    case None => !h.runtime && forall x :: !IsRunning(h.status, x)
    case Some(StopTask(pos, waiting)) =>
      && h.runtime && h.stopping && pos <= |l.order| && (waiting ==> pos > 0)
      && (forall i :: pos <= i < |l.order| ==> !IsRunning(h.status, l.order[i]))
      && (forall x :: IsRunning(h.status, x) ==> x in h.started || (waiting && x == l.order[pos - 1]))
  }

  /** What the stop waits for would not come up again. */
  ghost predicate WaitingOk(l: Layout, h: Host) {
    h.stop.Some? && h.stop.value.waiting && 0 < h.stop.value.pos <= |l.order| && h.start.Some? ==>
      var i := h.stop.value.pos - 1;
      && (i > h.start.value.pos ==> !DependenciesRunning(l, h.status, l.order[i]))
      && (i == h.start.value.pos ==> h.start.value.pc.CleaningBlocked? || h.start.value.pc.CleaningFailed?
                                     || !DependenciesRunning(l, h.status, l.order[i]))
  }

  ghost predicate DownInv(l: Layout, h: Host) {
    && Supported(l, h.status) && RunningPlaced(l, h.status)
    && OneStarts(l, h) && LeftoversOk(l, h) && StartIsSpent(l, h) && StopOk(l, h) && WaitingOk(l, h)
  }

  lemma DownParts(l: Layout, h: Host)
    requires DownInv(l, h)
    ensures Supported(l, h.status) && RunningPlaced(l, h.status)
    ensures OneStarts(l, h) && LeftoversOk(l, h) && StartIsSpent(l, h) && StopOk(l, h) && WaitingOk(l, h)
  {
  }

  /** A stop that waits for whatever is under way takes the host from one invariant to the other. */
  lemma StopBeginsKeeps(l: Layout, h: Host)
    requires l.Valid() && UpInv(l, h) && Safe(l, h, StopBegins)
    ensures DownInv(l, Step(l, h, StopBegins).value)
  {
    hide CrashOk, Supported, Placed;
    var h' := Step(l, h, StopBegins).value;
    UpParts(l, h);
    HandlersAreLeftovers(l, h);
    StopBeginsRegistered(l, h);
    assert NothingReady(l, h') by { SameReady(l, h, h'); }
    if h.start.Some? && h.start.value.pos < |l.order| {
      NotBehind(l, h.start.value.pos);
    }
  }

  lemma SameReady(l: Layout, h: Host, h': Host)
    requires NothingReady(l, h) && h'.start == h.start && h'.status == h.status && h'.started == h.started
    ensures NothingReady(l, h')
  {
    if h.start.Some? {
      forall i | h.start.value.pos <= i < |l.order|
        ensures !Ready(l, h', i)
      {
        assert !Ready(l, h, i);
      }
    }
  }

  lemma HandlersAreLeftovers(l: Layout, h: Host)
    requires CrashesOk(l, h)
    ensures forall owner :: owner in h.crashes ==> LeftoverOk(l, owner, h.crashes[owner])
  {
    hide Affected;
    forall owner | owner in h.crashes
      ensures LeftoverOk(l, owner, h.crashes[owner])
    {
      assert CrashOk(l, h.status, h.started, owner, h.crashes[owner]);
    }
  }

  lemma StopBeginsRegistered(l: Layout, h: Host)
    requires Registered(l, h) && CrashesOk(l, h) && NothingAffectedRuns(h)
    ensures forall x :: IsRunning(h.status, x) ==> x in h.started
  {
    forall x | IsRunning(h.status, x)
      ensures x in h.started
    {
      if BeingTorn(l, h, x) {
        var owner :| owner in h.crashes && Tears(l, owner, h.crashes[owner], x);
        assert CrashOk(l, h.status, h.started, owner, h.crashes[owner]);
        AffectedGrows(l, owner, 0, |l.order|);
        assert false;
      }
    }
  }

  /** A host at rest that begins to start is up. */
  lemma StartBeginsKeeps(l: Layout, h: Host)
    requires l.Valid() && DownInv(l, h) && Lifecycle(h, StartBegins)
    ensures UpInv(l, Step(l, h, StartBegins).value)
  {
    var h' := Step(l, h, StartBegins).value;
    assert forall x :: !IsRunning(h'.status, x) && !IsStarting(h'.status, x);
  }

  // ----- what is not ready stays so -----

  /** Nothing becomes ready when nothing begins to run and every later extension may pass only if it might before. */
  lemma NothingBecomesReady(l: Layout, h: Host, h': Host)
    requires NothingReady(l, h) && h.start.Some?
    requires h'.start.Some? ==> h.start.value.pos <= h'.start.value.pos
    requires forall y :: IsRunning(h'.status, y) ==> IsRunning(h.status, y)
    requires h'.start.Some? ==> forall i :: h'.start.value.pos <= i < |l.order| ==>
               (DependenciesRunning(l, h.status, l.order[i]) && MayPass(l, h', i) ==> MayPass(l, h, i))
    ensures NothingReady(l, h')
  {
    hide MayPass;
    if h'.start.Some? {
      forall i | h'.start.value.pos <= i < |l.order|
        ensures !Ready(l, h', i)
      {
        assert !Ready(l, h, i);
        if DependenciesRunning(l, h'.status, l.order[i]) {
          assert DependenciesRunning(l, h.status, l.order[i]);
        }
      }
    }
  }

  /** What is affected and not the owner has an affected dependency, which does not run. */
  lemma AffectedIsNotReady(l: Layout, h: Host, owner: Id, x: Id)
    requires l.Valid() && NothingAffectedRuns(h) && owner in h.crashes && x in h.crashes[owner].affected && x != owner
    requires h.crashes[owner].affected == Affected(l, owner, |l.order|)
    ensures !DependenciesRunning(l, h.status, x)
  {
    var i := AddedInItsTurn(l, owner, |l.order|, x);
    var d :| d in Deps(l.graph, x) && d in Affected(l, owner, i);
    AffectedGrows(l, owner, i, |l.order|);
    assert d in h.crashes[owner].affected && !IsRunning(h.status, d);
  }

  /** Fewer extensions run; the rest of the invariant that speaks of them follows. */
  lemma FewerRunDown(l: Layout, h: Host, h': Host)
    requires RunningPlaced(l, h.status) && LeftoversOk(l, h)
    requires forall y :: IsRunning(h'.status, y) ==> IsRunning(h.status, y)
    requires forall o :: o in h'.crashes ==> LeftoverOk(l, o, h'.crashes[o])
    requires forall o :: o in h'.crashes ==> o in h.crashes && h'.crashes[o].affected == h.crashes[o].affected
    ensures RunningPlaced(l, h'.status) && LeftoversOk(l, h')
  {
    hide LeftoverOk, Placed;
  }

  // ----- the start that is left over -----

  /** How the start loop of a stopping host may go on: past its extension, or into cleaning up after it. */
  ghost predicate GoesOn(h: Host, h': Host, x: Id)
    requires h.start.Some?
  {
    && h' == h.(start := h'.start, started := h'.started, status := h'.status)
    && h'.start.Some?
    && (forall y :: y != x ==> StatusOf(h'.status, y) == StatusOf(h.status, y))
    && (IsRunning(h'.status, x) ==> IsRunning(h.status, x))
    && (IsRunning(h.status, x) ==> h'.status == h.status && h'.started == h.started)
    && (forall y :: y != x ==> (y in h'.started <==> y in h.started))
    && var StartTask(pos, pc) := h'.start.value;
       if pc == Next then pos == h.start.value.pos + 1 && !IsStarting(h'.status, x)
       else pos == h.start.value.pos && !pc.Awaiting? && h.start.value.pc != Next
            && (IsStarting(h'.status, x) ==> IsStarting(h.status, x) && pc != CleaningBlocked)
  }

  lemma SpentMoves(l: Layout, h: Host, h': Host)
    requires l.Valid() && DownInv(l, h) && h.start.Some? && h.start.value.pos < |l.order|
    requires GoesOn(h, h', l.order[h.start.value.pos])
    ensures DownInv(l, h')
  {
    hide Placed, LeftoversOk, Ready, MayPass, Supported, NothingReady, RunningPlaced;
    var x := l.order[h.start.value.pos];
    DownParts(l, h);
    assert forall y :: IsRunning(h'.status, y) <==> IsRunning(h.status, y) by {
      forall y
        ensures IsRunning(h'.status, y) <==> IsRunning(h.status, y)
      {
        assert y != x ==> StatusOf(h'.status, y) == StatusOf(h.status, y);
      }
    }
    SpentLeftovers(l, h, h');
    SpentStatus(l, h.status, h'.status);
    SpentReady(l, h, h', x);
    forall y | IsStarting(h'.status, y)
      ensures y == x && h'.start.value.pc != Next
    {
      assert y != x ==> StatusOf(h'.status, y) == StatusOf(h.status, y);
      assert y != x ==> IsStarting(h.status, y);
    }
    SpentStop(l, h, h', x);
    StillWaiting(l, h, h');
  }

  lemma SpentStop(l: Layout, h: Host, h': Host, x: Id)
    requires StopOk(l, h) && h'.stop == h.stop && h'.runtime == h.runtime && h'.stopping == h.stopping
    requires forall y :: IsRunning(h'.status, y) <==> IsRunning(h.status, y)
    requires forall y :: y != x ==> (y in h'.started <==> y in h.started)
    requires IsRunning(h.status, x) ==> h'.started == h.started
    ensures StopOk(l, h')
  {
  }

  lemma StillWaiting(l: Layout, h: Host, h': Host)
    requires WaitingOk(l, h) && h'.stop == h.stop
    requires forall y :: IsRunning(h'.status, y) ==> IsRunning(h.status, y)
    requires h'.start.Some? ==> h.start.Some? && h.start.value.pos <= h'.start.value.pos
    requires h'.start.Some? && h'.start.value.pos == h.start.value.pos ==>
               h'.start.value.pc == h.start.value.pc || h'.start.value.pc.CleaningBlocked?
                 || h'.start.value.pc.CleaningFailed?
    ensures WaitingOk(l, h')
  {
  }

  lemma SpentStatus(l: Layout, before: map<Id, Status>, after: map<Id, Status>)
    requires Supported(l, before) && RunningPlaced(l, before)
    requires forall y :: IsRunning(after, y) <==> IsRunning(before, y)
    ensures Supported(l, after) && RunningPlaced(l, after)
  {
    hide Placed;
    forall x | IsRunning(after, x)
      ensures DependenciesRunning(l, after, x)
    {
      assert DependenciesRunning(l, before, x);
    }
  }

  lemma SpentLeftovers(l: Layout, h: Host, h': Host)
    requires LeftoversOk(l, h) && h'.crashes == h.crashes
    requires forall y :: IsRunning(h'.status, y) ==> IsRunning(h.status, y)
    ensures LeftoversOk(l, h')
  {
    hide LeftoverOk;
  }

  lemma SpentReady(l: Layout, h: Host, h': Host, x: Id)
    requires l.Valid() && NothingReady(l, h) && h.start.Some? && h'.start.Some?
    requires h.start.value.pos < |l.order| && x == l.order[h.start.value.pos]
    requires forall y :: IsRunning(h'.status, y) ==> IsRunning(h.status, y)
    requires forall y :: y != x ==> StatusOf(h'.status, y) == StatusOf(h.status, y)
    requires forall y :: y != x ==> (y in h'.started <==> y in h.started)
    requires if h'.start.value.pc == Next then h'.start.value.pos == h.start.value.pos + 1
             else h'.start.value.pos == h.start.value.pos && !h'.start.value.pc.Awaiting?
    ensures NothingReady(l, h')
  {
    forall i | h'.start.value.pos <= i < |l.order| && MayPass(l, h', i)
      ensures MayPass(l, h, i)
    {
      assert i != h.start.value.pos && l.order[i] != x;
    }
    NothingBecomesReady(l, h, h');
  }

  lemma SpentNow(l: Layout, h: Host)
    requires DownInv(l, h) && h.start.Some? && h.start.value.pos < |l.order|
    ensures !Ready(l, h, h.start.value.pos)
    ensures h.start.value.pc == Next ==> !IsStarting(h.status, l.order[h.start.value.pos])
    ensures h.start.value.pc != Next ==> !IsRunning(h.status, l.order[h.start.value.pos])
    ensures h.start.value.pc == CleaningBlocked ==> !IsStarting(h.status, l.order[h.start.value.pos])
  {
  }

  lemma SpentStartNext(l: Layout, h: Host)
    requires l.Valid() && DownInv(l, h) && Step(l, h, StartNext).Some?
    ensures DownInv(l, Step(l, h, StartNext).value)
  {
    var pos := h.start.value.pos;
    if pos >= |l.order| {
      SpentEnds(l, h);
    } else {
      SpentNow(l, h);
      hide DownInv, DependenciesRunning;
      SpentMoves(l, h, Step(l, h, StartNext).value);
    }
  }

  lemma SpentEnds(l: Layout, h: Host)
    requires DownInv(l, h) && h.start.Some? && h.start.value.pc == Next
    ensures DownInv(l, h.(start := None))
  {
    hide LeftoverOk, Placed, Supported;
  }

  lemma SpentResumes(l: Layout, h: Host, ok: bool)
    requires l.Valid() && DownInv(l, h) && Step(l, h, StartResumes(ok)).Some?
    ensures DownInv(l, Step(l, h, StartResumes(ok)).value)
  {
    hide DownInv, DependenciesRunning;
    SpentNow(l, h);
    SpentMoves(l, h, Step(l, h, StartResumes(ok)).value);
  }

  lemma SpentCleaned(l: Layout, h: Host, error: bool)
    requires l.Valid() && DownInv(l, h) && Step(l, h, StartCleaned(error)).Some?
    ensures DownInv(l, Step(l, h, StartCleaned(error)).value)
  {
    hide DownInv, DependenciesRunning;
    SpentNow(l, h);
    SpentMoves(l, h, Step(l, h, StartCleaned(error)).value);
  }

  // ----- the crash handlers that are left over -----

  /** A leftover handler moves, and may give one affected extension a status. */
  lemma LeftoverMoves(l: Layout, h: Host, h': Host, x: Id)
    requires l.Valid() && DownInv(l, h)
    requires h' == h.(crashes := h'.crashes, started := h'.started, status := h'.status)
    requires !IsRunning(h.status, x) && !IsRunning(h'.status, x) && !IsStarting(h'.status, x)
    requires forall y :: y != x ==> StatusOf(h'.status, y) == StatusOf(h.status, y)
    requires h'.started <= h.started && forall y :: y in h.started && y !in h'.started ==> !IsRunning(h.status, y)
    requires forall o :: o in h'.crashes ==> o in h.crashes && h'.crashes[o].affected == h.crashes[o].affected
    requires forall o :: o in h'.crashes ==> LeftoverOk(l, o, h'.crashes[o])
    requires h.start.Some? ==> forall i ::
               (h.start.value.pos <= i < |l.order| && DependenciesRunning(l, h.status, l.order[i])) ==>
               (MayPass(l, h', i) ==> MayPass(l, h, i))
    ensures DownInv(l, h')
  {
    hide Placed, LeftoverOk, Ready, MayPass, Supported, NothingReady, RunningPlaced;
    DownParts(l, h);
    assert forall y :: IsRunning(h'.status, y) <==> IsRunning(h.status, y) by {
      forall y
        ensures IsRunning(h'.status, y) <==> IsRunning(h.status, y)
      {
        assert y != x ==> StatusOf(h'.status, y) == StatusOf(h.status, y);
      }
    }
    FewerRunDown(l, h, h');
    StillWaiting(l, h, h');
    SpentStatus(l, h.status, h'.status);
    if h.start.Some? {
      NothingBecomesReady(l, h, h');
    }
    forall y | IsStarting(h'.status, y)
      ensures IsStarting(h.status, y)
    {
      assert y != x ==> StatusOf(h'.status, y) == StatusOf(h.status, y);
    }
  }

  lemma LeftoverScans(l: Layout, h: Host, owner: Id)
    requires l.Valid() && DownInv(l, h) && Step(l, h, CrashScans(owner)).Some?
    ensures DownInv(l, Step(l, h, CrashScans(owner)).value)
  {
    var c := h.crashes[owner];
    AffectedGrows(l, owner, 0, |l.order|);
    assert LeftoverOk(l, owner, c) && NothingAffectedRuns(h);
    hide DownInv, DependenciesRunning, Affected, Supported, RunningPlaced, OneStarts, StopOk, WaitingOk;
    LeftoverMoves(l, h, Step(l, h, CrashScans(owner)).value, owner);
  }

  lemma LeftoverDegrades(l: Layout, h: Host, owner: Id)
    requires l.Valid() && DownInv(l, h) && owner in h.crashes && h.crashes[owner].pc == Degrading
    ensures DownInv(l, Step(l, h, CrashResumes(owner)).value)
  {
    AffectedGrows(l, owner, 0, |l.order|);
    assert LeftoverOk(l, owner, h.crashes[owner]) && NothingAffectedRuns(h);
    DownParts(l, h);
    hide DownInv, DependenciesRunning, Affected, Supported, RunningPlaced, OneStarts, StopOk, WaitingOk;
    LeftoverMoves(l, h, Step(l, h, CrashResumes(owner)).value, owner);
  }

  lemma LeftoverStopped(l: Layout, h: Host, owner: Id)
    requires l.Valid() && DownInv(l, h) && owner in h.crashes && h.crashes[owner].pc.Stopping?
    requires h.crashes[owner].pc.pos < |l.order|
    ensures DownInv(l, Step(l, h, CrashResumes(owner)).value)
  {
    var x := l.order[h.crashes[owner].pc.pos];
    assert LeftoverOk(l, owner, h.crashes[owner]) && NothingAffectedRuns(h);
    AffectedIsNotReady(l, h, owner, x);
    DownParts(l, h);
    hide DownInv, DependenciesRunning, Affected, Supported, RunningPlaced, OneStarts, StopOk, WaitingOk;
    LeftoverMoves(l, h, Step(l, h, CrashResumes(owner)).value, x);
  }

  lemma LeftoverResumes(l: Layout, h: Host, owner: Id)
    requires l.Valid() && DownInv(l, h) && Step(l, h, CrashResumes(owner)).Some?
    ensures DownInv(l, Step(l, h, CrashResumes(owner)).value)
  {
    hide DownInv;
    if h.crashes[owner].pc == Degrading {
      LeftoverDegrades(l, h, owner);
    } else {
      LeftoverStopped(l, h, owner);
    }
  }

  // ----- the stop itself -----

  /** Nothing running depends on what the stop comes to, since nothing later in the order runs. */
  lemma NothingDepends(l: Layout, h: Host, i: nat)
    requires l.Valid() && RunningPlaced(l, h.status) && i < |l.order|
    requires forall j :: i < j < |l.order| ==> !IsRunning(h.status, l.order[j])
    ensures forall y :: IsRunning(h.status, y) ==> l.order[i] !in Deps(l.graph, y)
  {
    forall y | IsRunning(h.status, y)
      ensures l.order[i] !in Deps(l.graph, y)
    {
      assert Placed(l, y);
      var j :| 0 <= j < |l.order| && l.order[j] == y && forall d :: d in Deps(l.graph, y) ==> d in l.order[..j];
    }
  }

  /** The stop takes what it waited for, or what was blocked, to another status, which is not RUNNING. */
  lemma StopLowers(l: Layout, status: map<Id, Status>, x: Id, s: Status)
    requires Supported(l, status) && RunningPlaced(l, status) && s != Running
    requires forall y :: IsRunning(status, y) ==> x !in Deps(l.graph, y)
    ensures Supported(l, status[x := s]) && RunningPlaced(l, status[x := s])
  {
    hide Placed;
    var after := status[x := s];
    StatusSet(status, x, s);
    forall y | IsRunning(after, y)
      ensures DependenciesRunning(l, after, y)
    {
      assert DependenciesRunning(l, status, y);
    }
  }

  /** A stop that gives the extension `x` a status, or none, and goes on. */
  lemma StopMoves(l: Layout, h: Host, h': Host, x: Id, s: Status)
    requires l.Valid() && DownInv(l, h)
    requires h' == h.(stop := h'.stop, runtime := h'.runtime, started := h'.started, status := h'.status)
    requires h'.status == h.status || (h'.status == h.status[x := s] && s != Running && s != Starting && s != Blocked)
    requires h'.status != h.status ==> forall y :: IsRunning(h.status, y) ==> x !in Deps(l.graph, y)
    requires StopOk(l, h') && WaitingOk(l, h')
    requires h.start.Some? ==> forall i ::
               (h.start.value.pos <= i < |l.order| && DependenciesRunning(l, h.status, l.order[i])) ==>
               (MayPass(l, h', i) ==> MayPass(l, h, i))
    ensures DownInv(l, h')
  {
    hide Placed, LeftoverOk, Ready, MayPass, Supported, NothingReady, RunningPlaced, StopOk, WaitingOk;
    DownParts(l, h);
    StatusSet(h.status, x, s);
    assert forall y :: IsRunning(h'.status, y) ==> IsRunning(h.status, y);
    assert forall y :: IsStarting(h'.status, y) ==> IsStarting(h.status, y);
    FewerRunDown(l, h, h');
    if h'.status != h.status {
      StopLowers(l, h.status, x, s);
    }
    if h.start.Some? {
      NothingBecomesReady(l, h, h');
    }
  }

  lemma StopNextKeeps(l: Layout, h: Host)
    requires l.Valid() && DownInv(l, h) && Step(l, h, StopNext).Some?
    ensures DownInv(l, Step(l, h, StopNext).value)
  {
    assert StopOk(l, h);
    hide DownInv;
    if h.stop.value.pos == 0 {
      StopEnds(l, h);
    } else if l.order[h.stop.value.pos - 1] in h.started {
      StopWaits(l, h);
    } else {
      StopPasses(l, h);
    }
  }

  lemma StopPasses(l: Layout, h: Host)
    requires l.Valid() && DownInv(l, h) && h.stop.Some? && !h.stop.value.waiting && 0 < h.stop.value.pos <= |l.order|
    requires l.order[h.stop.value.pos - 1] !in h.started
    ensures DownInv(l, Step(l, h, StopNext).value)
  {
    DownParts(l, h);
    hide DownInv, DependenciesRunning, Supported, LeftoversOk, StartIsSpent, OneStarts;
    var i := h.stop.value.pos - 1;
    var x := l.order[i];
    assert !IsRunning(h.status, x);
    NothingDepends(l, h, i);
    hide RunningPlaced;
    StatusSet(h.status, x, Loaded);
    StopMoves(l, h, Step(l, h, StopNext).value, x, Loaded);
  }

  lemma StopEnds(l: Layout, h: Host)
    requires l.Valid() && DownInv(l, h) && h.stop == Some(StopTask(0, false))
    ensures DownInv(l, h.(stop := None, runtime := false))
  {
    DownParts(l, h);
    forall x
      ensures !IsRunning(h.status, x)
    {
      assert IsRunning(h.status, x) ==> Placed(l, x);
    }
    hide DownInv;
    StopMoves(l, h, h.(stop := None, runtime := false), "", Loaded);
  }

  lemma StopWaits(l: Layout, h: Host)
    requires l.Valid() && DownInv(l, h) && h.stop.Some? && !h.stop.value.waiting && 0 < h.stop.value.pos <= |l.order|
    requires l.order[h.stop.value.pos - 1] in h.started
    ensures DownInv(l, h.(started := h.started - {l.order[h.stop.value.pos - 1]},
                          stop := Some(StopTask(h.stop.value.pos, true))))
  {
    DownParts(l, h);
    var i := h.stop.value.pos - 1;
    var h' := h.(started := h.started - {l.order[i]}, stop := Some(StopTask(i + 1, true)));
    if h.start.Some? && h.start.value.pos <= i {
      assert !Ready(l, h, i);
    }
    hide DownInv, DependenciesRunning;
    StopMoves(l, h, h', "", Loaded);
  }

  lemma StopResumesKeeps(l: Layout, h: Host, ok: bool)
    requires l.Valid() && DownInv(l, h) && Step(l, h, StopResumes(ok)).Some?
    ensures DownInv(l, Step(l, h, StopResumes(ok)).value)
  {
    DownParts(l, h);
    var i := h.stop.value.pos - 1;
    var x := l.order[i];
    var s := if ok then Loaded else Degraded;
    NothingDepends(l, h, i);
    StatusSet(h.status, x, s);
    hide DownInv, DependenciesRunning;
    StopMoves(l, h, Step(l, h, StopResumes(ok)).value, x, s);
  }

  /** Every orderly step of a host that is stopping, or has stopped, keeps the invariant. */
  lemma DownKeeps(l: Layout, h: Host, e: Event)
    requires l.Valid() && DownInv(l, h) && Orderly(l, h, e) && Step(l, h, e).Some?
    ensures if e == StartBegins then UpInv(l, Step(l, h, e).value) else DownInv(l, Step(l, h, e).value)
  {
    match e
    case StartBegins => StartBeginsKeeps(l, h);
    case StartNext => SpentStartNext(l, h);
    case StartResumes(ok) => SpentResumes(l, h, ok);
    case StartCleaned(error) => SpentCleaned(l, h, error);
    case CrashBegins(owner) =>
    case CrashScans(owner) => LeftoverScans(l, h, owner);
    case CrashResumes(owner) => LeftoverResumes(l, h, owner);
    case StopBegins =>
    case StopNext => StopNextKeeps(l, h);
    case StopResumes(ok) => StopResumesKeeps(l, h, ok);
  }
}
