/** The host object itself: one method per stretch of code between two awaits, each proved to be its step of
    `RuntimeMachine`. */
module RuntimeHosts {
  import opened Outcomes
  import opened Extensions
  import opened RuntimeMachine

  class RuntimeHost {
    const layout: Layout
    var status: map<Id, Status>
    var started: set<Id>
    var start: Option<StartTask>
    var stop: Option<StopTask>
    var crashes: map<Id, Crash>
    var runtime: bool
    var stopping: bool

    constructor (layout: Layout, status: map<Id, Status>)
      ensures this.layout == layout && View() == Host(status, {}, None, None, map[], false, false)
    {
      this.layout, this.status := layout, status;
      started, start, stop, crashes, runtime, stopping := {}, None, None, map[], false, false;
    }

    function View(): Host
      reads this
    {
      Host(status, started, start, stop, crashes, runtime, stopping)
    }

    /** What a step leaves: its result, or nothing changed where the code returns at once. */
    twostate predicate Took(e: Event)
      reads this
    {
      View() == match Step(layout, old(View()), e) case Some(h) => h case None => old(View())
    }

    method DependencyError(x: Id) returns (error: bool)
      ensures error <==> !DependenciesRunning(layout, status, x)
    {
      var deps := Deps(layout.graph, x);
      for i := 0 to |deps|
        invariant forall d :: d in deps[..i] ==> IsRunning(status, d)
      {
        if !IsRunning(status, deps[i]) {
          return true;
        }
      }
      return false;
    }

    /** A start checkpoint; an existing block is not overwritten. */
    method EnsureStartAllowed(x: Id) returns (allowed: bool)
      modifies this`status
      ensures allowed <==> StatusOf(old(status), x) != Blocked && DependenciesRunning(layout, old(status), x)
      ensures status == if allowed then old(status) else old(status)[x := Blocked]
    {
      if StatusOf(status, x) == Blocked {
        assert status == status[x := Blocked];
        return false;
      }
      var error := DependencyError(x);
      if error {
        status := status[x := Blocked];
        return false;
      }
      return true;
    }

    method BeginStart()
      modifies this
      ensures Took(StartBegins)
    {
      runtime, stopping := true, false;
      start := Some(StartTask(0, Next));
    }

    method StartTurn()
      modifies this
      ensures Took(StartNext)
    {
      if start.None? || start.value.pc != Next {
        return;
      }
      var pos := start.value.pos;
      if pos >= |layout.order| {
        start := None;
        return;
      }
      var x := layout.order[pos];
      if StatusOf(status, x) != Loaded {
        start := Some(StartTask(pos + 1, Next));
        return;
      }
      var error := DependencyError(x);
      if error {
        status := status[x := Blocked];
        start := Some(StartTask(pos + 1, Next));
      } else {
        status := status[x := Starting];
        start := Some(StartTask(pos, Awaiting(0)));
      }
    }

    /** One of the awaits of a start returns, or raises. */
    method ResumeStart(ok: bool)
      modifies this
      ensures Took(StartResumes(ok))
    {
      if start.None? || !start.value.pc.Awaiting? || start.value.pos >= |layout.order| {
        return;
      }
      var StartTask(pos, pc) := start.value;
      var x := layout.order[pos];
      if !ok {
        started := started - {x};
        start := Some(StartTask(pos, CleaningFailed));
        return;
      }
      var allowed := EnsureStartAllowed(x);
      if !allowed {
        started := started - {x};
        start := Some(StartTask(pos, CleaningBlocked));
      } else if pc.stage < LAST_STAGE {
        if pc.stage == 1 {
          started := started + {x};
        }
        start := Some(StartTask(pos, Awaiting(pc.stage + 1)));
      } else {
        status := status[x := Running];
        start := Some(StartTask(pos + 1, Next));
      }
    }

    method FinishStartCleanup(error: bool)
      modifies this
      ensures Took(StartCleaned(error))
    {
      if start.None? || start.value.pos >= |layout.order| {
        return;
      }
      var StartTask(pos, pc) := start.value;
      if pc == CleaningFailed {
        status := status[layout.order[pos] := Degraded];
      } else if pc != CleaningBlocked {
        return;
      } else if error {
        status := status[layout.order[pos] := Blocked];
      }
      start := Some(StartTask(pos + 1, Next));
    }

    /** The single pass over the order that collects everything depending on the owner. */
    method CollectAffected(owner: Id) returns (affected: set<Id>)
      ensures affected == Affected(layout, owner, |layout.order|)
    {
      affected := {owner};
      for i := 0 to |layout.order|
        invariant affected == Affected(layout, owner, i)
      {
        var deps := Deps(layout.graph, layout.order[i]);
        if exists d :: d in deps && d in affected {
          affected := affected + {layout.order[i]};
        }
      }
    }

    method BeginCrash(owner: Id)
      modifies this
      ensures Took(CrashBegins(owner))
    {
      if !runtime || stopping || owner in crashes || !IsRunning(status, owner) {
        return;
      }
      var affected := CollectAffected(owner);
      ghost var before := View();
      var pending := status.Keys;
      while pending != {}
        invariant pending <= before.status.Keys && status.Keys == before.status.Keys
        invariant View() == before.(status := status)
        invariant forall x :: x in status ==>
                    status[x] == if x in pending then before.status[x] else BlockStarting(before, affected, owner)[x]
        decreases pending
      {
        var x :| x in pending;
        if x != owner && x in affected && status[x] == Starting {
          status := status[x := Blocked];
        }
        pending := pending - {x};
      }
      assert status == BlockStarting(before, affected, owner);
      crashes := crashes[owner := Crash(affected, Scanning(|layout.order|))];
    }

    method CrashTurn(owner: Id)
      modifies this
      ensures Took(CrashScans(owner))
    {
      if owner !in crashes || !crashes[owner].pc.Scanning? || crashes[owner].pc.pos > |layout.order| {
        return;
      }
      var c := crashes[owner];
      if c.pc.pos == 0 {
        started := started - {owner};
        crashes := crashes[owner := c.(pc := Degrading)];
        return;
      }
      var i := c.pc.pos - 1;
      var x := layout.order[i];
      if x != owner && x in c.affected && IsRunning(status, x) {
        started := started - {x};
        crashes := crashes[owner := c.(pc := Stopping(i))];
      } else {
        crashes := crashes[owner := c.(pc := Scanning(i))];
      }
    }

    /** A deactivation the handler waits for returns. */
    method ResumeCrash(owner: Id)
      modifies this
      ensures Took(CrashResumes(owner))
    {
      if owner !in crashes {
        return;
      }
      var c := crashes[owner];
      if c.pc == Degrading {
        status := status[owner := Degraded];
        crashes := crashes - {owner};
      } else if c.pc.Stopping? && c.pc.pos < |layout.order| {
        status := status[layout.order[c.pc.pos] := Blocked];
        crashes := crashes[owner := c.(pc := Scanning(c.pc.pos))];
      }
    }

    method BeginStop()
      modifies this
      ensures Took(StopBegins)
    {
      stopping := true;
      stop := Some(StopTask(|layout.order|, false));
    }

    method StopTurn()
      modifies this
      ensures Took(StopNext)
    {
      if stop.None? || stop.value.waiting || stop.value.pos > |layout.order| {
        return;
      }
      var pos := stop.value.pos;
      if pos == 0 {
        runtime := false;
        stop := None;
        return;
      }
      var x := layout.order[pos - 1];
      if x in started {
        started := started - {x};
        stop := Some(StopTask(pos, true));
        return;
      }
      if x in layout.registered && StatusOf(status, x) == Blocked {
        status := status[x := Loaded];
      }
      stop := Some(StopTask(pos - 1, false));
    }

    method ResumeStop(ok: bool)
      modifies this
      ensures Took(StopResumes(ok))
    {
      if stop.None? || !stop.value.waiting || stop.value.pos == 0 || stop.value.pos > |layout.order| {
        return;
      }
      status := status[layout.order[stop.value.pos - 1] := if ok then Loaded else Degraded];
      stop := Some(StopTask(stop.value.pos - 1, false));
    }
  }
}
