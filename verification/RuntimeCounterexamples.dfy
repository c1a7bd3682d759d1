/** From a freshly loaded host, orderly steps lead into each of the windows that `Safe` keeps a step out of. */
module RuntimeCounterexamples {
  import opened Outcomes
  import opened Extensions
  import opened RuntimeMachine
  import opened RuntimeSafety
  import opened RuntimeRuns
  import opened RuntimeExactness

  /** Two extensions, the second depending on the first. */
  const PAIR := Layout(["a", "b"], map["a" := [], "b" := ["a"]], {"a", "b"})
  const PAIR_LOADED := Host(map["a" := Loaded, "b" := Loaded], {}, None, None, map[], false, false)

  lemma PairAffected()
    ensures Affected(PAIR, "a", 2) == {"a", "b"}
  {
    assert Deps(PAIR.graph, "a") == [] && Deps(PAIR.graph, "b") == ["a"];
    assert Affected(PAIR, "a", 0) == {"a"};
    assert Affected(PAIR, "a", 1) == {"a"};
    assert "a" in Deps(PAIR.graph, PAIR.order[1]) && "a" in Affected(PAIR, "a", 1);
  }

  /** `a` starts, and the start loop is at `b`. */
  lemma HalfUp() returns (es: seq<Event>, h: Host)
    ensures Goes(PAIR, PAIR_LOADED, es, h)
    ensures h.start == Some(StartTask(1, Next)) && h.stop.None? && h.crashes == map[] && h.runtime && !h.stopping
    ensures IsRunning(h.status, "a") && StatusOf(h.status, "b") == Loaded
    ensures forall x :: x in h.status ==> h.status[x] != Starting
  {
    hide Goes;
    var h1 := PAIR_LOADED.(start := Some(StartTask(0, Next)), runtime := true);
    var h2 := SetStatus(h1, "a", Starting).(start := Some(StartTask(0, Awaiting(0))));
    assert Step(PAIR, PAIR_LOADED, StartBegins) == Some(h1) && Orderly(PAIR, PAIR_LOADED, StartBegins);
    assert Step(PAIR, h1, StartNext) == Some(h2) && Orderly(PAIR, h1, StartNext);
    es, h := Checkpoints(PAIR, h2);
    GoesFirst(PAIR, h1, StartNext, h2, es, h);
    GoesFirst(PAIR, PAIR_LOADED, StartBegins, h1, [StartNext] + es, h);
    es := [StartBegins] + ([StartNext] + es);
  }

  lemma HalfCrashes(h: Host) returns (h': Host)
    requires h.runtime && !h.stopping && h.crashes == map[] && IsRunning(h.status, "a")
    requires forall x :: x in h.status ==> h.status[x] != Starting
    ensures Goes(PAIR, h, [CrashBegins("a")], h')
    ensures h' == h.(crashes := map["a" := Crash({"a", "b"}, Scanning(2))])
  {
    PairAffected();
    assert BlockStarting(h, {"a", "b"}, "a") == h.status;
    h' := Step(PAIR, h, CrashBegins("a")).value;
    GoesNowhere(PAIR, h');
    GoesFirst(PAIR, h, CrashBegins("a"), h', [], h');
    assert [CrashBegins("a")] + [] == [CrashBegins("a")];
  }

  /** A run of orderly steps from the loaded pair, then one step that is not safe, then orderly steps again. */
  ghost predicate GoesWrong(es: seq<Event>, e: Event, fs: seq<Event>) {
    exists h, h' ::
      && Goes(PAIR, PAIR_LOADED, es, h) && Lifecycle(h, e) && !Safe(PAIR, h, e) && Step(PAIR, h, e).Some?
      && Goes(PAIR, Step(PAIR, h, e).value, fs, h') && !Sound(PAIR, h')
  }

  lemma WrongFrom(es: seq<Event>, h: Host, e: Event) returns (fs: seq<Event>)
    requires Goes(PAIR, PAIR_LOADED, es, h) && Lifecycle(h, e) && !Safe(PAIR, h, e) && Step(PAIR, h, e).Some?
    ensures GoesWrong(es, e, fs)
  {
    hide Safe, Lifecycle, Sound, Inv, Orderly;
    InitialInv(PAIR, PAIR_LOADED);
    RunKeeps(PAIR, PAIR_LOADED, es);
    var h';
    fs, h' := UnsafeGoesWrong(PAIR, h, e);
  }

  /** `b` begins to start while `a`, which it depends on, is being taken down. */
  lemma CrashWindowIsReachable() returns (es: seq<Event>, fs: seq<Event>)
    ensures PAIR.Valid() && Initial(PAIR_LOADED) && GoesWrong(es, StartNext, fs)
  {
    hide Goes, GoesWrong;
    var half, h := HalfUp();
    var h1 := HalfCrashes(h);
    GoesOn2(PAIR, PAIR_LOADED, half, h, [CrashBegins("a")], h1);
    es := half + [CrashBegins("a")];
    assert "a" in h1.crashes && "b" in h1.crashes["a"].affected;
    assert IsAffected(h1, PAIR.order[1]);
    fs := WrongFrom(es, h1, StartNext);
  }

  /** A stop begins while `a` is being taken down. */
  lemma StopInCrashIsReachable() returns (es: seq<Event>, fs: seq<Event>)
    ensures GoesWrong(es, StopBegins, fs)
  {
    hide Goes, GoesWrong;
    var half, h := HalfUp();
    var h1 := HalfCrashes(h);
    GoesOn2(PAIR, PAIR_LOADED, half, h, [CrashBegins("a")], h1);
    es := half + [CrashBegins("a")];
    assert "a" in h1.crashes && "a" in h1.crashes["a"].affected && IsRunning(h1.status, "a");
    fs := WrongFrom(es, h1, StopBegins);
  }

  /** A stop begins while `b` is still to be started. */
  lemma StopDuringStartIsReachable() returns (es: seq<Event>, fs: seq<Event>)
    ensures GoesWrong(es, StopBegins, fs)
  {
    hide Goes, GoesWrong;
    var h;
    es, h := HalfUp();
    assert Ready(PAIR, h, 1);
    fs := WrongFrom(es, h, StopBegins);
  }
}
