/**
 Dependency ordering and the load pass of the extension manager, in non-strict mode.

 `ResolveDependencies` is the depth-first search over manifests; `LoadAndRegister` is the pass that follows its
 order.  What importing, configuring and registering an extension may do is left open: each outcome is
 a set given to the model, so every result holds for all of them.
 */
module DependencyResolution {
  import opened Extensions

  /** Everything the two passes read. */
  datatype World = World(
    graph: Graph,               // dependencies of every extension that has a manifest when resolution starts
    initial: map<Id, Status>,   // after discovery: disabled, degraded (broken manifest) or missing (placeholder)
    loadable: set<Id>,          // entry point loads and API version matches
    configurable: set<Id>,      // settings and requirements can be applied
    registrable: set<Id>)       // registration raises nothing
  {
    ghost predicate Valid() {
      initial.Keys == graph.Keys && forall x :: x in initial ==> initial[x] in {Disabled, Degraded, Missing}
    }

    /** The search does not look behind this extension. */
    ghost predicate Stuck(x: Id)
      requires Valid()
    {
      x !in graph || initial[x] == Degraded || x !in loadable
    }

    /** A path whose nodes, but for the last, are all expanded. */
    ghost predicate Expanded(p: seq<Id>)
      requires Valid()
    {
      IsPath(graph, p) && forall i :: 0 <= i < |p| - 1 ==> !Stuck(p[i])
    }

    ghost predicate Found(requested: seq<Id>, x: Id)
      requires Valid()
    {
      exists p :: Expanded(p) && p[0] in requested && p[|p| - 1] == x
    }
  }

  /** The mutable state of the search. */
  datatype Search = Search(status: map<Id, Status>, visiting: set<Id>, visited: set<Id>, order: seq<Id>)

  ghost predicate StatusOk(w: World, s: Search)
    requires w.Valid()
  {
    && w.graph.Keys <= s.status.Keys
    && (forall x :: x in s.status ==> s.status[x] in {Disabled, Discovered, Degraded, Missing})
    && (forall x :: x in w.graph && s.status[x] == Degraded ==> w.Stuck(x) || OnCycle(w.graph, x))
    && (forall x :: x in w.graph && x !in s.visited && x !in s.visiting ==> s.status[x] == w.initial[x])
    && (forall x :: x in s.order && x in w.graph && w.Stuck(x) ==> s.status[x] == Degraded)
  }

  ghost predicate OrderOk(w: World, s: Search)
    requires w.Valid()
  {
    && s.visited !! s.visiting
    && (forall i, j :: 0 <= i < j < |s.order| ==> s.order[i] != s.order[j])
    && (forall x :: x in s.order <==> x in s.visited && x in w.graph)
    && (forall i, d :: 0 <= i < |s.order| && !w.Stuck(s.order[i]) && d in Deps(w.graph, s.order[i]) ==>
          DependencySettled(w, s, i, d))
  }

  /** A dependency of the i-th extension of the order comes before it, has no manifest, or lies on a cycle. */
  ghost predicate DependencySettled(w: World, s: Search, i: nat, d: Id)
    requires i < |s.order|
  {
    && d in s.visited + s.visiting
    && (d in s.order[..i] || d !in w.graph || OnCycle(w.graph, d))
  }

  /** What the search keeps true; `stack` is the chain of calls in progress. */
  ghost predicate Searching(w: World, s: Search, requested: seq<Id>, stack: seq<Id>)
    requires w.Valid()
  {
    && StatusOk(w, s) && OrderOk(w, s)
    && (forall x :: x in s.visiting <==> x in stack)
    && (stack != [] ==> w.Expanded(stack) && stack[0] in requested && !w.Stuck(stack[|stack| - 1]))
    && (forall x :: x in s.visited ==> w.Found(requested, x))
  }

  // ----- the search -----

  /** A node met again while its visit is in progress lies on a cycle. */
  lemma CycleOnStack(g: Graph, stack: seq<Id>, x: Id)
    requires x in stack && IsPath(g, stack) && x in Deps(g, stack[|stack| - 1])
    ensures OnCycle(g, x)
  {
    var i :| 0 <= i < |stack| && stack[i] == x;
    assert IsPath(g, stack[i..] + [x]);
  }

  lemma StackExtends(w: World, requested: seq<Id>, stack: seq<Id>, x: Id)
    requires w.Valid()
    requires stack != [] ==> w.Expanded(stack) && stack[0] in requested && !w.Stuck(stack[|stack| - 1])
    requires if stack == [] then x in requested else x in Deps(w.graph, stack[|stack| - 1])
    ensures w.Expanded(stack + [x]) && (stack + [x])[0] in requested
    ensures w.Found(requested, x)
  {
    var p := stack + [x];
    assert w.Expanded(p) && p[|p| - 1] == x;
  }

  ghost predicate SettledAll(w: World, s: Search, ds: seq<Id>) {
    forall d :: d in ds ==> d in s.visited + s.visiting && (d in s.visited || OnCycle(w.graph, d))
  }

  /** `x` is about to be finished: its own visit is the last one in progress, or it never began. */
  ghost predicate Closable(w: World, s: Search, requested: seq<Id>, stack: seq<Id>, x: Id)
    requires w.Valid()
  {
    && Searching(w, s, requested, if x in s.visiting then stack + [x] else stack)
    && x !in s.visited && x !in stack
    && w.Found(requested, x)
    && (stack != [] ==> w.Expanded(stack) && stack[0] in requested && !w.Stuck(stack[|stack| - 1]))
    && (!w.Stuck(x) ==> SettledAll(w, s, Deps(w.graph, x)))
  }

  /** Mark `x` visited and, if it has a manifest, put it in the order. */
  function Closed(w: World, s: Search, x: Id, status: Status): Search {
    Search(s.status[x := status], s.visiting - {x}, s.visited + {x}, if x in w.graph then s.order + [x] else s.order)
  }

  lemma ClosedKeepsOrder(w: World, s: Search, requested: seq<Id>, stack: seq<Id>, x: Id, status: Status)
    requires w.Valid() && Closable(w, s, requested, stack, x)
    ensures OrderOk(w, Closed(w, s, x, status))
  {
    var s' := Closed(w, s, x, status);
    forall i, d | 0 <= i < |s'.order| && !w.Stuck(s'.order[i]) && d in Deps(w.graph, s'.order[i])
      ensures DependencySettled(w, s', i, d)
    {
      if i < |s.order| {
        assert DependencySettled(w, s, i, d);
        assert s'.order[..i] == s.order[..i];
      } else {
        assert s'.order[..i] == s.order;
      }
    }
  }

  lemma Finished(w: World, s: Search, requested: seq<Id>, stack: seq<Id>, x: Id, status: Status)
    requires w.Valid() && Closable(w, s, requested, stack, x)
    requires status == Degraded ==> w.Stuck(x) || OnCycle(w.graph, x)
    requires x in w.graph && w.Stuck(x) ==> status == Degraded
    requires status in {Disabled, Discovered, Degraded, Missing}
    ensures Searching(w, Closed(w, s, x, status), requested, stack)
  {
    ClosedKeepsOrder(w, s, requested, stack, x, status);
  }

  lemma StuckIsClosable(w: World, s: Search, requested: seq<Id>, stack: seq<Id>, x: Id)
    requires w.Valid() && Searching(w, s, requested, stack)
    requires x !in s.visited && x !in s.visiting && w.Found(requested, x)
    requires x !in w.graph || s.status[x] == Degraded || x !in w.loadable
    ensures Closable(w, s, requested, stack, x) && w.Stuck(x)
  {
  }

  lemma Entered(w: World, s: Search, requested: seq<Id>, stack: seq<Id>, x: Id)
    requires w.Valid() && Searching(w, s, requested, stack)
    requires w.Expanded(stack + [x]) && (stack + [x])[0] in requested
    requires x !in s.visited && !w.Stuck(x)
    ensures Searching(w, s.(visiting := s.visiting + {x}), requested, stack + [x])
  {
    var s' := s.(visiting := s.visiting + {x});
    forall i, d | 0 <= i < |s'.order| && !w.Stuck(s'.order[i]) && d in Deps(w.graph, s'.order[i])
      ensures DependencySettled(w, s', i, d)
    {
      assert DependencySettled(w, s, i, d);
    }
  }

  lemma Flagged(w: World, s: Search, requested: seq<Id>, stack: seq<Id>, x: Id)
    requires w.Valid() && Searching(w, s, requested, stack)
    requires x in s.visiting && OnCycle(w.graph, x)
    ensures Searching(w, s.(status := s.status[x := Degraded]), requested, stack)
  {
    var s' := s.(status := s.status[x := Degraded]);
    forall i, d | 0 <= i < |s'.order| && !w.Stuck(s'.order[i]) && d in Deps(w.graph, s'.order[i])
      ensures DependencySettled(w, s', i, d)
    {
      assert DependencySettled(w, s, i, d);
    }
  }

  lemma SearchBegins(w: World, requested: seq<Id>)
    requires w.Valid()
    ensures Searching(w, Search(w.initial, {}, {}, []), requested, [])
  {
  }

  /** What the search itself looks at. */
  lemma SearchFacts(w: World, s: Search, requested: seq<Id>, stack: seq<Id>)
    requires w.Valid() && Searching(w, s, requested, stack)
    ensures w.graph.Keys <= s.status.Keys
    ensures forall x :: x in s.visiting <==> x in stack
    ensures forall x :: x in w.graph && x !in s.visited && x !in s.visiting ==> s.status[x] == w.initial[x]
    ensures stack != [] ==> w.Expanded(stack) && stack[0] in requested && !w.Stuck(stack[|stack| - 1])
  {
  }

  class ExtensionManager {
    const world: World
    var status: map<Id, Status>
    var visiting: set<Id>
    var visited: set<Id>
    var order: seq<Id>

    constructor (world: World)
      ensures this.world == world && status == world.initial && visiting == {} && visited == {} && order == []
    {
      this.world, status := world, world.initial;
      visiting, visited, order := {}, {}, [];
    }

    ghost function State(): Search
      reads this
    {
      Search(status, visiting, visited, order)
    }

    method Close(x: Id, newStatus: Status, ghost requested: seq<Id>, ghost stack: seq<Id>)
      requires world.Valid() && Closable(world, State(), requested, stack, x)
      requires newStatus == Degraded ==> world.Stuck(x) || OnCycle(world.graph, x)
      requires x in world.graph && world.Stuck(x) ==> newStatus == Degraded
      requires newStatus in {Disabled, Discovered, Degraded, Missing}
      modifies this`status, this`visiting, this`visited, this`order
      ensures State() == Closed(world, old(State()), x, newStatus)
      ensures Searching(world, State(), requested, stack)
    {
      Finished(world, State(), requested, stack, x, newStatus);
      visiting := visiting - {x};
      visited := visited + {x};
      if x in world.graph {
        order := order + [x];
      }
      status := status[x := newStatus];
    }

    method FlagCycle(x: Id, ghost requested: seq<Id>, ghost stack: seq<Id>)
      requires world.Valid() && Searching(world, State(), requested, stack)
      requires x in visiting && x in Deps(world.graph, stack[|stack| - 1])
      modifies this`status
      ensures Searching(world, State(), requested, stack) && OnCycle(world.graph, x)
    {
      CycleOnStack(world.graph, stack, x);
      Flagged(world, State(), requested, stack, x);
      status := status[x := Degraded];
    }

    method Visit(x: Id, ghost requested: seq<Id>, ghost stack: seq<Id>, ghost universe: set<Id>)
      requires world.Valid() && Searching(world, State(), requested, stack)
      requires if stack == [] then x in requested else x in Deps(world.graph, stack[|stack| - 1])
      requires x in universe && forall y, d :: y in world.graph && d in world.graph[y] ==> d in universe
      modifies this`status, this`visiting, this`visited, this`order
      decreases universe - visited - visiting, 1
      ensures Searching(world, State(), requested, stack)
      ensures visiting == old(visiting) && old(visited) <= visited && old(order) <= order
      ensures SettledAll(world, State(), [x])
    {
      hide Searching, Closable, StatusOk, OrderOk, DependencySettled, World.Expanded, World.Found;
      if x in visited {
        return;
      }
      SearchFacts(world, State(), requested, stack);
      StackExtends(world, requested, stack, x);
      if x in visiting {
        FlagCycle(x, requested, stack);
      } else if x !in world.graph || status[x] == Degraded || x !in world.loadable {
        StuckIsClosable(world, State(), requested, stack, x);
        Close(x, if x in world.graph then Degraded else Missing, requested, stack);
      } else {
        Expand(x, requested, stack, universe);
      }
    }

    /** Visit the dependencies of `x`, then finish it. */
    method Expand(x: Id, ghost requested: seq<Id>, ghost stack: seq<Id>, ghost universe: set<Id>)
      requires world.Valid() && Searching(world, State(), requested, stack)
      requires world.Expanded(stack + [x]) && (stack + [x])[0] in requested && world.Found(requested, x)
      requires x !in visited && x !in visiting && !world.Stuck(x)
      requires x in universe && forall y, d :: y in world.graph && d in world.graph[y] ==> d in universe
      modifies this`status, this`visiting, this`visited, this`order
      decreases universe - visited - visiting, 0
      ensures Searching(world, State(), requested, stack)
      ensures visiting == old(visiting) && old(visited) <= visited && old(order) <= order
      ensures x in visited
    {
      Entered(world, State(), requested, stack, x);
      visiting := visiting + {x};
      VisitAll(world.graph[x], requested, stack + [x], universe);
      StatusInRange(world, State(), requested, stack + [x], x);
      Close(x, if status[x] == Disabled then Discovered else status[x], requested, stack);
    }

    method VisitAll(ds: seq<Id>, ghost requested: seq<Id>, ghost stack: seq<Id>, ghost universe: set<Id>)
      requires world.Valid() && Searching(world, State(), requested, stack)
      requires forall d :: d in ds ==> if stack == [] then d in requested
               else d in Deps(world.graph, stack[|stack| - 1])
      requires forall d :: d in ds ==> d in universe
      requires forall y, d :: y in world.graph && d in world.graph[y] ==> d in universe
      modifies this`status, this`visiting, this`visited, this`order
      decreases universe - visited - visiting, 2
      ensures Searching(world, State(), requested, stack)
      ensures visiting == old(visiting) && old(visited) <= visited && old(order) <= order
      ensures SettledAll(world, State(), ds)
    {
      hide Searching, World.Expanded, World.Found, World.Stuck;
      for i := 0 to |ds|
        invariant Searching(world, State(), requested, stack)
        invariant visiting == old(visiting) && old(visited) <= visited && old(order) <= order
        invariant SettledAll(world, State(), ds[..i])
      {
        assert ds[i] in ds;
        ShrinksOrStays(universe, old(visited), visited, visiting);
        Visit(ds[i], requested, stack, universe);
        assert ds[..i + 1] == ds[..i] + [ds[i]];
      }
      assert ds[..|ds|] == ds;
    }

    method ResolveDependencies(requested: seq<Id>)
      requires world.Valid()
      requires status == world.initial && visiting == {} && visited == {} && order == []
      modifies this`status, this`visiting, this`visited, this`order
      ensures Searching(world, State(), requested, [])
      ensures forall i, j :: 0 <= i < j < |order| ==> order[i] != order[j]
      ensures forall x :: x in order <==> x in world.graph && world.Found(requested, x)
    {
      hide Searching, World.Found, World.Stuck, World.Expanded;
      SearchBegins(world, requested);
      ghost var universe := world.graph.Keys + (set y, d | y in world.graph && d in world.graph[y] :: d)
                            + (set x | x in requested);
      VisitAll(requested, requested, [], universe);
      FoundIsVisited(world, State(), requested);
      OrderFacts(world, State(), requested);
    }

    /** Settings and requirements of every ordered extension are applied; a failure degrades it. */
    method ApplyConfigs()
      requires forall x :: x in order ==> x in status
      modifies this`status
      ensures status.Keys == old(status).Keys
      ensures forall x :: x in status ==>
                status[x] == if x in order && x !in world.configurable then Degraded else old(status)[x]
    {
      for i := 0 to |order|
        invariant status.Keys == old(status).Keys
        invariant forall x :: x in status ==>
                    status[x] == if x in order[..i] && x !in world.configurable then Degraded else old(status)[x]
      {
        if order[i] !in world.configurable {
          status := status[order[i] := Degraded];
        }
        assert order[..i + 1] == order[..i] + [order[i]];
      }
      assert order[..|order|] == order;
    }

    /** `_dependency_error`: whether some dependency is not in the required state. */
    method DependencyError(x: Id, required: Status) returns (error: bool)
      ensures error <==> exists d :: d in Deps(world.graph, x) && (d !in status || status[d] != required)
    {
      var deps := Deps(world.graph, x);
      for i := 0 to |deps|
        invariant forall d :: d in deps[..i] ==> d in status && status[d] == required
      {
        if deps[i] !in status || status[deps[i]] != required {
          return true;
        }
      }
      return false;
    }

    method LoadAndRegister()
      requires forall i, j :: 0 <= i < j < |order| ==> order[i] != order[j]
      requires forall x :: x in status ==> status[x] != Loaded
      requires forall x :: x in order ==> x in status
      modifies this`status
      ensures Passed(world, order, |order|, old(status), status)
    {
      hide Passed;
      PassedNone(world, order, status);
      for i := 0 to |order|
        invariant status.Keys == old(status).Keys
        invariant Passed(world, order, i, old(status), status)
      {
        var x := order[i];
        ghost var before := status;
        if status[x] != Degraded {
          var error := DependencyError(x, Loaded);
          if error {
            status := status[x := Blocked];
          } else {
            status := status[x := if x in world.registrable then Loaded else Degraded];
          }
        }
        PassedOneMore(world, order, i, old(status), before, status);
      }
    }

    /** The whole start-up: an extension ends LOADED exactly when the search found it and it is sound. */
    method Startup(requested: seq<Id>)
      requires world.Valid()
      requires status == world.initial && visiting == {} && visited == {} && order == []
      modifies this
      ensures forall i, j :: 0 <= i < j < |order| ==> order[i] != order[j]
      ensures forall x :: x in order <==> x in world.graph && world.Found(requested, x)
      ensures forall x :: (x in status && status[x] == Loaded) <==>
                x in world.graph && world.Found(requested, x) && Sound(world, x)
      ensures forall i, d ::
                (0 <= i < |order| && order[i] in status && status[order[i]] == Loaded
                 && d in Deps(world.graph, order[i])) ==>
                d in order[..i] && d in status && status[d] == Loaded
      ensures forall x :: x in order ==> x in status && EndsAs(world, x, status)
    {
      hide EndsAs, Searching, StatusOk, OrderOk, Prepared, Passed, Sound, World.Found;
      ResolveDependencies(requested);
      ghost var s := State();
      SearchFacts(world, s, requested, []);
      OrderFacts(world, s, requested);
      ApplyConfigs();
      ghost var before := status;
      ConfigsPrepare(world, s, requested, before);
      LoadAndRegister();
      PassEnds(world, s, requested, before, status);
      forall x | x in order
        ensures x in status && EndsAs(world, x, status)
      {
        var i :| 0 <= i < |order| && order[i] == x;
        PassEndsAs(world, s, before, status, i);
      }
    }
  }

  lemma PassedOneMore(w: World, order: seq<Id>, n: nat, first: map<Id, Status>, before: map<Id, Status>,
                      after: map<Id, Status>)
    requires n < |order| && forall x :: x in order ==> x in first
    requires forall i, j :: 0 <= i < j < |order| ==> order[i] != order[j]
    requires Passed(w, order, n, first, before)
    requires before.Keys == after.Keys
    requires forall x :: x in before && x != order[n] ==> after[x] == before[x]
    requires after[order[n]] == Verdict(w, order[n], before[order[n]], DependenciesLoaded(w, order[n], before))
    ensures Passed(w, order, n + 1, first, after)
  {
    hide Verdict, LoadedBefore, DependenciesLoaded;
    var x := order[n];
    assert order[..n + 1] == order[..n] + [x] && x !in order[..n];
    assert before[x] == first[x];
    forall j | 0 <= j < n
      ensures after[order[j]] == before[order[j]] && LoadedBefore(w, order, j, after)
              == LoadedBefore(w, order, j, before)
    {
      assert order[j] != x;
      LoadedBeforeStays(w, order, n, j, before, after);
    }
    LoadedSoFar(w, order, n, before);
    LoadedBeforeStays(w, order, n, n, before, after);
  }

  /** What the pass does at a position is no matter to the positions up to it. */
  lemma LoadedBeforeStays(w: World, order: seq<Id>, n: nat, j: nat, before: map<Id, Status>, after: map<Id, Status>)
    requires j <= n < |order| && forall x :: x in order ==> x in before && x in after
    requires forall i, k :: 0 <= i < k < |order| ==> order[i] != order[k]
    requires forall x :: x in before && x != order[n] ==> x in after && after[x] == before[x]
    ensures LoadedBefore(w, order, j, after) <==> LoadedBefore(w, order, j, before)
  {
    assert forall x :: x in order[..j] ==> x in before && x != order[n];
  }

  /** Only what comes earlier in the order can be loaded so far. */
  lemma LoadedSoFar(w: World, order: seq<Id>, n: nat, status: map<Id, Status>)
    requires n < |order| && forall x :: x in order ==> x in status
    requires forall x :: x in status && status[x] == Loaded ==> x in order[..n]
    ensures DependenciesLoaded(w, order[n], status) <==> LoadedBefore(w, order, n, status)
  {
  }

  lemma {:induction false} VisitedAlongPath(w: World, s: Search, requested: seq<Id>, p: seq<Id>)
    requires w.Valid() && Searching(w, s, requested, [])
    requires p != [] && p[0] in s.visited && w.Expanded(p)
    ensures p[|p| - 1] in s.visited
    decreases |p|
  {
    if |p| >= 2 {
      var i :| 0 <= i < |s.order| && s.order[i] == p[0];
      assert DependencySettled(w, s, i, p[1]);
      VisitedAlongPath(w, s, requested, p[1..]);
    }
  }

  /** The search visits exactly what can be found. */
  lemma FoundIsVisited(w: World, s: Search, requested: seq<Id>)
    requires w.Valid() && Searching(w, s, requested, [])
    requires forall x :: x in requested ==> x in s.visited
    ensures forall x :: x in s.visited <==> w.Found(requested, x)
  {
    forall x | w.Found(requested, x)
      ensures x in s.visited
    {
      var p :| w.Expanded(p) && p[0] in requested && p[|p| - 1] == x;
      VisitedAlongPath(w, s, requested, p);
    }
  }


  /** After the search the order lists the visited extensions that have a manifest, each once. */
  lemma OrderFacts(w: World, s: Search, requested: seq<Id>)
    requires w.Valid() && Searching(w, s, requested, [])
    ensures forall i, j :: 0 <= i < j < |s.order| ==> s.order[i] != s.order[j]
    ensures forall x :: x in s.order <==> x in s.visited && x in w.graph
    ensures forall x :: x in s.order ==> x in s.status
    ensures forall x :: x in s.status ==> s.status[x] != Loaded
  {
  }

  // ----- the load pass -----

  /** Nothing about this extension itself keeps it from loading. */
  ghost predicate Healthy(w: World, x: Id)
    requires w.Valid()
  {
    !w.Stuck(x) && x in w.configurable && x in w.registrable
  }

  /** Everything `x` depends on, itself included, is healthy, and none of it lies on a dependency cycle. */
  ghost predicate Sound(w: World, x: Id)
    requires w.Valid()
  {
    forall y :: Reaches(w.graph, x, y) ==> Healthy(w, y) && !OnCycle(w.graph, y)
  }

  /** The states that go into the load pass: the search is over and settings have been applied. */
  ghost predicate Prepared(w: World, s: Search, status: map<Id, Status>)
    requires w.Valid()
  {
    && OrderOk(w, s) && s.visiting == {}
    && s.status.Keys <= status.Keys
    && (forall x :: x in status ==> status[x] != Loaded)
    && (forall x :: x in s.order ==> x in status)
    && (forall x :: x in s.order ==> (status[x] == Degraded ==>
                                      w.Stuck(x) || OnCycle(w.graph, x) || x !in w.configurable))
    && (forall x :: x in s.order ==> (w.Stuck(x) || x !in w.configurable ==> status[x] == Degraded))
  }

  /** The outcome of the first `n` steps of the pass over `order`. */
  ghost predicate Passed(w: World, order: seq<Id>, n: nat, before: map<Id, Status>, after: map<Id, Status>)
    requires n <= |order| && forall x :: x in order ==> x in before
  {
    && before.Keys == after.Keys
    && (forall x :: x in after && after[x] == Loaded ==> x in order[..n])
    && (forall x :: x in before && x !in order[..n] ==> after[x] == before[x])
    && (forall j :: 0 <= j < n ==>
          after[order[j]] == Verdict(w, order[j], before[order[j]], LoadedBefore(w, order, j, after)))
  }

  /** The dependencies of the n-th extension of the order come earlier and are loaded. */
  ghost predicate LoadedBefore(w: World, order: seq<Id>, n: nat, status: map<Id, Status>)
    requires n < |order| && forall x :: x in order ==> x in status
  {
    forall d :: d in Deps(w.graph, order[n]) ==> d in order[..n] && status[d] == Loaded
  }

  /** What `_dependency_error` asks for. */
  ghost predicate DependenciesLoaded(w: World, x: Id, status: map<Id, Status>) {
    forall d :: d in Deps(w.graph, x) ==> d in status && status[d] == Loaded
  }

  /** Where the load pass leaves an extension: what was degraded stays so; what lacks a dependency is blocked; and what
      cannot be registered is degraded. */
  function Verdict(w: World, x: Id, before: Status, dependenciesLoaded: bool): Status {
    if before == Degraded then Degraded
    else if !dependenciesLoaded then Blocked
    else if x in w.registrable then Loaded
    else Degraded
  }

  lemma PassedNone(w: World, order: seq<Id>, before: map<Id, Status>)
    requires forall x :: x in order ==> x in before
    requires forall x :: x in before ==> before[x] != Loaded
    ensures Passed(w, order, 0, before, before)
  {
  }

  /** Applying the settings after the search prepares the load pass. */
  lemma ConfigsPrepare(w: World, s: Search, requested: seq<Id>, status: map<Id, Status>)
    requires w.Valid() && Searching(w, s, requested, []) && status.Keys == s.status.Keys
    requires forall x :: x in status ==> status[x] == if x in s.order && x !in w.configurable then Degraded
             else s.status[x]
    ensures Prepared(w, s, status)
  {
  }

  /** Along a path from a loaded extension everything is loaded, ever earlier in the order. */
  lemma {:induction false} LoadedAlongPath(w: World, order: seq<Id>, before: map<Id, Status>, after: map<Id, Status>,
                                           p: seq<Id>, i: nat)
    returns (j: nat)
    requires forall x :: x in order ==> x in before
    requires Passed(w, order, |order|, before, after)
    requires IsPath(w.graph, p) && i < |order| && p[0] == order[i] && after[order[i]] == Loaded
    ensures j <= i && order[j] == p[|p| - 1] && after[order[j]] == Loaded
    ensures |p| >= 2 ==> j < i
    decreases |p|
  {
    if |p| == 1 {
      j := i;
    } else {
      var k :| 0 <= k < i && order[k] == p[1];
      j := LoadedAlongPath(w, order, before, after, p[1..], k);
    }
  }

  lemma LoadedIsSound(w: World, s: Search, before: map<Id, Status>, after: map<Id, Status>, i: nat)
    requires w.Valid() && Prepared(w, s, before) && Passed(w, s.order, |s.order|, before, after)
    requires i < |s.order| && after[s.order[i]] == Loaded
    ensures Sound(w, s.order[i])
  {
    forall y | Reaches(w.graph, s.order[i], y)
      ensures Healthy(w, y) && !OnCycle(w.graph, y)
    {
      var p :| IsPath(w.graph, p) && p[0] == s.order[i] && p[|p| - 1] == y;
      var j := LoadedAlongPath(w, s.order, before, after, p, i);
      if OnCycle(w.graph, y) {
        var c :| IsPath(w.graph, c) && |c| >= 2 && c[0] == y && c[|c| - 1] == y;
        var k := LoadedAlongPath(w, s.order, before, after, c, j);
        assert false;
      }
    }
  }

  lemma {:induction false} SoundIsLoaded(w: World, s: Search, before: map<Id, Status>, after: map<Id, Status>, i: nat)
    requires w.Valid() && Prepared(w, s, before) && Passed(w, s.order, |s.order|, before, after)
    requires i < |s.order| && Sound(w, s.order[i])
    ensures after[s.order[i]] == Loaded
    decreases i
  {
    var x := s.order[i];
    ReachesItself(w.graph, x);
    forall d | d in Deps(w.graph, x)
      ensures d in s.order[..i] && after[d] == Loaded
    {
      ReachesItself(w.graph, d);
      ReachesThrough(w.graph, x, d, d);
      assert DependencySettled(w, s, i, d);
      var k :| 0 <= k < i && s.order[k] == d;
      forall y | Reaches(w.graph, d, y)
        ensures Healthy(w, y) && !OnCycle(w.graph, y)
      {
        ReachesThrough(w.graph, x, d, y);
      }
      SoundIsLoaded(w, s, before, after, k);
    }
  }

  lemma LoadedIffSound(w: World, s: Search, before: map<Id, Status>, after: map<Id, Status>)
    requires w.Valid() && Prepared(w, s, before) && Passed(w, s.order, |s.order|, before, after)
    ensures forall i :: 0 <= i < |s.order| ==> (after[s.order[i]] == Loaded <==> Sound(w, s.order[i]))
  {
    forall i | 0 <= i < |s.order|
      ensures after[s.order[i]] == Loaded <==> Sound(w, s.order[i])
    {
      if after[s.order[i]] == Loaded {
        LoadedIsSound(w, s, before, after, i);
      } else if Sound(w, s.order[i]) {
        SoundIsLoaded(w, s, before, after, i);
      }
    }
  }

  /** What the start-up leaves behind. */
  lemma PassEnds(w: World, s: Search, requested: seq<Id>, before: map<Id, Status>, after: map<Id, Status>)
    requires w.Valid() && Prepared(w, s, before) && Passed(w, s.order, |s.order|, before, after)
    requires forall x :: x in s.order <==> x in w.graph && w.Found(requested, x)
    ensures forall x :: (x in after && after[x] == Loaded) <==> x in w.graph && w.Found(requested, x) && Sound(w, x)
    ensures forall i, d ::
              (0 <= i < |s.order| && s.order[i] in after && after[s.order[i]] == Loaded
               && d in Deps(w.graph, s.order[i])) ==>
              d in s.order[..i] && d in after && after[d] == Loaded
  {
    hide Sound, World.Found;
    LoadedIffSound(w, s, before, after);
    PassedInOrder(w, s.order, before, after);
    forall x | x in s.order
      ensures x in after && (after[x] == Loaded <==> Sound(w, x))
    {
      var i :| 0 <= i < |s.order| && s.order[i] == x;
    }
  }

  /** Every dependency of this extension ends LOADED. */
  ghost predicate AllLoaded(w: World, x: Id, status: map<Id, Status>) {
    forall d :: d in Deps(w.graph, x) ==> d in status && status[d] == Loaded
  }

  /** How an extension of the order may end: one that cannot be looked behind, configured or - with its dependencies
      loaded - registered is DEGRADED; so may be one on a dependency cycle; one with a dependency that is not loaded is
      otherwise BLOCKED; and there is nothing else but LOADED. */
  ghost predicate EndsAs(w: World, x: Id, status: map<Id, Status>)
    requires w.Valid() && x in status
  {
    && status[x] in {Loaded, Blocked, Degraded}
    && (w.Stuck(x) || x !in w.configurable ==> status[x] == Degraded)
    && (!w.Stuck(x) && x in w.configurable && !OnCycle(w.graph, x) ==>
          && (status[x] == Blocked <==> !AllLoaded(w, x, status))
          && (status[x] == Degraded <==> AllLoaded(w, x, status) && x !in w.registrable))
    && (OnCycle(w.graph, x) ==> status[x] != Loaded)
  }

  lemma PassEndsAs(w: World, s: Search, before: map<Id, Status>, after: map<Id, Status>, i: nat)
    requires w.Valid() && Prepared(w, s, before) && Passed(w, s.order, |s.order|, before, after) && i < |s.order|
    ensures s.order[i] in after && EndsAs(w, s.order[i], after)
  {
    var x := s.order[i];
    LoadedIffSound(w, s, before, after);
    ReachesItself(w.graph, x);
    if !w.Stuck(x) && !OnCycle(w.graph, x) {
      LoadedIsBefore(w, s, before, after, i);
    }
  }

  /** A dependency that ends LOADED came before, off every cycle. */
  lemma LoadedIsBefore(w: World, s: Search, before: map<Id, Status>, after: map<Id, Status>, i: nat)
    requires w.Valid() && Prepared(w, s, before) && Passed(w, s.order, |s.order|, before, after) && i < |s.order|
    requires !w.Stuck(s.order[i])
    ensures AllLoaded(w, s.order[i], after) <==> LoadedBefore(w, s.order, i, after)
  {
    PassedInOrder(w, s.order, before, after);
    LoadedIffSound(w, s, before, after);
    if AllLoaded(w, s.order[i], after) {
      forall d | d in Deps(w.graph, s.order[i])
        ensures d in s.order[..i]
      {
        var k :| 0 <= k < |s.order| && s.order[k] == d;
        ReachesItself(w.graph, d);
        assert Sound(w, d);
        assert DependencySettled(w, s, i, d);
      }
    }
  }

  lemma PassedInOrder(w: World, order: seq<Id>, before: map<Id, Status>, after: map<Id, Status>)
    requires forall x :: x in order ==> x in before
    requires Passed(w, order, |order|, before, after)
    ensures forall x :: x in after && after[x] == Loaded ==> x in order
    ensures forall i, d :: 0 <= i < |order| && after[order[i]] == Loaded && d in Deps(w.graph, order[i]) ==>
              d in order[..i] && after[d] == Loaded
  {
    assert order[..|order|] == order;
  }

  /** An extension ends LOADED exactly when this holds, as `Startup` says. */
  ghost predicate EndsLoaded(w: World, requested: seq<Id>, x: Id)
    requires w.Valid()
  {
    x in w.graph && w.Found(requested, x) && Sound(w, x)
  }

  lemma {:induction false} SoundPathIsExpanded(w: World, p: seq<Id>)
    requires w.Valid() && IsPath(w.graph, p) && Sound(w, p[0])
    ensures w.Expanded(p) && forall i :: 0 <= i < |p| ==> Reaches(w.graph, p[0], p[i])
  {
    forall i | 0 <= i < |p|
      ensures Reaches(w.graph, p[0], p[i])
    {
      assert IsPath(w.graph, p[..i + 1]);
    }
  }

  lemma PathsJoin(g: Graph, p: seq<Id>, q: seq<Id>)
    requires IsPath(g, p) && IsPath(g, q) && p[|p| - 1] == q[0]
    ensures IsPath(g, p + q[1..]) && (p + q[1..])[0] == p[0] && (p + q[1..])[|p + q[1..]| - 1] == q[|q| - 1]
  {
    var r := p + q[1..];
    forall i | 0 <= i < |r| - 1
      ensures r[i + 1] in Deps(g, r[i])
    {
      if i >= |p| - 1 {
        assert r[i] == q[i - (|p| - 1)] && r[i + 1] == q[i - (|p| - 1) + 1];
      }
    }
  }

  /** What a LOADED extension reaches ends LOADED as well. */
  lemma LoadedIsClosed(w: World, requested: seq<Id>, x: Id, y: Id)
    requires w.Valid() && EndsLoaded(w, requested, x) && Reaches(w.graph, x, y)
    ensures EndsLoaded(w, requested, y)
  {
    var q :| IsPath(w.graph, q) && q[0] == x && q[|q| - 1] == y;
    SoundPathIsExpanded(w, q);
    var p :| w.Expanded(p) && p[0] in requested && p[|p| - 1] == x;
    PathsJoin(w.graph, p, q);
    var r := p + q[1..];
    assert w.Expanded(r) by {
      forall i | 0 <= i < |r| - 1
        ensures !w.Stuck(r[i])
      {
        if i >= |p| - 1 {
          assert r[i] == q[i - (|p| - 1)];
          assert Reaches(w.graph, x, q[i - (|p| - 1)]);
          assert Healthy(w, r[i]);
        }
      }
    }
    assert w.Found(requested, y);
    forall z | Reaches(w.graph, y, z)
      ensures Healthy(w, z) && !OnCycle(w.graph, z)
    {
      var s :| IsPath(w.graph, s) && s[0] == y && s[|s| - 1] == z;
      PathsJoin(w.graph, q, s);
      assert Reaches(w.graph, x, z);
    }
    assert Healthy(w, y);
  }

  /** A plugin that is configured but not installed has a placeholder manifest, with initial status MISSING.  Whatever
      the world: something that ends LOADED reaches a placeholder exactly when that placeholder, found through it, ends
      LOADED itself; so the load pass takes a missing plugin for a working one exactly when the placeholder is found
      and sound like any other extension. */
  lemma PlaceholdersLoad(w: World, requested: seq<Id>, placeholder: Id)
    requires w.Valid() && placeholder in w.graph && w.initial[placeholder] == Missing
    ensures (exists x :: EndsLoaded(w, requested, x) && Reaches(w.graph, x, placeholder))
            <==> w.Found(requested, placeholder) && Sound(w, placeholder)
  {
    if exists x :: EndsLoaded(w, requested, x) && Reaches(w.graph, x, placeholder) {
      var x :| EndsLoaded(w, requested, x) && Reaches(w.graph, x, placeholder);
      LoadedIsClosed(w, requested, x, placeholder);
    }
    if w.Found(requested, placeholder) && Sound(w, placeholder) {
      ReachesItself(w.graph, placeholder);
      assert EndsLoaded(w, requested, placeholder);
    }
  }

  /** Such worlds exist: two extensions, one depending on the placeholder of the other. */
  lemma PlaceholderWorld(x: Id, placeholder: Id)
    requires x != placeholder
    ensures var both := {x, placeholder};
            var w := World(map[x := [placeholder], placeholder := []], map[x := Disabled, placeholder := Missing],
                           both, both, both);
            w.Valid() && EndsLoaded(w, [x], x) && EndsLoaded(w, [x], placeholder)
  {
    var both := {x, placeholder};
    var w := World(map[x := [placeholder], placeholder := []], map[x := Disabled, placeholder := Missing],
                   both, both, both);
    forall p | IsPath(w.graph, p) && p[0] == placeholder
      ensures p == [placeholder]
    {
      assert |p| >= 2 ==> p[1] in Deps(w.graph, p[0]);
    }
    forall p | IsPath(w.graph, p) && p[0] == x
      ensures p == [x] || p == [x, placeholder]
    {
      if |p| >= 2 {
        assert p[1] in Deps(w.graph, p[0]);
        assert IsPath(w.graph, p[1..]);
        assert p[1..] == [placeholder];
      }
    }
    assert w.Expanded([x]);
    assert EndsLoaded(w, [x], x);
    assert IsPath(w.graph, [x, placeholder]);
    LoadedIsClosed(w, [x], x, placeholder);
  }

  lemma ShrinksOrStays(universe: set<Id>, visited: set<Id>, visited': set<Id>, visiting: set<Id>)
    requires visited <= visited'
    ensures universe - visited' - visiting <= universe - visited - visiting
  {
  }

  lemma StatusInRange(w: World, s: Search, requested: seq<Id>, stack: seq<Id>, x: Id)
    requires w.Valid() && Searching(w, s, requested, stack) && x in w.graph && !w.Stuck(x)
    ensures s.status[x] in {Disabled, Discovered, Degraded, Missing}
    ensures s.status[x] == Degraded ==> OnCycle(w.graph, x)
  {
  }
}
