/** Enabling and disabling plugins: what stays enabled through dependencies, and when a plugin may be switched off. */
module EnableCheck {
  import opened Outcomes
  import opened Extensions

  /** The ids a plugin list enables: the listed ones and everything they depend on. */
  ghost predicate Desired(g: Graph, explicit: seq<Id>, x: Id) {
    exists e :: e in explicit && Reaches(g, e, x)
  }

  function Nodes(g: Graph, start: seq<Id>): set<Id> {
    (set x | x in start) + g.Keys + (set x, d | x in g && d in g[x] :: d)
  }

  ghost predicate Closed(g: Graph, s: set<Id>) {
    forall x, d :: x in s && d in Deps(g, x) ==> d in s
  }

  function Without(xs: seq<Id>, x: Id): (r: seq<Id>)
    ensures forall y :: y in r <==> y in xs && y != x
  {
    if xs == [] then [] else
      assert xs == [xs[0]] + xs[1..];
      (if xs[0] == x then [] else [xs[0]]) + Without(xs[1..], x)
  }

  class PluginManagement {
    var enabled: seq<Id>
    const graph: Graph

    constructor (enabled: seq<Id>, graph: Graph)
      ensures this.enabled == enabled && this.graph == graph
    {
      this.enabled, this.graph := enabled, graph;
    }

    /** The stack search of `_ensure_not_required` from one enabled plugin. */
    method DependsOn(start: Id, plugin: Id) returns (found: bool)
      requires start != plugin
      ensures found <==> Reaches(graph, start, plugin)
    {
      hide Searching;
      var seen: set<Id> := {};
      var pending := [start];
      ghost var nodes := Nodes(graph, [start]);
      SearchStarts(graph, start, plugin);
      while pending != []
        invariant Searching(graph, start, plugin, nodes, seen, pending)
        decreases |nodes - seen|, |pending|
      {
        var current := pending[|pending| - 1];
        SearchStep(graph, start, plugin, nodes, seen, pending);
        pending := pending[..|pending| - 1];
        if current in seen {
          continue;
        }
        seen := seen + {current};
        if current !in graph {
          continue;
        }
        if plugin in graph[current] {
          return true;
        }
        pending := pending + graph[current];
      }
      SearchEnds(graph, start, plugin, nodes, seen);
      found := false;
    }

    /** `_ensure_not_required`: the enabled plugins that need this one. */
    method RequiredBy(plugin: Id) returns (requiredBy: set<Id>)
      ensures forall e :: e in requiredBy <==> e in enabled && e != plugin && Reaches(graph, e, plugin)
    {
      requiredBy := {};
      for i := 0 to |enabled|
        invariant forall e :: e in requiredBy <==> e in enabled[..i] && e != plugin && Reaches(graph, e, plugin)
      {
        assert enabled[..i + 1] == enabled[..i] + [enabled[i]];
        if enabled[i] != plugin {
          var needed := DependsOn(enabled[i], plugin);
          if needed {
            requiredBy := requiredBy + {enabled[i]};
          }
        }
      }
      assert enabled[..|enabled|] == enabled;
    }

    /** `set_enabled`, for a plugin that is installed or not. */
    method SetEnabled(plugin: Id, installed: bool, on: bool) returns (r: Outcome<()>)
      modifies this`enabled
      ensures r.Raised? ==> enabled == old(enabled)
      ensures on ==> (r.Ok? <==> installed)
      ensures !on ==> (r.Ok? <==> installed && !Desired(graph, Without(old(enabled), plugin), plugin))
      ensures r.Ok? ==> enabled == if !on then Without(old(enabled), plugin)
                                   else if plugin in old(enabled) then old(enabled) else old(enabled) + [plugin]
    {
      if !installed {
        return Raised;
      }
      if !on {
        var requiredBy := RequiredBy(plugin);
        RequiredMeansDesired(graph, enabled, plugin, requiredBy);
        if requiredBy != {} {
          return Raised;
        }
        enabled := Without(enabled, plugin);
      } else if plugin !in enabled {
        enabled := enabled + [plugin];
      }
      r := Ok(());
    }

    /** `_desired_enabled`: everything reachable from the listed plugins. */
    method DesiredEnabled() returns (desired: set<Id>)
      ensures forall x :: x in desired <==> Desired(graph, enabled, x)
    {
      desired := {};
      ghost var nodes := Nodes(graph, enabled);
      for i := 0 to |enabled|
        invariant desired <= nodes && Closed(graph, desired)
        invariant forall x :: x in enabled[..i] ==> x in desired
        invariant forall x :: x in desired ==> Desired(graph, enabled, x)
      {
        desired := Visit(enabled[i], desired, nodes);
        assert enabled[..i + 1] == enabled[..i] + [enabled[i]];
      }
      assert enabled[..|enabled|] == enabled;
      forall x | Desired(graph, enabled, x)
        ensures x in desired
      {
        var e :| e in enabled && Reaches(graph, e, x);
        ClosedHolds(graph, desired, e, x);
      }
    }

    /** The nested `visit`: marks what it reaches and was not marked yet. */
    method Visit(plugin: Id, marked: set<Id>, ghost nodes: set<Id>) returns (after: set<Id>)
      requires marked <= nodes && plugin in nodes && Closed(graph, nodes)
      ensures marked + {plugin} <= after <= nodes
      ensures forall x :: x in after - marked ==> Reaches(graph, plugin, x)
      ensures forall x, d :: x in after - marked && d in Deps(graph, x) ==> d in after
      decreases |nodes - marked|
    {
      hide Reaches;
      if plugin in marked {
        return marked;
      }
      after := marked + {plugin};
      ghost var unmarked := nodes - marked;
      assert nodes - after == unmarked - {plugin};
      ReachesItself(graph, plugin);
      if plugin in graph {
        var deps := graph[plugin];
        for i := 0 to |deps|
          invariant marked + {plugin} <= after <= nodes
          invariant forall j :: 0 <= j < i ==> deps[j] in after
          invariant forall x :: x in after - marked ==> Reaches(graph, plugin, x)
          invariant forall x, d :: x in after - marked && x != plugin && d in Deps(graph, x) ==> d in after
        {
          assert deps[i] in Deps(graph, plugin);
          ghost var before := after;
          Shrinks(nodes, marked + {plugin}, after);
          after := Visit(deps[i], after, nodes);
          forall x | x in after - before
            ensures Reaches(graph, plugin, x)
          {
            ReachesThrough(graph, plugin, deps[i], x);
          }
        }
      }
    }
  }

  /** What the stack search keeps: it has only met what the start reaches, none of it needs the plugin directly, and
      what it still has to meet is on the stack. */
  ghost predicate Searching(g: Graph, start: Id, plugin: Id, nodes: set<Id>, seen: set<Id>, pending: seq<Id>) {
    && Closed(g, nodes) && seen <= nodes && (forall x :: x in pending ==> x in nodes)
    && (forall x :: x in seen || x in pending ==> Reaches(g, start, x))
    && (forall x :: x in seen ==> plugin !in Deps(g, x))
    && (forall x, d :: x in seen && d in Deps(g, x) ==> d in seen || d in pending)
    && (start in seen || start in pending)
  }

  lemma SearchStarts(g: Graph, start: Id, plugin: Id)
    ensures Searching(g, start, plugin, Nodes(g, [start]), {}, [start])
  {
    NodesClosed(g, [start]);
    ReachesItself(g, start);
  }

  lemma SearchStep(g: Graph, start: Id, plugin: Id, nodes: set<Id>, seen: set<Id>, pending: seq<Id>)
    requires Searching(g, start, plugin, nodes, seen, pending) && pending != []
    ensures var x, rest := pending[|pending| - 1], pending[..|pending| - 1];
            if x in seen then Searching(g, start, plugin, nodes, seen, rest)
            else && |nodes - (seen + {x})| < |nodes - seen|
                 && (if plugin in Deps(g, x) then Reaches(g, start, plugin)
                     else Searching(g, start, plugin, nodes, seen + {x}, rest + Deps(g, x)))
                 && (x !in g ==> rest + Deps(g, x) == rest)
  {
    hide Reaches;
    var x, rest := pending[|pending| - 1], pending[..|pending| - 1];
    assert forall y :: y in pending <==> y in rest || y == x;
    assert Reaches(g, start, x);
    ReachesDeps(g, start, x);
    if x !in seen {
      OneLess(nodes, seen, x);
      assert forall y :: y in rest + Deps(g, x) <==> y in rest || y in Deps(g, x);
    }
  }

  lemma SearchEnds(g: Graph, start: Id, plugin: Id, nodes: set<Id>, seen: set<Id>)
    requires Searching(g, start, plugin, nodes, seen, []) && start != plugin
    ensures !Reaches(g, start, plugin)
  {
    hide Reaches;
    ClosedSetHoldsAll(g, seen, start, plugin);
  }

  lemma NodesClosed(g: Graph, start: seq<Id>)
    ensures Closed(g, Nodes(g, start)) && forall x :: x in start ==> x in Nodes(g, start)
  {
  }

  lemma OneLess(nodes: set<Id>, seen: set<Id>, x: Id)
    requires x in nodes && x !in seen
    ensures |nodes - (seen + {x})| < |nodes - seen|
  {
    assert nodes - seen == (nodes - (seen + {x})) + {x};
  }

  lemma Shrinks(nodes: set<Id>, a: set<Id>, b: set<Id>)
    requires a <= b
    ensures |nodes - b| <= |nodes - a|
  {
    var fewer, more := nodes - b, nodes - a;
    assert fewer <= more;
    assert more == fewer + (more - fewer);
  }

  lemma ReachesDeps(g: Graph, start: Id, x: Id)
    requires Reaches(g, start, x)
    ensures forall d :: d in Deps(g, x) ==> Reaches(g, start, d)
  {
    var p :| IsPath(g, p) && p[0] == start && p[|p| - 1] == x;
    forall d | d in Deps(g, x)
      ensures Reaches(g, start, d)
    {
      assert IsPath(g, p + [d]);
    }
  }

  lemma {:induction false} PathStays(g: Graph, s: set<Id>, p: seq<Id>, i: nat)
    requires IsPath(g, p) && p[0] in s && Closed(g, s) && i < |p|
    ensures p[i] in s
    decreases i
  {
    if i > 0 {
      PathStays(g, s, p, i - 1);
      assert p[(i - 1) + 1] in Deps(g, p[i - 1]);
    }
  }

  lemma ClosedHolds(g: Graph, s: set<Id>, x: Id, y: Id)
    requires Closed(g, s) && x in s && Reaches(g, x, y)
    ensures y in s
  {
    var p :| IsPath(g, p) && p[0] == x && p[|p| - 1] == y;
    PathStays(g, s, p, |p| - 1);
  }

  lemma ClosedSetHoldsAll(g: Graph, s: set<Id>, start: Id, plugin: Id)
    requires Closed(g, s) && start in s && start != plugin && forall x :: x in s ==> plugin !in Deps(g, x)
    ensures !Reaches(g, start, plugin)
  {
    if Reaches(g, start, plugin) {
      var p :| IsPath(g, p) && p[0] == start && p[|p| - 1] == plugin;
      PathStays(g, s, p, |p| - 2);
    }
  }

  lemma RequiredMeansDesired(g: Graph, explicit: seq<Id>, plugin: Id, requiredBy: set<Id>)
    requires forall e :: e in requiredBy <==> e in explicit && e != plugin && Reaches(g, e, plugin)
    ensures requiredBy != {} <==> Desired(g, Without(explicit, plugin), plugin)
  {
    if Desired(g, Without(explicit, plugin), plugin) {
      var e :| e in Without(explicit, plugin) && Reaches(g, e, plugin);
      assert e in requiredBy;
    }
    if requiredBy != {} {
      var e :| e in requiredBy;
      assert e in Without(explicit, plugin);
    }
  }

  /** Switching a plugin off, when allowed, takes it out of the desired set, and takes out with it exactly the
      plugins that only it needed.  When it is not allowed, it would have stayed desired. */
  lemma DisablingTakesEffect(g: Graph, explicit: seq<Id>, plugin: Id, x: Id)
    ensures Desired(g, Without(explicit, plugin), x) ==> Desired(g, explicit, x)
    ensures Desired(g, explicit, x) && !Desired(g, Without(explicit, plugin), x) ==> Reaches(g, plugin, x)
    ensures !Desired(g, Without(explicit, plugin), plugin) ==>
              (Desired(g, Without(explicit, plugin), x) ==> !Reaches(g, x, plugin))
    ensures x in explicit && x != plugin ==> Desired(g, Without(explicit, plugin), x)
  {
    var rest := Without(explicit, plugin);
    if Desired(g, explicit, x) && !Desired(g, rest, x) {
      var e :| e in explicit && Reaches(g, e, x);
      assert e !in rest;
    }
    if Desired(g, rest, x) && Reaches(g, x, plugin) {
      var e :| e in rest && Reaches(g, e, x);
      ReachesOn(g, e, x, plugin);
    }
    ReachesItself(g, x);
  }

  lemma ReachesOn(g: Graph, x: Id, y: Id, z: Id)
    requires Reaches(g, x, y) && Reaches(g, y, z)
    ensures Reaches(g, x, z)
  {
    var p :| IsPath(g, p) && p[0] == x && p[|p| - 1] == y;
    var q :| IsPath(g, q) && q[0] == y && q[|q| - 1] == z;
    var r := p + q[1..];
    forall i | 0 <= i < |r| - 1
      ensures r[i + 1] in Deps(g, r[i])
    {
      if i >= |p| - 1 {
        assert r[i] == q[i - (|p| - 1)] && r[i + 1] == q[i - (|p| - 1) + 1];
      }
    }
    assert IsPath(g, r) && r[0] == x && r[|r| - 1] == z;
  }
}
