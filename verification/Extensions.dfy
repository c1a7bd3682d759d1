/** Extension identities, states and the dependency graph shared by the manager models. */
module Extensions {

  type Id = string

  datatype Status = Disabled | Discovered | Loaded | Starting | Running | Degraded | Blocked | Missing

  /** The dependencies each manifest declares.  An id without an entry has no manifest. */
  type Graph = map<Id, seq<Id>>

  function Deps(g: Graph, x: Id): seq<Id> {
    if x in g then g[x] else []
  }

  ghost predicate IsPath(g: Graph, p: seq<Id>) {
    p != [] && forall i :: 0 <= i < |p| - 1 ==> p[i + 1] in Deps(g, p[i])
  }

  /** `x` is `y` or depends on it, directly or not. */
  ghost predicate Reaches(g: Graph, x: Id, y: Id) {
    exists p :: IsPath(g, p) && p[0] == x && p[|p| - 1] == y
  }

  ghost predicate OnCycle(g: Graph, x: Id) {
    exists p :: IsPath(g, p) && |p| >= 2 && p[0] == x && p[|p| - 1] == x
  }

  lemma ReachesItself(g: Graph, x: Id)
    ensures Reaches(g, x, x)
  {
    assert IsPath(g, [x]);
  }

  lemma ReachesThrough(g: Graph, x: Id, d: Id, y: Id)
    requires d in Deps(g, x) && Reaches(g, d, y)
    ensures Reaches(g, x, y)
  {
    var p :| IsPath(g, p) && p[0] == d && p[|p| - 1] == y;
    assert IsPath(g, [x] + p);
  }
}
