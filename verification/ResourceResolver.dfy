/** `ResourceIdResolver`: the plans of all plugins, and one index of their effective ids. */
module ResourceResolver {
  import opened Outcomes
  import opened ResourceIds

  datatype Index = Index(plans: map<string, Plan>, effective: map<Key, Mapping>) {

    /** The index holds exactly the mappings of the registered plans. */
    ghost predicate Valid() {
      && (forall o :: o in plans ==> plans[o].Valid() && plans[o].owner == o)
      && (forall o, m :: o in plans && m in plans[o].mappings ==> KeyOf(m) in effective && effective[KeyOf(m)] == m)
      && (forall k :: k in effective ==> IsPlanned(k, effective[k]))
    }

    ghost predicate IsPlanned(k: Key, m: Mapping) {
      m.owner in plans && m in plans[m.owner].mappings && k == KeyOf(m)
    }
  }

  const EMPTY := Index(map[], map[])

  /** The index after entering mappings one by one. */
  function Entered(e: map<Key, Mapping>, ms: seq<Mapping>): map<Key, Mapping>
    decreases |ms|
  {
    if ms == [] then e else
      var m := ms[|ms| - 1];
      Entered(e, ms[..|ms| - 1])[KeyOf(m) := m]
  }

  /** The index after dropping mappings one by one, each only where it is still the one indexed. */
  function Dropped(e: map<Key, Mapping>, ms: seq<Mapping>): map<Key, Mapping>
    decreases |ms|
  {
    if ms == [] then e else
      var m := ms[|ms| - 1];
      var f := Dropped(e, ms[..|ms| - 1]);
      if KeyOf(m) in f && f[KeyOf(m)] == m then f - {KeyOf(m)} else f
  }

  function Register(ix: Index, plan: Plan): Outcome<Index> {
    if plan.owner in ix.plans || exists m :: m in plan.mappings && KeyOf(m) in ix.effective then Raised
    else Ok(Index(ix.plans[plan.owner := plan], Entered(ix.effective, plan.mappings)))
  }

  function Unregister(ix: Index, plugin: string): Outcome<Index> {
    var owner :- PluginId(plugin);
    if owner !in ix.plans then Ok(ix)
    else Ok(Index(ix.plans - {owner}, Dropped(ix.effective, ix.plans[owner].mappings)))
  }

  function Resolve(ix: Index, plugin: string, kind: string, local: string): Found {
    match PluginId(plugin)
    case Raised => Malformed
    case Ok(owner) => if owner in ix.plans then ResolveIn(ix.plans[owner], kind, local) else Missing
  }

  function MappingFor(ix: Index, kind: string, effective: string): Outcome<Option<Mapping>> {
    var k :- ResourceType(kind);
    var id :- LocalId(effective);
    Ok(if (k, id) in ix.effective then Some(ix.effective[(k, id)]) else None)
  }

  class ResourceIdResolver {
    var plans: map<string, Plan>
    var effective: map<Key, Mapping>

    ghost function Contents(): Index
      reads this
    {
      Index(plans, effective)
    }

    constructor ()
      ensures Contents() == EMPTY
    {
      plans, effective := map[], map[];
    }

    method RegisterPlan(plan: Plan) returns (r: Outcome<()>)
      modifies this
      ensures r.Ok? <==> Register(old(Contents()), plan).Ok?
      ensures Contents() == if r.Ok? then Register(old(Contents()), plan).value else old(Contents())
    {
      if plan.owner in plans {
        return Raised;
      }
      for i := 0 to |plan.mappings|
        invariant forall j :: 0 <= j < i ==> KeyOf(plan.mappings[j]) !in effective
      {
        if KeyOf(plan.mappings[i]) in effective {
          return Raised;
        }
      }
      plans := plans[plan.owner := plan];
      for i := 0 to |plan.mappings|
        invariant plans == old(plans)[plan.owner := plan]
        invariant effective == Entered(old(effective), plan.mappings[..i])
      {
        assert plan.mappings[..i + 1][..i] == plan.mappings[..i];
        effective := effective[KeyOf(plan.mappings[i]) := plan.mappings[i]];
      }
      assert plan.mappings[..|plan.mappings|] == plan.mappings;
      r := Ok(());
    }

    method UnregisterPlan(plugin: string) returns (r: Outcome<()>)
      modifies this
      ensures r.Ok? <==> Unregister(old(Contents()), plugin).Ok?
      ensures Contents() == if r.Ok? then Unregister(old(Contents()), plugin).value else old(Contents())
    {
      if PluginId(plugin).Raised? {
        return Raised;
      }
      var owner := PluginId(plugin).value;
      r := Ok(());
      if owner !in plans {
        return;
      }
      var ms := plans[owner].mappings;
      plans := plans - {owner};
      for i := 0 to |ms|
        invariant plans == old(plans) - {owner}
        invariant effective == Dropped(old(effective), ms[..i])
      {
        assert ms[..i + 1][..i] == ms[..i];
        var k := KeyOf(ms[i]);
        if k in effective && effective[k] == ms[i] {
          effective := effective - {k};
        }
      }
      assert ms[..|ms|] == ms;
    }
  }

  // ----- entering and dropping -----

  ghost predicate Distinct(ms: seq<Mapping>) {
    forall i, j :: 0 <= i < j < |ms| ==> KeyOf(ms[i]) != KeyOf(ms[j])
  }

  function Keys(ms: seq<Mapping>): set<Key> {
    set m | m in ms :: KeyOf(m)
  }

  lemma KeysFront(ms: seq<Mapping>)
    requires ms != []
    ensures Keys(ms) == Keys(ms[..|ms| - 1]) + {KeyOf(ms[|ms| - 1])}
    ensures Distinct(ms) ==> Distinct(ms[..|ms| - 1]) && KeyOf(ms[|ms| - 1]) !in Keys(ms[..|ms| - 1])
  {
    assert ms == ms[..|ms| - 1] + [ms[|ms| - 1]];
    assert forall m :: m in ms <==> m in ms[..|ms| - 1] || m == ms[|ms| - 1];
  }

  lemma {:induction false} EnteredHolds(e: map<Key, Mapping>, ms: seq<Mapping>)
    requires Distinct(ms)
    ensures Entered(e, ms).Keys == e.Keys + Keys(ms)
    ensures forall m :: m in ms ==> Entered(e, ms)[KeyOf(m)] == m
    ensures forall k :: k in e && k !in Keys(ms) ==> Entered(e, ms)[k] == e[k]
    decreases |ms|
  {
    if ms != [] {
      EnteredHolds(e, ms[..|ms| - 1]);
      KeysFront(ms);
      assert forall m :: m in ms ==> m in ms[..|ms| - 1] || m == ms[|ms| - 1];
    }
  }

  lemma {:induction false} DroppedHolds(e: map<Key, Mapping>, ms: seq<Mapping>)
    requires Distinct(ms)
    requires forall m :: m in ms ==> KeyOf(m) in e && e[KeyOf(m)] == m
    ensures Dropped(e, ms) == e - Keys(ms)
    decreases |ms|
  {
    if ms != [] {
      DroppedHolds(e, ms[..|ms| - 1]);
      KeysFront(ms);
    }
  }

  // ----- the index is the union of the plans -----

  /** What the three parts of `Valid` need of the index after a registration. */
  lemma RegisteredHolds(ix: Index, plan: Plan)
    requires plan.Valid() && Register(ix, plan).Ok?
    ensures var e := Register(ix, plan).value.effective;
      && (forall k :: k in e <==> k in ix.effective || k in Keys(plan.mappings))
      && (forall k :: k in ix.effective ==> k !in Keys(plan.mappings) && e[k] == ix.effective[k])
      && (forall m :: m in plan.mappings ==> KeyOf(m) in e && e[KeyOf(m)] == m)
  {
    hide Plan.Valid;
    DistinctPlan(plan);
    EnteredHolds(ix.effective, plan.mappings);
  }

  lemma RegisteredPlans(ix: Index, plan: Plan, o: string, m: Mapping)
    requires ix.Valid() && plan.Valid() && Register(ix, plan).Ok?
    requires var next := Register(ix, plan).value; o in next.plans && m in next.plans[o].mappings
    ensures var next := Register(ix, plan).value; KeyOf(m) in next.effective && next.effective[KeyOf(m)] == m
  {
    hide Plan.Valid, Entered;
    RegisteredHolds(ix, plan);
  }

  lemma RegisteredKeys(ix: Index, plan: Plan, k: Key)
    requires ix.Valid() && plan.Valid() && Register(ix, plan).Ok?
    requires k in Register(ix, plan).value.effective
    ensures var next := Register(ix, plan).value; next.IsPlanned(k, next.effective[k])
  {
    hide Plan.Valid, Entered;
    RegisteredHolds(ix, plan);
    DistinctPlan(plan);
    if k in ix.effective {
      assert ix.IsPlanned(k, ix.effective[k]);
    } else {
      var m :| m in plan.mappings && KeyOf(m) == k;
    }
  }

  lemma RegisterKeepsValid(ix: Index, plan: Plan)
    requires ix.Valid() && plan.Valid() && Register(ix, plan).Ok?
    ensures Register(ix, plan).value.Valid()
  {
    hide Plan.Valid, Entered, Index.IsPlanned;
    var next := Register(ix, plan).value;
    forall o, m | o in next.plans && m in next.plans[o].mappings
      ensures KeyOf(m) in next.effective && next.effective[KeyOf(m)] == m
    {
      RegisteredPlans(ix, plan, o, m);
    }
    forall k | k in next.effective
      ensures next.IsPlanned(k, next.effective[k])
    {
      RegisteredKeys(ix, plan, k);
    }
  }

  lemma DistinctPlan(plan: Plan)
    requires plan.Valid()
    ensures Distinct(plan.mappings) && forall m :: m in plan.mappings ==> m.owner == plan.owner
    ensures PluginId(plan.owner) == Ok(plan.owner)
  {
  }

  lemma UnregisterKeepsValid(ix: Index, plugin: string)
    requires ix.Valid() && Unregister(ix, plugin).Ok?
    ensures Unregister(ix, plugin).value.Valid()
  {
    hide Plan.Valid, PluginId;
    var owner := PluginId(plugin).value;
    if owner in ix.plans {
      var plan := ix.plans[owner];
      var next := Unregister(ix, plugin).value;
      DistinctPlan(plan);
      DroppedHolds(ix.effective, plan.mappings);
      forall o, m | o in next.plans && m in next.plans[o].mappings
        ensures KeyOf(m) in next.effective && next.effective[KeyOf(m)] == m
      {
        assert m in ix.plans[o].mappings;
        DistinctPlan(ix.plans[o]);
        assert forall n :: n in plan.mappings && KeyOf(n) == KeyOf(m) ==> n == m;
      }
      forall k | k in next.effective
        ensures next.IsPlanned(k, next.effective[k])
      {
        assert ix.IsPlanned(k, ix.effective[k]);
        assert ix.effective[k] in plan.mappings ==> k in Keys(plan.mappings);
      }
    }
  }

  /** Unregistering exactly undoes a registration. */
  lemma UnregisterUndoesRegister(ix: Index, plan: Plan)
    requires plan.Valid() && Register(ix, plan).Ok?
    ensures Unregister(Register(ix, plan).value, plan.owner) == Ok(ix)
  {
    hide Plan.Valid, PluginId;
    DistinctPlan(plan);
    EnteredHolds(ix.effective, plan.mappings);
    DroppedHolds(Entered(ix.effective, plan.mappings), plan.mappings);
    assert ix.effective.Keys !! Keys(plan.mappings);
    var e := Entered(ix.effective, plan.mappings);
    assert e - Keys(plan.mappings) == ix.effective;
    assert ix.plans[plan.owner := plan] - {plan.owner} == ix.plans;
  }

  datatype Op = Add(plan: Plan) | Remove(plugin: string)

  /** A call that raises leaves the resolver as it was. */
  function Apply(ix: Index, op: Op): Index {
    match if op.Add? then Register(ix, op.plan) else Unregister(ix, op.plugin)
    case Ok(next) => next
    case Raised => ix
  }

  function Run(ops: seq<Op>): Index
    decreases |ops|
  {
    if ops == [] then EMPTY else Apply(Run(ops[..|ops| - 1]), ops[|ops| - 1])
  }

  /** After any calls with built plans, the index is the union of the registered plans. */
  lemma {:induction false} RunKeepsValid(ops: seq<Op>)
    requires forall op :: op in ops && op.Add? ==> op.plan.Valid()
    ensures Run(ops).Valid()
    decreases |ops|
  {
    hide Plan.Valid, Register, Unregister, Index.Valid;
    if ops == [] {
      EmptyIsValid();
    } else {
      var ix, op := Run(ops[..|ops| - 1]), ops[|ops| - 1];
      RunKeepsValid(ops[..|ops| - 1]);
      if op.Add? {
        if Register(ix, op.plan).Ok? {
          RegisterKeepsValid(ix, op.plan);
        }
      } else if Unregister(ix, op.plugin).Ok? {
        UnregisterKeepsValid(ix, op.plugin);
      }
    }
  }

  lemma EmptyIsValid()
    ensures EMPTY.Valid()
  {
  }

  // ----- resolving and looking back -----

  lemma FindOwn(plan: Plan, m: Mapping)
    requires plan.Valid() && m in plan.mappings
    ensures Find(plan.mappings, m.kind, m.local) == Some(m)
  {
    var n := Find(plan.mappings, m.kind, m.local).value;
    var i :| 0 <= i < |plan.mappings| && plan.mappings[i] == m;
    var j :| 0 <= j < |plan.mappings| && plan.mappings[j] == n;
    assert KeyOf(m) == KeyOf(n);
  }

  lemma MappingIsNormal(plan: Plan, m: Mapping)
    requires plan.Valid() && m in plan.mappings
    ensures ResourceType(m.kind) == Ok(m.kind) && LocalId(m.local) == Ok(m.local)
    ensures LocalId(m.effective) == Ok(m.effective)
  {
    hide Strip;
    EffectiveIsNormal(plan.prefix, m.local);
    StripTrimmed(m.effective);
  }

  /** What resolves to an id is what the index says about that id: the index maps e back to plugin p's local id
      exactly when p resolves that local id to e. */
  lemma ResolveMatchesIndex(ix: Index, m: Mapping)
    requires ix.Valid()
    ensures MappingFor(ix, m.kind, m.effective) == Ok(Some(m))
            <==> m.owner in ix.plans && m in ix.plans[m.owner].mappings
    ensures MappingFor(ix, m.kind, m.effective) == Ok(Some(m))
            ==> Resolve(ix, m.owner, m.kind, m.local) == Found(m.effective)
  {
    hide PluginId, ResourceType, LocalId, Plan.Valid;
    if MappingFor(ix, m.kind, m.effective) == Ok(Some(m)) {
      var k := (ResourceType(m.kind).value, LocalId(m.effective).value);
      assert ix.IsPlanned(k, m);
    }
    if m.owner in ix.plans && m in ix.plans[m.owner].mappings {
      var plan := ix.plans[m.owner];
      DistinctPlan(plan);
      FindOwn(plan, m);
      MappingIsNormal(plan, m);
    }
  }

  /** Looking up a resolved id gives the mapping that was asked for. */
  lemma ResolveThenLookUp(ix: Index, plugin: string, kind: string, local: string)
    requires ix.Valid() && Resolve(ix, plugin, kind, local).Found?
    ensures MappingFor(ix, kind, Resolve(ix, plugin, kind, local).id)
            == Ok(Some(Mapping(PluginId(plugin).value, ResourceType(kind).value, LocalId(local).value,
                               Resolve(ix, plugin, kind, local).id)))
  {
    hide PluginId, ResourceType, LocalId, Plan.Valid;
    var plan := ix.plans[PluginId(plugin).value];
    var m := Find(plan.mappings, ResourceType(kind).value, LocalId(local).value).value;
    DistinctPlan(plan);
    MappingIsNormal(plan, m);
    assert KeyOf(m) in ix.effective && ix.effective[KeyOf(m)] == m;
  }
}
