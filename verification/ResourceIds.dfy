/** Resource ids of plugins: the plan that prefixes them, and the resolver that indexes the plans of all plugins. */
module ResourceIds {
  import opened Outcomes

  // ----- normalising -----

  predicate IsSpace(c: char) {
    var n := c as int;
    || 9 <= n <= 13 || 28 <= n <= 32 || n == 0x85 || n == 0xA0 || n == 0x1680 || 0x2000 <= n <= 0x200A
    || n == 0x2028 || n == 0x2029 || n == 0x202F || n == 0x205F || n == 0x3000
  }

  /** Python's `str.strip`. */
  function Strip(s: string): (r: string)
    ensures Trimmed(r)
    decreases |s|
  {
    if s == [] then []
    else if IsSpace(s[0]) then Strip(s[1..])
    else if IsSpace(s[|s| - 1]) then Strip(s[..|s| - 1])
    else s
  }

  predicate Trimmed(s: string) {
    s != [] ==> !IsSpace(s[0]) && !IsSpace(s[|s| - 1])
  }

  /** Lower-case words joined by single hyphens. */
  predicate Kebab(s: string) {
    && s != [] && s[0] != '-' && s[|s| - 1] != '-'
    && (forall i :: 0 <= i < |s| ==> 'a' <= s[i] <= 'z' || '0' <= s[i] <= '9' || s[i] == '-')
    && (forall i :: 0 <= i < |s| - 1 ==> s[i] != '-' || s[i + 1] != '-')
  }

  function PluginId(id: string): Outcome<string> {
    if |Strip(id)| <= 128 && Kebab(Strip(id)) then Ok(Strip(id)) else Raised
  }

  function Prefix(prefix: string): Outcome<string> {
    if Strip(prefix) == "" || (|Strip(prefix)| <= 128 && Kebab(Strip(prefix))) then Ok(Strip(prefix)) else Raised
  }

  function LocalId(id: string): Outcome<string> {
    if Strip(id) == "" then Raised else Ok(Strip(id))
  }

  /** The plural and bundle names of a kind of resource stand for the kind. */
  function Alias(kind: string): string {
    if kind == "agents" then "agent"
    else if kind == "prompts" then "prompt"
    else if kind == "workflows" then "workflow"
    else if kind == "skills" || kind == "skill_bundles" then "skill"
    else if kind == "rules" || kind == "rule_bundles" then "rule"
    else if kind == "script_libraries" then "script_library"
    else if kind == "preset_phrases" then "preset_phrase"
    else kind
  }

  function ResourceType(kind: string): Outcome<string> {
    if Strip(kind) == "" then Raised else Ok(Alias(Strip(kind)))
  }

  lemma StripTrimmed(s: string)
    requires Trimmed(s)
    ensures Strip(s) == s
  {
  }

  lemma AliasOnce(kind: string)
    requires Trimmed(kind) && kind != ""
    ensures Trimmed(Alias(kind)) && Alias(kind) != "" && Alias(Alias(kind)) == Alias(kind)
  {
  }

  /** Normalising is idempotent. */
  lemma NormalizedTwice(s: string)
    ensures ResourceType(s).Ok? ==> ResourceType(ResourceType(s).value) == ResourceType(s)
    ensures LocalId(s).Ok? ==> LocalId(LocalId(s).value) == LocalId(s)
  {
    hide Strip, Alias, Trimmed;
    StripTrimmed(Strip(s));
    if Strip(s) != "" {
      AliasOnce(Strip(s));
      StripTrimmed(Alias(Strip(s)));
    }
  }

  // ----- effective ids -----

  predicate Prefixed(prefix: string, id: string) {
    id == prefix || prefix + "-" <= id
  }

  /** The id of a resource under a prefix, for a normalised prefix and id. */
  function Effective(prefix: string, id: string): string {
    if prefix == "" || Prefixed(prefix, id) then id else prefix + "-" + id
  }

  /** `effective_resource_id`. */
  function EffectiveResourceId(prefix: string, id: string): Outcome<string> {
    var p :- Prefix(prefix);
    var local :- LocalId(id);
    Ok(Effective(p, local))
  }

  /** Prefixing happens once. */
  lemma EffectiveTwice(prefix: string, id: string)
    ensures EffectiveResourceId(prefix, id).Ok? ==>
            EffectiveResourceId(prefix, EffectiveResourceId(prefix, id).value) == EffectiveResourceId(prefix, id)
  {
    if EffectiveResourceId(prefix, id).Ok? {
      var p, local := Strip(prefix), Strip(id);
      EffectiveIsNormal(p, local);
      StripTrimmed(Effective(p, local));
    }
  }

  lemma EffectiveIsNormal(prefix: string, id: string)
    requires Trimmed(prefix) && Trimmed(id) && id != ""
    ensures Trimmed(Effective(prefix, id)) && Effective(prefix, id) != ""
  {
  }

  /** Two ids get the same effective id exactly when they are the same, or one is the other with the prefix
      written out. */
  lemma EffectiveCollision(prefix: string, a: string, b: string)
    ensures Effective(prefix, a) == Effective(prefix, b) <==>
            || a == b
            || (prefix != "" && a == prefix + "-" + b && !Prefixed(prefix, b))
            || (prefix != "" && b == prefix + "-" + a && !Prefixed(prefix, a))
  {
    var p := prefix + "-";
    assert (p + a)[|p|..] == a && (p + b)[|p|..] == b;
  }

  // ----- plans -----

  datatype Mapping = Mapping(owner: string, kind: string, local: string, effective: string)

  type Key = (string, string)

  function KeyOf(m: Mapping): Key {
    (m.kind, m.effective)
  }

  datatype Plan = Plan(owner: string, prefix: string, mappings: seq<Mapping>) {

    /** What `build_resource_id_plan` establishes. */
    ghost predicate Valid() {
      && PluginId(owner) == Ok(owner) && Trimmed(prefix)
      && (forall m :: m in mappings ==>
            && m.owner == owner && ResourceType(m.kind) == Ok(m.kind) && LocalId(m.local) == Ok(m.local)
            && m.effective == Effective(prefix, m.local))
      && (forall i, j :: 0 <= i < j < |mappings| ==> KeyOf(mappings[i]) != KeyOf(mappings[j]))
    }
  }

  /** The first mapping of a local id. */
  function Find(ms: seq<Mapping>, kind: string, local: string): (r: Option<Mapping>)
    ensures r.Some? ==> r.value in ms && r.value.kind == kind && r.value.local == local
    ensures r.None? ==> forall m :: m in ms ==> m.kind != kind || m.local != local
  {
    if ms == [] then None
    else if ms[0].kind == kind && ms[0].local == local then Some(ms[0])
    else Find(ms[1..], kind, local)
  }

  /** A lookup that may fail because the id is malformed, or because it is not there. */
  datatype Found = Found(id: string) | Missing | Malformed

  function ResolveIn(p: Plan, kind: string, local: string): Found {
    if ResourceType(kind).Raised? || LocalId(local).Raised? then Malformed else
      match Find(p.mappings, ResourceType(kind).value, LocalId(local).value)
      case Some(m) => Found(m.effective)
      case None => Missing
  }

  /** The declared ids, each with its kind, in order. */
  function Declared(resources: seq<(string, seq<string>)>): seq<(string, string)> {
    if resources == [] then [] else
      Declared(resources[..|resources| - 1])
      + Pairs(resources[|resources| - 1].0, resources[|resources| - 1].1)
  }

  function Pairs(kind: string, ids: seq<string>): (r: seq<(string, string)>)
    ensures |r| == |ids| && forall i :: 0 <= i < |ids| ==> r[i] == (kind, ids[i])
  {
    seq(|ids|, i requires 0 <= i < |ids| => (kind, ids[i]))
  }

  /** The mapping one declaration gets. */
  function MappingOf(owner: string, prefix: string, d: (string, string)): Mapping {
    var kind := match ResourceType(d.0) case Ok(k) => k case Raised => "";
    Mapping(owner, kind, Strip(d.1), Effective(prefix, Strip(d.1)))
  }

  /** The plan, as the loop has it after some declarations; nothing after a malformed or clashing one. */
  ghost predicate Clean(prefix: string, ds: seq<(string, string)>) {
    && (forall d :: d in ds ==> ResourceType(d.0).Ok? && LocalId(d.1).Ok?)
    && (forall i, j :: 0 <= i < j < |ds| ==>
          KeyOf(MappingOf("", prefix, ds[i])) != KeyOf(MappingOf("", prefix, ds[j])))
  }

  /** `build_resource_id_plan` on well-formed iterables: it succeeds exactly when owner, prefix, kinds and ids are
      well formed and no two declarations of a kind get the same effective id. */
  method BuildPlan(pluginId: string, resourcePrefix: string, resources: seq<(string, seq<string>)>)
      returns (r: Outcome<Plan>)
    ensures r.Ok? <==> PluginId(pluginId).Ok? && Prefix(resourcePrefix).Ok?
                       && (forall x :: x in resources ==> ResourceType(x.0).Ok?)
                       && Clean(Strip(resourcePrefix), Declared(resources))
    ensures r.Ok? ==> r.value.Valid() && r.value.owner == Strip(pluginId) && r.value.prefix == Strip(resourcePrefix)
    ensures r.Ok? ==> r.value.mappings
                      == MapDeclared(Strip(pluginId), Strip(resourcePrefix), Declared(resources))
  {
    hide Clean, Tracks, Strip, Prefixed, Alias, Declared, Kebab, Pairs, MapDeclared, Plan.Valid;
    if PluginId(pluginId).Raised? || Prefix(resourcePrefix).Raised? {
      return Raised;
    }
    var owner, prefix := PluginId(pluginId).value, Prefix(resourcePrefix).value;
    var mappings: seq<Mapping> := [];
    var localKeys: set<Key> := {};
    var effectiveKeys: set<Key> := {};
    ghost var ds: seq<(string, string)> := [];
    NothingDeclared(owner, prefix, resources);
    for t := 0 to |resources|
      invariant ds == Declared(resources[..t]) && Clean(prefix, ds)
      invariant forall x :: x in resources[..t] ==> ResourceType(x.0).Ok?
      invariant Tracks(owner, prefix, ds, mappings, localKeys, effectiveKeys)
    {
      if ResourceType(resources[t].0).Raised? {
        assert resources[t] in resources;
        return Raised;
      }
      var kind := ResourceType(resources[t].0).value;
      var ids := resources[t].1;
      ghost var before := ds;
      for i := 0 to |ids|
        invariant ds == before + Pairs(resources[t].0, ids)[..i] && Clean(prefix, ds)
        invariant Tracks(owner, prefix, ds, mappings, localKeys, effectiveKeys)
      {
        ghost var d := (resources[t].0, ids[i]);
        PrefixOfDeclared(resources, t, i);
        assert ds + [d] == before + Pairs(resources[t].0, ids)[..i + 1];
        if LocalId(ids[i]).Raised? {
          MalformedIsUnclean(prefix, ds, d, Declared(resources));
          return Raised;
        }
        var local := LocalId(ids[i]).value;
        var m := Mapping(owner, kind, local, Effective(prefix, local));
        Declare(owner, prefix, ds, d, mappings, localKeys, effectiveKeys, Declared(resources));
        if (kind, local) in localKeys || KeyOf(m) in effectiveKeys {
          return Raised;
        }
        localKeys := localKeys + {(kind, local)};
        effectiveKeys := effectiveKeys + {KeyOf(m)};
        mappings := mappings + [m];
        ds := ds + [d];
      }
      assert Pairs(resources[t].0, ids)[..|ids|] == Pairs(resources[t].0, ids);
      DeclaredNext(resources, t);
      assert resources[..t + 1] == resources[..t] + [resources[t]];
    }
    assert resources[..|resources|] == resources;
    r := Ok(Plan(owner, prefix, mappings));
    StripTrimmed(owner);
    NormalPlan(owner, prefix, ds, mappings, localKeys, effectiveKeys);
  }

  lemma NothingDeclared(owner: string, prefix: string, resources: seq<(string, seq<string>)>)
    ensures Declared(resources[..0]) == [] && Clean(prefix, []) && Tracks(owner, prefix, [], [], {}, {})
  {
  }

  lemma DeclaredNext(resources: seq<(string, seq<string>)>, t: nat)
    requires t < |resources|
    ensures Declared(resources[..t + 1]) == Declared(resources[..t]) + Pairs(resources[t].0, resources[t].1)
  {
    assert resources[..t + 1][..t] == resources[..t];
  }

  lemma MalformedIsUnclean(prefix: string, ds: seq<(string, string)>, d: (string, string), all: seq<(string, string)>)
    requires ds + [d] <= all && LocalId(d.1).Raised?
    ensures !Clean(prefix, all)
  {
    assert all[|ds|] == d;
  }

  /** Meeting one more well-formed declaration: a known key means a clash, a new one is recorded. */
  lemma Declare(owner: string, prefix: string, ds: seq<(string, string)>, d: (string, string),
                mappings: seq<Mapping>, localKeys: set<Key>, effectiveKeys: set<Key>, all: seq<(string, string)>)
    requires Tracks(owner, prefix, ds, mappings, localKeys, effectiveKeys) && Clean(prefix, ds) && ds + [d] <= all
    requires ResourceType(d.0).Ok? && LocalId(d.1).Ok?
    ensures var m := Mapping(owner, ResourceType(d.0).value, LocalId(d.1).value, Effective(prefix, LocalId(d.1).value));
            if (m.kind, m.local) in localKeys || KeyOf(m) in effectiveKeys then !Clean(prefix, all)
            else && Clean(prefix, ds + [d])
                 && Tracks(owner, prefix, ds + [d], mappings + [m],
                           localKeys + {(m.kind, m.local)}, effectiveKeys + {KeyOf(m)})
  {
    hide Strip, Alias, Effective;
    var m := MappingOf(owner, prefix, d);
    if (m.kind, m.local) in localKeys || KeyOf(m) in effectiveKeys {
      ClashIsUnclean(owner, prefix, ds, d, mappings, localKeys, effectiveKeys, all);
    } else {
      CleanExtends(owner, prefix, ds, d, mappings, localKeys, effectiveKeys);
    }
  }

  function MapDeclared(owner: string, prefix: string, ds: seq<(string, string)>): (r: seq<Mapping>)
    ensures |r| == |ds| && forall i :: 0 <= i < |ds| ==> r[i] == MappingOf(owner, prefix, ds[i])
  {
    seq(|ds|, i requires 0 <= i < |ds| => MappingOf(owner, prefix, ds[i]))
  }

  ghost predicate Tracks(owner: string, prefix: string, ds: seq<(string, string)>, mappings: seq<Mapping>,
                         localKeys: set<Key>, effectiveKeys: set<Key>) {
    && mappings == MapDeclared(owner, prefix, ds)
    && (forall k :: k in localKeys <==> exists i :: 0 <= i < |ds| && k == (mappings[i].kind, mappings[i].local))
    && (forall k :: k in effectiveKeys <==> exists i :: 0 <= i < |ds| && k == KeyOf(mappings[i]))
  }

  lemma PrefixOfDeclared(resources: seq<(string, seq<string>)>, t: nat, i: nat)
    requires t < |resources| && i < |resources[t].1|
    ensures var d := (resources[t].0, resources[t].1[i]);
            Declared(resources[..t]) + Pairs(resources[t].0, resources[t].1)[..i] + [d] <= Declared(resources)
  {
    DeclaredGrows(resources, t + 1);
    assert resources[..t + 1][..t] == resources[..t];
  }

  lemma {:induction false} DeclaredGrows(resources: seq<(string, seq<string>)>, t: nat)
    requires t <= |resources|
    ensures Declared(resources[..t]) <= Declared(resources)
    decreases |resources|
  {
    if t < |resources| {
      var front := resources[..|resources| - 1];
      DeclaredGrows(front, t);
      assert front[..t] == resources[..t];
    } else {
      assert resources[..t] == resources;
    }
  }

  lemma ClashIsUnclean(owner: string, prefix: string, ds: seq<(string, string)>, d: (string, string),
                       mappings: seq<Mapping>, localKeys: set<Key>, effectiveKeys: set<Key>, all: seq<(string, string)>)
    requires Tracks(owner, prefix, ds, mappings, localKeys, effectiveKeys) && ds + [d] <= all
    requires ResourceType(d.0).Ok? && LocalId(d.1).Ok?
    requires var m := MappingOf(owner, prefix, d); (m.kind, m.local) in localKeys || KeyOf(m) in effectiveKeys
    ensures !Clean(prefix, all)
  {
    var m := MappingOf(owner, prefix, d);
    hide Strip, Alias, Effective;
    var i :| 0 <= i < |ds| && ((m.kind, m.local) == (mappings[i].kind, mappings[i].local)
                               || KeyOf(m) == KeyOf(mappings[i]));
    assert mappings[i] == MappingOf(owner, prefix, ds[i]) && all[i] == ds[i] && all[|ds|] == d;
    assert m.local == mappings[i].local ==> m.effective == mappings[i].effective;
    assert KeyOf(m) == KeyOf(mappings[i]);
    assert KeyOf(MappingOf("", prefix, all[i])) == KeyOf(MappingOf("", prefix, all[|ds|]));
  }

  lemma CleanGrows(owner: string, prefix: string, ds: seq<(string, string)>, d: (string, string),
                   mappings: seq<Mapping>, effectiveKeys: set<Key>)
    requires Clean(prefix, ds) && mappings == MapDeclared(owner, prefix, ds)
    requires forall i :: 0 <= i < |ds| ==> KeyOf(mappings[i]) in effectiveKeys
    requires ResourceType(d.0).Ok? && LocalId(d.1).Ok? && KeyOf(MappingOf(owner, prefix, d)) !in effectiveKeys
    ensures Clean(prefix, ds + [d])
  {
    hide ResourceType, LocalId, Effective, Strip;
    forall i | 0 <= i < |ds|
      ensures KeyOf(MappingOf("", prefix, ds[i])) != KeyOf(MappingOf("", prefix, d))
    {
      assert mappings[i] == MappingOf(owner, prefix, ds[i]);
    }
  }

  lemma KeysGrow(mappings: seq<Mapping>, m: Mapping, localKeys: set<Key>, effectiveKeys: set<Key>)
    requires forall k :: k in localKeys <==> exists i ::
               0 <= i < |mappings| && k == (mappings[i].kind, mappings[i].local)
    requires forall k :: k in effectiveKeys <==> exists i :: 0 <= i < |mappings| && k == KeyOf(mappings[i])
    ensures var ms' := mappings + [m];
            && (forall k :: k in localKeys + {(m.kind, m.local)} <==>
                  exists i :: 0 <= i < |ms'| && k == (ms'[i].kind, ms'[i].local))
            && (forall k :: k in effectiveKeys + {KeyOf(m)} <==> exists i :: 0 <= i < |ms'| && k == KeyOf(ms'[i]))
  {
    var ms' := mappings + [m];
    forall k
      ensures k in localKeys + {(m.kind, m.local)} <==> exists i :: 0 <= i < |ms'| && k == (ms'[i].kind, ms'[i].local)
      ensures k in effectiveKeys + {KeyOf(m)} <==> exists i :: 0 <= i < |ms'| && k == KeyOf(ms'[i])
    {
      assert ms'[|mappings|] == m;
      assert forall i :: 0 <= i < |mappings| ==> ms'[i] == mappings[i];
    }
  }

  lemma CleanExtends(owner: string, prefix: string, ds: seq<(string, string)>, d: (string, string),
                     mappings: seq<Mapping>, localKeys: set<Key>, effectiveKeys: set<Key>)
    requires Tracks(owner, prefix, ds, mappings, localKeys, effectiveKeys) && Clean(prefix, ds)
    requires ResourceType(d.0).Ok? && LocalId(d.1).Ok?
    requires KeyOf(MappingOf(owner, prefix, d)) !in effectiveKeys
    ensures var m := MappingOf(owner, prefix, d);
            && Clean(prefix, ds + [d])
            && Tracks(owner, prefix, ds + [d], mappings + [m], localKeys + {(m.kind, m.local)},
                      effectiveKeys + {KeyOf(m)})
  {
    hide Clean, ResourceType, LocalId, MappingOf, MapDeclared;
    var m := MappingOf(owner, prefix, d);
    CleanGrows(owner, prefix, ds, d, mappings, effectiveKeys);
    KeysGrow(mappings, m, localKeys, effectiveKeys);
    MapDeclaredGrows(owner, prefix, ds, d);
  }

  lemma MapDeclaredGrows(owner: string, prefix: string, ds: seq<(string, string)>, d: (string, string))
    ensures MapDeclared(owner, prefix, ds + [d]) == MapDeclared(owner, prefix, ds) + [MappingOf(owner, prefix, d)]
  {
    hide MappingOf;
  }

  lemma NormalPlan(owner: string, prefix: string, ds: seq<(string, string)>, ms: seq<Mapping>,
                   localKeys: set<Key>, effectiveKeys: set<Key>)
    requires Clean(prefix, ds) && Trimmed(prefix) && Trimmed(owner) && PluginId(owner).Ok?
    requires Tracks(owner, prefix, ds, ms, localKeys, effectiveKeys)
    ensures ms == MapDeclared(owner, prefix, ds) && Plan(owner, prefix, ms).Valid()
  {
    hide Strip, Alias;
    StripTrimmed(owner);
    forall i | 0 <= i < |ds|
      ensures ResourceType(ms[i].kind) == Ok(ms[i].kind) && LocalId(ms[i].local) == Ok(ms[i].local)
    {
      assert ds[i] in ds;
      NormalizedTwice(ds[i].0);
      NormalizedTwice(ds[i].1);
    }
    forall i, j | 0 <= i < j < |ds|
      ensures KeyOf(ms[i]) != KeyOf(ms[j])
    {
      assert KeyOf(MappingOf("", prefix, ds[i])) != KeyOf(MappingOf("", prefix, ds[j]));
    }
  }

  /** In a plan, distinct local ids of a kind have distinct effective ids, and resolving finds each one's own. */
  lemma ResolveInjective(p: Plan, kind: string, a: string, b: string)
    requires p.Valid() && ResolveIn(p, kind, a).Found? && ResolveIn(p, kind, b).Found?
    ensures ResolveIn(p, kind, a) == ResolveIn(p, kind, b) <==> Strip(a) == Strip(b)
  {
    hide Strip, Alias, Effective, PluginId;
    var x := Find(p.mappings, ResourceType(kind).value, Strip(a)).value;
    var y := Find(p.mappings, ResourceType(kind).value, Strip(b)).value;
    var i :| 0 <= i < |p.mappings| && p.mappings[i] == x;
    var j :| 0 <= j < |p.mappings| && p.mappings[j] == y;
    assert x.effective == y.effective ==> KeyOf(x) == KeyOf(y);
  }
}
