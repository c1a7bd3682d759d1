/** Rewriting plugin documents from local ids to effective ids: definitions are renamed, and references with them. */
module ResourceRewrite {
  import opened Json
  import opened Outcomes
  import opened ResourceIds

  // ----- single ids -----

  /** `resolver.resolve`, for the plugin whose plan this is. */
  function Renamed(p: Plan, kind: string, id: string): Outcome<string> {
    match ResolveIn(p, kind, id) case Found(e) => Ok(e) case _ => Raised
  }

  /** `_maybe_resolve`: an undeclared reference is kept; a blank one that is not empty is an error. */
  function MaybeResolve(p: Plan, kind: string, v: Value): Outcome<Value> {
    if !v.Text? || v.text == "" then Ok(v) else
      match ResolveIn(p, kind, v.text)
      case Found(e) => Ok(Text(e))
      case Missing => Ok(v)
      case Malformed => Raised
  }

  /** The plan tells these ids apart, as it does for the ids it was built from. */
  ghost predicate Separates(p: Plan, kind: string, ids: set<string>) {
    forall a, b :: a in ids && b in ids && Renamed(p, kind, a).Ok? && Renamed(p, kind, a) == Renamed(p, kind, b) ==>
             a == b
  }

  /** `_rewrite_id_mapping`. */
  ghost function RewriteIdMapping(p: Plan, kind: string, v: Value): Outcome<map<string, Value>>
    requires v.Object? ==> Separates(p, kind, v.entries.Keys)
  {
    if !v.Object? || exists k :: k in v.entries && Renamed(p, kind, k).Raised? then Raised
    else Ok(map k | k in v.entries :: Renamed(p, kind, k).value := v.entries[k])
  }

  /** `_rewrite_id_list`: what is not a list becomes an empty one. */
  function RewriteIdList(p: Plan, kind: string, v: Value): Outcome<Value> {
    if !v.List? then Ok(List([]))
    else if exists i :: 0 <= i < |v.items| && MaybeResolve(p, kind, v.items[i]).Raised? then Raised
    else Ok(List(seq(|v.items|, i requires 0 <= i < |v.items| => MaybeResolve(p, kind, v.items[i]).value)))
  }

  // ----- fields of a definition -----

  /** How a field refers: one id, written even when absent; one id if there; or a list of ids if there. */
  datatype Use = Always | IfPresent | EachIfPresent

  datatype Ref = Ref(field: string, kind: string, use: Use)

  function RewriteField(p: Plan, m: map<string, Value>, r: Ref): Outcome<map<string, Value>> {
    if r.use != Always && r.field !in m then Ok(m) else
      var was := GetOr(m, r.field, Null);
      var v :- if r.use == EachIfPresent then RewriteIdList(p, r.kind, was) else MaybeResolve(p, r.kind, was);
      Ok(m[r.field := v])
  }

  function RewriteFields(p: Plan, m: map<string, Value>, refs: seq<Ref>): Outcome<map<string, Value>>
    decreases |refs|
  {
    if refs == [] then Ok(m) else
      var n :- RewriteFields(p, m, refs[..|refs| - 1]);
      RewriteField(p, n, refs[|refs| - 1])
  }

  function RewriteDefinition(p: Plan, v: Value, refs: seq<Ref>): Outcome<Value> {
    if !v.Object? then Ok(v) else
      var m :- RewriteFields(p, v.entries, refs);
      Ok(Object(m))
  }

  function RewriteDefinitions(p: Plan, m: map<string, Value>, refs: seq<Ref>): Outcome<map<string, Value>> {
    if exists k :: k in m && RewriteDefinition(p, m[k], refs).Raised? then Raised
    else Ok(map k | k in m :: RewriteDefinition(p, m[k], refs).value)
  }

  method RewriteEveryDefinition(p: Plan, m: map<string, Value>, refs: seq<Ref>) returns (r: Outcome<map<string, Value>>)
    ensures r == RewriteDefinitions(p, m, refs)
  {
    var result := m;
    var rest := m.Keys;
    while rest != {}
      invariant rest <= m.Keys == result.Keys
      invariant forall k :: k in m.Keys - rest ==> RewriteDefinition(p, m[k], refs) == Ok(result[k])
      invariant forall k :: k in rest ==> result[k] == m[k]
    {
      var k :| k in rest;
      rest := rest - {k};
      if result[k].Object? {
        var fields := result[k].entries;
        for i := 0 to |refs|
          invariant RewriteFields(p, m[k].entries, refs[..i]) == Ok(fields)
        {
          assert refs[..i + 1][..i] == refs[..i];
          var next := RewriteField(p, fields, refs[i]);
          if next.Raised? {
            FieldsRaise(p, m[k].entries, refs, i + 1);
            return Raised;
          }
          fields := next.value;
        }
        assert refs[..|refs|] == refs;
        result := result[k := Object(fields)];
      }
    }
    r := Ok(result);
    assert RewriteDefinitions(p, m, refs).Ok?;
    assert result == RewriteDefinitions(p, m, refs).value;
  }

  lemma {:induction false} FieldsRaise(p: Plan, m: map<string, Value>, refs: seq<Ref>, i: nat)
    requires i <= |refs| && RewriteFields(p, m, refs[..i]).Raised?
    ensures RewriteFields(p, m, refs).Raised?
    decreases |refs|
  {
    if i < |refs| {
      assert refs[..|refs| - 1][..i] == refs[..i];
      FieldsRaise(p, m, refs[..|refs| - 1], i);
    } else {
      assert refs[..i] == refs;
    }
  }

  // ----- groups and phrases -----

  /** One item of a list section, which is named by its `id`. */
  function RewriteItem(p: Plan, kind: string, refs: seq<Ref>, v: Value): Outcome<Value> {
    if !v.Object? || "id" !in v.entries || !v.entries["id"].Text? then Raised else
      var id :- Renamed(p, kind, v.entries["id"].text);
      var m :- RewriteFields(p, v.entries["id" := Text(id)], refs);
      Ok(Object(m))
  }

  function RewriteItems(p: Plan, kind: string, refs: seq<Ref>, items: seq<Value>): Outcome<seq<Value>>
    decreases |items|
  {
    if items == [] then Ok([]) else
      var front :- RewriteItems(p, kind, refs, items[..|items| - 1]);
      var last :- RewriteItem(p, kind, refs, items[|items| - 1]);
      Ok(front + [last])
  }

  method RewriteEveryItem(p: Plan, kind: string, refs: seq<Ref>, items: seq<Value>) returns (r: Outcome<seq<Value>>)
    ensures r == RewriteItems(p, kind, refs, items)
  {
    var result: seq<Value> := [];
    for i := 0 to |items|
      invariant RewriteItems(p, kind, refs, items[..i]) == Ok(result)
    {
      assert items[..i + 1][..i] == items[..i];
      var item := RewriteItem(p, kind, refs, items[i]);
      if item.Raised? {
        ItemsRaise(p, kind, refs, items, i + 1);
        return Raised;
      }
      result := result + [item.value];
    }
    assert items[..|items|] == items;
    r := Ok(result);
  }

  lemma {:induction false} ItemsRaise(p: Plan, kind: string, refs: seq<Ref>, items: seq<Value>, i: nat)
    requires i <= |items| && RewriteItems(p, kind, refs, items[..i]).Raised?
    ensures RewriteItems(p, kind, refs, items).Raised?
    decreases |items|
  {
    if i < |items| {
      assert items[..|items| - 1][..i] == items[..i];
      ItemsRaise(p, kind, refs, items[..|items| - 1], i);
    } else {
      assert items[..i] == items;
    }
  }

  lemma {:induction false} ItemsAt(p: Plan, kind: string, refs: seq<Ref>, items: seq<Value>, i: nat)
    requires RewriteItems(p, kind, refs, items).Ok? && i < |items|
    ensures var r := RewriteItems(p, kind, refs, items).value;
            |r| == |items| && RewriteItem(p, kind, refs, items[i]) == Ok(r[i])
    decreases |items|
  {
    if i < |items| - 1 {
      ItemsAt(p, kind, refs, items[..|items| - 1], i);
    } else if |items| > 1 {
      ItemsAt(p, kind, refs, items[..|items| - 1], 0);
    }
  }

  // ----- whole documents -----

  type Doc = map<string, Value>

  const AGENT_REFS := [Ref("prompt_template", "prompt", Always),
                       Ref("visible_skill_group_ids", "skill_group", EachIfPresent),
                       Ref("visible_rule_group_ids", "rule_group", EachIfPresent)]
  const SKILL_REFS := [Ref("group_ids", "skill_group", EachIfPresent)]
  const RULE_REFS := [Ref("group_ids", "rule_group", EachIfPresent), Ref("agent_types", "agent", EachIfPresent)]
  const SKILL_GROUP_REFS := [Ref("skill_ids", "skill", EachIfPresent)]
  const RULE_GROUP_REFS := [Ref("rule_ids", "rule", EachIfPresent)]
  const NODE_REFS := [Ref("agent_type", "agent", Always)]
  const NODE_PARAM_REFS := [Ref("script_group", "script_library", IfPresent),
                            Ref("workflow_id", "workflow", IfPresent), Ref("sub_workflow_id", "workflow", IfPresent)]
  const SUB_WORKFLOW_REFS := [Ref("workflow_id", "workflow", IfPresent), Ref("sub_workflow_id", "workflow", IfPresent)]

  function Section(doc: Doc, name: string): Value {
    GetOr(doc, name, Object(map[]))
  }

  /** The sections of a document whose keys are ids of a kind are told apart by the plan. */
  ghost predicate Planned(p: Plan, doc: Doc, sections: seq<string>, kind: string) {
    forall s :: s in sections && Section(doc, s).Object? ==> Separates(p, kind, Section(doc, s).entries.Keys)
  }

  ghost function RewriteSection(p: Plan, doc: Doc, name: string, kind: string, refs: seq<Ref>): Outcome<Doc>
    requires Planned(p, doc, [name], kind)
  {
    assert name in [name];
    var renamed :- RewriteIdMapping(p, kind, Section(doc, name));
    var m :- RewriteDefinitions(p, renamed, refs);
    Ok(doc[name := Object(m)])
  }

  function RewriteGroups(p: Plan, doc: Doc, kind: string, refs: seq<Ref>): Outcome<Doc> {
    var v := GetOr(doc, "groups", List([]));
    if v.Null? then Ok(doc["groups" := List([])])
    else if !v.List? then Raised else
      var items :- RewriteItems(p, kind, refs, v.items);
      Ok(doc["groups" := List(items)])
  }

  ghost function RewriteAgents(p: Plan, doc: Doc): Outcome<Doc>
    requires Planned(p, doc, ["agents"], "agent")
  {
    RewriteSection(p, doc, "agents", "agent", AGENT_REFS)
  }

  ghost function RewritePrompts(p: Plan, doc: Doc): Outcome<Doc>
    requires Planned(p, doc, ["agents"], "prompt")
  {
    RewriteSection(p, doc, "agents", "prompt", [])
  }

  /** Skills and rules documents: two sections of definitions, and groups of them. */
  ghost function RewriteGrouped(p: Plan, doc: Doc, sections: seq<string>, kind: string, refs: seq<Ref>,
                                groupKind: string, groupRefs: seq<Ref>): Outcome<Doc>
    requires |sections| == 2 && sections[0] != sections[1] && Planned(p, doc, sections, kind)
  {
    assert sections[0] in sections && sections[1] in sections;
    var first :- RewriteSection(p, doc, sections[0], kind, refs);
    assert Section(first, sections[1]) == Section(doc, sections[1]);
    var both :- RewriteSection(p, first, sections[1], kind, refs);
    RewriteGroups(p, both, groupKind, groupRefs)
  }

  ghost function RewriteSkills(p: Plan, doc: Doc): Outcome<Doc>
    requires Planned(p, doc, ["skills", "skill_configs"], "skill")
  {
    RewriteGrouped(p, doc, ["skills", "skill_configs"], "skill", SKILL_REFS, "skill_group", SKILL_GROUP_REFS)
  }

  ghost function RewriteRules(p: Plan, doc: Doc): Outcome<Doc>
    requires Planned(p, doc, ["rules", "rule_configs"], "rule")
  {
    RewriteGrouped(p, doc, ["rules", "rule_configs"], "rule", RULE_REFS, "rule_group", RULE_GROUP_REFS)
  }

  function RewritePhrases(p: Plan, doc: Doc): Outcome<Doc> {
    var v := GetOr(doc, "phrases", List([]));
    if !v.List? then Raised else
      var items :- RewriteItems(p, "preset_phrase", [], v.items);
      Ok(if "phrases" in doc then doc["phrases" := List(items)] else doc)
  }

  /** A workflow node: its agent, its parameters and its sub-workflow parameters. */
  function RewriteNode(p: Plan, v: Value): Outcome<Value> {
    if !v.Object? then Ok(v) else
      var m :- RewriteFields(p, v.entries, NODE_REFS);
      var n :- RewriteNested(p, m, "node_params", NODE_PARAM_REFS);
      var o :- RewriteNested(p, n, "sub_workflow_params", SUB_WORKFLOW_REFS);
      Ok(Object(o))
  }

  function RewriteNested(p: Plan, m: map<string, Value>, field: string, refs: seq<Ref>): Outcome<map<string, Value>> {
    if field !in m || !m[field].Object? then Ok(m) else
      var v :- RewriteFields(p, m[field].entries, refs);
      Ok(m[field := Object(v)])
  }

  function RewriteNodes(p: Plan, nodes: seq<Value>): Outcome<seq<Value>>
    decreases |nodes|
  {
    if nodes == [] then Ok([]) else
      var front :- RewriteNodes(p, nodes[..|nodes| - 1]);
      var last :- RewriteNode(p, nodes[|nodes| - 1]);
      Ok(front + [last])
  }

  function RewriteWorkflow(p: Plan, doc: Doc): Outcome<Doc> {
    if "workflow_id" !in doc || !doc["workflow_id"].Text? then Raised else
      var id :- Renamed(p, "workflow", doc["workflow_id"].text);
      var v := GetOr(doc, "nodes", List([]));
      if !v.List? then Raised else
        var nodes :- RewriteNodes(p, v.items);
        var d := doc["workflow_id" := Text(id)];
        Ok(if "nodes" in doc then d["nodes" := List(nodes)] else d)
  }

  method RewriteWorkflowDefinition(p: Plan, doc: Doc) returns (r: Outcome<Doc>)
    ensures r == RewriteWorkflow(p, doc)
  {
    var result := doc;
    if "workflow_id" !in result || !result["workflow_id"].Text? {
      return Raised;
    }
    var id := Renamed(p, "workflow", result["workflow_id"].text);
    if id.Raised? {
      return Raised;
    }
    result := result["workflow_id" := Text(id.value)];
    var nodes := GetOr(doc, "nodes", List([]));
    if !nodes.List? {
      return Raised;
    }
    var items := nodes.items;
    for i := 0 to |items|
      invariant |items| == |nodes.items| && items[i..] == nodes.items[i..]
      invariant RewriteNodes(p, nodes.items[..i]) == Ok(items[..i])
    {
      assert nodes.items[..i + 1][..i] == nodes.items[..i];
      assert items[i] == nodes.items[i];
      var node := RewriteNode(p, items[i]);
      if node.Raised? {
        NodesRaise(p, nodes.items, i + 1);
        return Raised;
      }
      items := items[i := node.value];
      assert items[..i + 1] == items[..i] + [node.value];
    }
    assert nodes.items[..|items|] == nodes.items && items[..|items|] == items;
    if "nodes" in doc {
      result := result["nodes" := List(items)];
    }
    r := Ok(result);
  }

  lemma {:induction false} NodesRaise(p: Plan, nodes: seq<Value>, i: nat)
    requires i <= |nodes| && RewriteNodes(p, nodes[..i]).Raised?
    ensures RewriteNodes(p, nodes).Raised?
    decreases |nodes|
  {
    if i < |nodes| {
      assert nodes[..|nodes| - 1][..i] == nodes[..i];
      NodesRaise(p, nodes[..|nodes| - 1], i);
    } else {
      assert nodes[..i] == nodes;
    }
  }

  // ----- nothing is lost -----

  /** A valid plan separates any ids that differ by more than surrounding space. */
  lemma PlanSeparates(p: Plan, kind: string, ids: set<string>)
    requires p.Valid() && forall a, b :: a in ids && b in ids && Strip(a) == Strip(b) ==> a == b
    ensures Separates(p, kind, ids)
  {
    forall a, b | a in ids && b in ids && Renamed(p, kind, a).Ok? && Renamed(p, kind, a) == Renamed(p, kind, b)
      ensures a == b
    {
      ResolveInjective(p, kind, a, b);
    }
  }

  /** A plan built from a kind's ids resolves every one of them, and separates them. */
  lemma BuiltPlanCovers(p: Plan, ds: seq<(string, string)>, kind: string, ids: set<string>)
    requires p.Valid() && Clean(p.prefix, ds) && p.mappings == MapDeclared(p.owner, p.prefix, ds)
    requires forall id :: id in ids ==> (kind, id) in ds
    ensures Separates(p, kind, ids)
    ensures forall id :: id in ids ==> Renamed(p, kind, id).Ok?
  {
    hide Plan.Valid, Strip, Alias, Separates;
    forall a, b | a in ids && b in ids && Strip(a) == Strip(b)
      ensures a == b
    {
      var i :| 0 <= i < |ds| && ds[i] == (kind, a);
      var j :| 0 <= j < |ds| && ds[j] == (kind, b);
      assert KeyOf(MappingOf("", p.prefix, ds[i])) == KeyOf(MappingOf("", p.prefix, ds[j]));
    }
    PlanSeparates(p, kind, ids);
    forall id | id in ids
      ensures Renamed(p, kind, id).Ok?
    {
      var i :| 0 <= i < |ds| && ds[i] == (kind, id);
      assert p.mappings[i] in p.mappings;
    }
  }

  /** Renaming a section loses no definition: every definition is found, unchanged, under its new id, and there are
      no others. */
  lemma DefinitionsKept(p: Plan, kind: string, v: Value)
    requires v.Object? && Separates(p, kind, v.entries.Keys) && RewriteIdMapping(p, kind, v).Ok?
    ensures var m := RewriteIdMapping(p, kind, v).value;
            && (forall k :: k in v.entries ==>
                  Renamed(p, kind, k).value in m && m[Renamed(p, kind, k).value] == v.entries[k])
            && (forall e :: e in m ==> exists k :: k in v.entries && Renamed(p, kind, k) == Ok(e))
            && |m| == |v.entries|
  {
    var m := RewriteIdMapping(p, kind, v).value;
    SameSize(p, kind, v.entries.Keys, m.Keys);
  }

  lemma {:induction false} SameSize(p: Plan, kind: string, ids: set<string>, names: set<string>)
    requires Separates(p, kind, ids) && forall k :: k in ids ==> Renamed(p, kind, k).Ok?
    requires forall e :: e in names <==> exists k :: k in ids && Renamed(p, kind, k) == Ok(e)
    ensures |names| == |ids|
    decreases ids
  {
    if ids == {} {
      assert names == {};
    } else {
      var k :| k in ids;
      var e := Renamed(p, kind, k).value;
      assert e in names;
      SameSize(p, kind, ids - {k}, names - {e});
    }
  }

  // ----- references find what they found -----

  /** A rewritten reference names the new id of a definition exactly when it named that definition before, or when it
      is undeclared and happens to be that new id already. */
  lemma ReferenceFollows(p: Plan, kind: string, ref: string, k: string)
    requires p.Valid() && Renamed(p, kind, k).Ok? && MaybeResolve(p, kind, Text(ref)).Ok?
    ensures MaybeResolve(p, kind, Text(ref)) == Ok(Text(Renamed(p, kind, k).value)) <==>
            || Strip(ref) == Strip(k)
            || (ResolveIn(p, kind, ref).Missing? && ref == Renamed(p, kind, k).value)
    ensures ResolveIn(p, kind, ref).Missing? ==> MaybeResolve(p, kind, Text(ref)) == Ok(Text(ref))
  {
    hide Plan.Valid, Strip, Alias;
    if ResolveIn(p, kind, ref).Found? {
      ResolveInjective(p, kind, ref, k);
    }
    assert Strip(ref) == Strip(k) ==> ResolveIn(p, kind, ref) == ResolveIn(p, kind, k);
    assert Renamed(p, kind, k).value != "" by {
      var m := Find(p.mappings, ResourceType(kind).value, Strip(k)).value;
      assert m in p.mappings;
      EffectiveOfPlan(p, m);
    }
    StripOfEmpty();
  }

  lemma StripOfEmpty()
    ensures Strip("") == ""
  {
  }

  lemma EffectiveOfPlan(p: Plan, m: Mapping)
    requires p.Valid() && m in p.mappings
    ensures m.effective != ""
  {
    EffectiveIsNormal(p.prefix, m.local);
  }

  /** A field that is referred through keeps its place, every other field keeps its value. */
  lemma {:induction false} OtherFieldsKept(p: Plan, m: map<string, Value>, refs: seq<Ref>, f: string)
    requires RewriteFields(p, m, refs).Ok? && forall r :: r in refs ==> r.field != f
    ensures var n := RewriteFields(p, m, refs).value; (f in n <==> f in m) && (f in m ==> n[f] == m[f])
    decreases |refs|
  {
    if refs != [] {
      OtherFieldsKept(p, m, refs[..|refs| - 1], f);
    }
  }

  /** A reference field ends up with its own rewriting, whatever the fields around it. */
  lemma {:induction false} FieldRewritten(p: Plan, m: map<string, Value>, refs: seq<Ref>, i: nat)
    requires RewriteFields(p, m, refs).Ok? && i < |refs|
    requires forall j :: 0 <= j < |refs| && j != i ==> refs[j].field != refs[i].field
    requires refs[i].field in m
    ensures var n := RewriteFields(p, m, refs).value;
            && refs[i].field in n
            && Ok(n[refs[i].field]) == if refs[i].use == EachIfPresent
               then RewriteIdList(p, refs[i].kind, m[refs[i].field])
                                       else MaybeResolve(p, refs[i].kind, m[refs[i].field])
    decreases |refs|
  {
    var front := refs[..|refs| - 1];
    if i == |refs| - 1 {
      OtherFieldsKept(p, m, front, refs[i].field);
    } else {
      FieldRewritten(p, m, front, i);
    }
  }

  /** What a reference is bound to name after rewriting. */
  predicate Follows(p: Plan, kind: string, ref: string, k: string)
    requires Renamed(p, kind, k).Ok?
  {
    || Strip(ref) == Strip(k)
    || (ResolveIn(p, kind, ref).Missing? && ref == Renamed(p, kind, k).value)
  }

  /** The prompt an agent uses: the entry of the prompts document that its `prompt_template` names. */
  function PromptOf(agents: Doc, prompts: Doc, a: string): Option<Value> {
    var defs, texts := Section(agents, "agents"), Section(prompts, "agents");
    if defs.Object? && texts.Object? && a in defs.entries && defs.entries[a].Object?
       && "prompt_template" in defs.entries[a].entries && defs.entries[a].entries["prompt_template"].Text?
       && defs.entries[a].entries["prompt_template"].text in texts.entries
    then Some(texts.entries[defs.entries[a].entries["prompt_template"].text])
    else None
  }

  lemma AgentRewritten(p: Plan, doc: Doc, a: string)
    requires Planned(p, doc, ["agents"], "agent") && RewriteAgents(p, doc).Ok?
    requires Section(doc, "agents").Object? && a in Section(doc, "agents").entries
    ensures Renamed(p, "agent", a).Ok?
    ensures var s := Section(RewriteAgents(p, doc).value, "agents");
            && s.Object? && Renamed(p, "agent", a).value in s.entries
            && RewriteDefinition(p, Section(doc, "agents").entries[a], AGENT_REFS)
               == Ok(s.entries[Renamed(p, "agent", a).value])
  {
    hide Renamed, RewriteDefinition, RewriteSection, Separates;
    SectionRewritten(p, doc, "agents", "agent", AGENT_REFS, a);
  }

  lemma PromptsRewritten(p: Plan, doc: Doc)
    requires Planned(p, doc, ["agents"], "prompt") && RewritePrompts(p, doc).Ok? && Section(doc, "agents").Object?
    ensures "agents" in ["agents"] && Separates(p, "prompt", Section(doc, "agents").entries.Keys)
    ensures RewriteIdMapping(p, "prompt", Section(doc, "agents")).Ok?
    ensures Section(RewritePrompts(p, doc).value, "agents")
            == Object(RewriteIdMapping(p, "prompt", Section(doc, "agents")).value)
  {
    assert "agents" in ["agents"];
    var m := RewriteIdMapping(p, "prompt", Section(doc, "agents")).value;
    assert RewriteDefinitions(p, m, []).value == m;
  }

  lemma TemplateRewritten(p: Plan, v: Value)
    requires v.Object? && RewriteDefinition(p, v, AGENT_REFS).Ok?
    ensures var w := RewriteDefinition(p, v, AGENT_REFS).value;
            && w.Object? && "prompt_template" in w.entries
            && Ok(w.entries["prompt_template"]) == MaybeResolve(p, "prompt", GetOr(v.entries, "prompt_template", Null))
  {
    var m := v.entries;
    var r := AGENT_REFS;
    assert r[..|r| - 1] == [r[0], r[1]] && [r[0], r[1]][..1] == [r[0]] && [r[0]][..0] == [];
    assert RewriteFields(p, m, [r[0], r[1]]).Ok?;
    assert RewriteFields(p, m, [r[0]]).Ok?;
    assert RewriteFields(p, m, [r[0]]) == RewriteField(p, m, r[0]);
    var first := RewriteField(p, m, r[0]).value;
    assert RewriteFields(p, m, [r[0], r[1]]) == RewriteField(p, first, r[1]);
    var second := RewriteField(p, first, r[1]).value;
    assert RewriteFields(p, m, r) == RewriteField(p, second, r[2]);
  }

  /** An agent keeps its prompt, under the new names of both, exactly when its template names a prompt or, naming
      none, is not bound to follow one by accident. */
  lemma AgentKeepsItsPrompt(p: Plan, agents: Doc, prompts: Doc, a: string, template: string)
    requires p.Valid() && Planned(p, agents, ["agents"], "agent") && Planned(p, prompts, ["agents"], "prompt")
    requires RewriteAgents(p, agents).Ok? && RewritePrompts(p, prompts).Ok?
    requires Section(agents, "agents").Object? && a in Section(agents, "agents").entries
    requires Section(prompts, "agents").Object?
    requires var d := Section(agents, "agents").entries[a];
             d.Object? && "prompt_template" in d.entries && d.entries["prompt_template"] == Text(template)
    ensures Renamed(p, "agent", a).Ok?
    ensures forall k :: k in Section(prompts, "agents").entries ==> Renamed(p, "prompt", k).Ok?
    ensures PromptOf(RewriteAgents(p, agents).value, RewritePrompts(p, prompts).value, Renamed(p, "agent", a).value)
            == PromptOf(agents, prompts, a)
            <==> || template in Section(prompts, "agents").entries
                 || forall k :: k in Section(prompts, "agents").entries ==> !Follows(p, "prompt", template, k)
  {
    hide Plan.Valid, RewriteAgents, RewritePrompts, RewriteDefinition, MaybeResolve, RewriteIdMapping, Renamed,
         Separates, Planned;
    AgentRewritten(p, agents, a);
    PromptsRewritten(p, prompts);
    var d := Section(agents, "agents").entries[a];
    TemplateRewritten(p, d);
    var texts := Section(prompts, "agents");
    RenamedKeys(p, "prompt", texts);
    DefinitionsKept(p, "prompt", texts);
    var ref := MaybeResolve(p, "prompt", Text(template)).value;
    forall k | k in texts.entries
      ensures ref == Text(Renamed(p, "prompt", k).value) <==> Follows(p, "prompt", template, k)
    {
      ReferenceFollows(p, "prompt", template, k);
    }
    MaybeResolvedIsText(p, "prompt", template);
  }

  lemma MaybeResolvedIsText(p: Plan, kind: string, ref: string)
    requires MaybeResolve(p, kind, Text(ref)).Ok?
    ensures MaybeResolve(p, kind, Text(ref)).value.Text?
  {
  }

  lemma RenamedKeys(p: Plan, kind: string, v: Value)
    requires v.Object? && Separates(p, kind, v.entries.Keys) && RewriteIdMapping(p, kind, v).Ok?
    ensures forall k :: k in v.entries ==> Renamed(p, kind, k).Ok?
  {
  }

  lemma SectionRewritten(p: Plan, doc: Doc, name: string, kind: string, refs: seq<Ref>, k: string)
    requires Planned(p, doc, [name], kind) && RewriteSection(p, doc, name, kind, refs).Ok?
    requires Section(doc, name).Object? && k in Section(doc, name).entries
    ensures Renamed(p, kind, k).Ok?
    ensures var s := Section(RewriteSection(p, doc, name, kind, refs).value, name);
            && s.Object? && Renamed(p, kind, k).value in s.entries
            && RewriteDefinition(p, Section(doc, name).entries[k], refs) == Ok(s.entries[Renamed(p, kind, k).value])
    ensures forall f :: f != name ==> Section(RewriteSection(p, doc, name, kind, refs).value, f) == Section(doc, f)
  {
    hide Renamed, RewriteDefinition, RewriteIdMapping, Separates;
    assert name in [name];
    var v := Section(doc, name);
    RenamedKeys(p, kind, v);
    DefinitionsKept(p, kind, v);
    assert RewriteDefinition(p, RewriteIdMapping(p, kind, v).value[Renamed(p, kind, k).value], refs).Ok?;
  }

  /** In a skills or rules document every definition of both sections is found under its new id, with its own
      references rewritten; and the groups are the groups rewritten one by one. */
  lemma GroupedRewritten(p: Plan, doc: Doc, sections: seq<string>, kind: string, refs: seq<Ref>,
                         groupKind: string, groupRefs: seq<Ref>, i: nat, k: string)
    requires |sections| == 2 && sections[0] != sections[1] && "groups" !in sections && Planned(p, doc, sections, kind)
    requires RewriteGrouped(p, doc, sections, kind, refs, groupKind, groupRefs).Ok?
    requires i < 2 && Section(doc, sections[i]).Object? && k in Section(doc, sections[i]).entries
    ensures Renamed(p, kind, k).Ok?
    ensures var d := RewriteGrouped(p, doc, sections, kind, refs, groupKind, groupRefs).value;
            && Section(d, sections[i]).Object? && Renamed(p, kind, k).value in Section(d, sections[i]).entries
            && RewriteDefinition(p, Section(doc, sections[i]).entries[k], refs)
               == Ok(Section(d, sections[i]).entries[Renamed(p, kind, k).value])
            && "groups" in d
            && ("groups" in doc && doc["groups"].List? ==>
                  RewriteItems(p, groupKind, groupRefs, doc["groups"].items).Ok?
                  && d["groups"] == List(RewriteItems(p, groupKind, groupRefs, doc["groups"].items).value))
  {
    hide Renamed, RewriteDefinition, RewriteItems, Separates, RewriteDefinitions, RewriteIdMapping;
    assert sections[0] in sections && sections[1] in sections;
    var first := RewriteSection(p, doc, sections[0], kind, refs).value;
    assert Section(first, sections[1]) == Section(doc, sections[1]);
    if i == 0 {
      SectionRewritten(p, doc, sections[0], kind, refs, k);
    } else {
      SectionRewritten(p, first, sections[1], kind, refs, k);
    }
  }
}
