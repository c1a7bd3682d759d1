/**
 The references of plugin documents one by one: which field names what, and that each finds it again after rewriting.
 Fields and sections are written out here, apart from the tables that the rewriting follows.
 */
module ResourceLinks {
  import opened Json
  import opened Outcomes
  import opened ResourceIds
  import opened ResourceRewrite
  import opened ResourceReferences
  import Files = ResourceFiles

  /** One kind of reference, with where it stands; `at` is a position in a list of ids. */
  datatype Link =
    | AgentPrompt(agent: string)
    | AgentSkillGroup(agent: string, at: nat)
    | AgentRuleGroup(agent: string, at: nat)
    | GroupOfSkill(section: string, skill: string, at: nat)
    | GroupOfRule(section: string, rule: string, at: nat)
    | AgentOfRule(section: string, rule: string, at: nat)
    | SkillOfGroup(group: nat, at: nat, section: string)
    | RuleOfGroup(group: nat, at: nat, section: string)
    | AgentOfNode(workflow: string, node: nat)
    | ScriptsOfNode(workflow: string, node: nat)
    | WorkflowOfNode(workflow: string, node: nat)
    | SubWorkflowOfNode(workflow: string, node: nat)
    | WorkflowOfSub(workflow: string, node: nat)
    | SubWorkflowOfSub(workflow: string, node: nat)

  predicate IsLink(k: Link) {
    match k
    case GroupOfSkill(section, _, _) => section == "skills" || section == "skill_configs"
    case SkillOfGroup(_, _, section) => section == "skills" || section == "skill_configs"
    case GroupOfRule(section, _, _) => section == "rules" || section == "rule_configs"
    case AgentOfRule(section, _, _) => section == "rules" || section == "rule_configs"
    case RuleOfGroup(_, _, section) => section == "rules" || section == "rule_configs"
    case _ => true
  }

  function TextIn(m: Option<map<string, Value>>, field: string): Option<string> {
    if m.Some? && field in m.value && m.value[field].Text? then Some(m.value[field].text) else None
  }

  function TextAt(m: Option<map<string, Value>>, field: string, at: nat): Option<string> {
    if m.Some? && field in m.value && m.value[field].List? && at < |m.value[field].items|
       && m.value[field].items[at].Text?
    then Some(m.value[field].items[at].text) else None
  }

  function DefinitionIn(doc: Doc, section: string, id: string): Option<map<string, Value>> {
    ObjectIn(Entries(Section(doc, section)), id)
  }

  function GroupIn(doc: Doc, group: nat): Option<map<string, Value>> {
    ItemAt(ListOf(doc, "groups"), group)
  }

  /** The id that a reference names. */
  function Named(docs: Docs, k: Link): Option<string> {
    match k
    case AgentPrompt(a) => TextIn(DefinitionIn(docs.agents, "agents", a), "prompt_template")
    case AgentSkillGroup(a, j) => TextAt(DefinitionIn(docs.agents, "agents", a), "visible_skill_group_ids", j)
    case AgentRuleGroup(a, j) => TextAt(DefinitionIn(docs.agents, "agents", a), "visible_rule_group_ids", j)
    case GroupOfSkill(section, s, j) => TextAt(DefinitionIn(docs.skills, section, s), "group_ids", j)
    case GroupOfRule(section, r, j) => TextAt(DefinitionIn(docs.rules, section, r), "group_ids", j)
    case AgentOfRule(section, r, j) => TextAt(DefinitionIn(docs.rules, section, r), "agent_types", j)
    case SkillOfGroup(g, j, _) => TextAt(GroupIn(docs.skills, g), "skill_ids", j)
    case RuleOfGroup(g, j, _) => TextAt(GroupIn(docs.rules, g), "rule_ids", j)
    case AgentOfNode(w, n) => TextIn(NodeAt(docs.workflows, w, n), "agent_type")
    case ScriptsOfNode(w, n) => TextIn(Part(NodeAt(docs.workflows, w, n), "node_params"), "script_group")
    case WorkflowOfNode(w, n) => TextIn(Part(NodeAt(docs.workflows, w, n), "node_params"), "workflow_id")
    case SubWorkflowOfNode(w, n) => TextIn(Part(NodeAt(docs.workflows, w, n), "node_params"), "sub_workflow_id")
    case WorkflowOfSub(w, n) => TextIn(Part(NodeAt(docs.workflows, w, n), "sub_workflow_params"), "workflow_id")
    case SubWorkflowOfSub(w, n) => TextIn(Part(NodeAt(docs.workflows, w, n), "sub_workflow_params"), "sub_workflow_id")
  }

  /** Where that id is looked up. */
  function Target(k: Link): Place {
    match k
    case AgentPrompt(_) => Prompts
    case AgentSkillGroup(_, _) => SkillGroups
    case AgentRuleGroup(_, _) => RuleGroups
    case GroupOfSkill(_, _, _) => SkillGroups
    case GroupOfRule(_, _, _) => RuleGroups
    case AgentOfRule(_, _, _) => Agents
    case SkillOfGroup(_, _, section) => Skills(section)
    case RuleOfGroup(_, _, section) => Rules(section)
    case AgentOfNode(_, _) => Agents
    case ScriptsOfNode(_, _) => Libraries
    case WorkflowOfNode(_, _) => Workflows
    case SubWorkflowOfNode(_, _) => Workflows
    case WorkflowOfSub(_, _) => Workflows
    case SubWorkflowOfSub(_, _) => Workflows
  }

  /** The same reference where its holder has moved to. */
  function Moved(p: Plan, k: Link): Link {
    match k
    case AgentPrompt(a) => AgentPrompt(NewId(p, "agent", a))
    case AgentSkillGroup(a, j) => AgentSkillGroup(NewId(p, "agent", a), j)
    case AgentRuleGroup(a, j) => AgentRuleGroup(NewId(p, "agent", a), j)
    case GroupOfSkill(section, s, j) => GroupOfSkill(section, NewId(p, "skill", s), j)
    case GroupOfRule(section, r, j) => GroupOfRule(section, NewId(p, "rule", r), j)
    case AgentOfRule(section, r, j) => AgentOfRule(section, NewId(p, "rule", r), j)
    case SkillOfGroup(_, _, _) => k
    case RuleOfGroup(_, _, _) => k
    case AgentOfNode(w, n) => AgentOfNode(NewId(p, "workflow", w), n)
    case ScriptsOfNode(w, n) => ScriptsOfNode(NewId(p, "workflow", w), n)
    case WorkflowOfNode(w, n) => WorkflowOfNode(NewId(p, "workflow", w), n)
    case SubWorkflowOfNode(w, n) => SubWorkflowOfNode(NewId(p, "workflow", w), n)
    case WorkflowOfSub(w, n) => WorkflowOfSub(NewId(p, "workflow", w), n)
    case SubWorkflowOfSub(w, n) => SubWorkflowOfSub(NewId(p, "workflow", w), n)
  }

  // ----- what rewriting may change in a definition -----

  /** Nothing but these fields differs. */
  ghost predicate SameBut(v: Value, w: Value, fields: set<string>) {
    || v == w
    || (v.Object? && w.Object?
        && forall f :: f !in fields ==>
             (f in v.entries <==> f in w.entries) && (f in v.entries ==> v.entries[f] == w.entries[f]))
  }

  function Rewritable(place: Place): set<string> {
    match place
    case Prompts => {}
    case Libraries => {}
    case Agents => {"prompt_template", "visible_skill_group_ids", "visible_rule_group_ids"}
    case Skills(_) => {"group_ids"}
    case Rules(_) => {"group_ids", "agent_types"}
    case SkillGroups => {"id", "skill_ids"}
    case RuleGroups => {"id", "rule_ids"}
    case Phrases => {"id"}
    case Workflows => {"workflow_id", "nodes"}
  }

  lemma FieldsSameBut(p: Plan, m: map<string, Value>, refs: seq<Ref>, fields: set<string>)
    requires RewriteFields(p, m, refs).Ok? && forall r :: r in refs ==> r.field in fields
    ensures SameBut(Object(m), Object(RewriteFields(p, m, refs).value), fields)
  {
    hide RewriteFields;
    forall f | f !in fields
      ensures var n := RewriteFields(p, m, refs).value; (f in n <==> f in m) && (f in m ==> n[f] == m[f])
    {
      OtherFieldsKept(p, m, refs, f);
    }
  }

  lemma DefinitionSameBut(p: Plan, v: Value, refs: seq<Ref>, fields: set<string>)
    requires RewriteDefinition(p, v, refs).Ok? && forall r :: r in refs ==> r.field in fields
    ensures SameBut(v, RewriteDefinition(p, v, refs).value, fields)
  {
    hide RewriteFields, SameBut;
    if v.Object? {
      FieldsSameBut(p, v.entries, refs, fields);
    } else {
      SameAsIs(v, fields);
    }
  }

  lemma SameAsIs(v: Value, fields: set<string>)
    ensures SameBut(v, v, fields)
  {
  }

  lemma ItemSameBut(p: Plan, kind: string, v: Value, refs: seq<Ref>, fields: set<string>)
    requires RewriteItem(p, kind, refs, v).Ok? && "id" in fields && forall r :: r in refs ==> r.field in fields
    ensures SameBut(v, RewriteItem(p, kind, refs, v).value, fields)
  {
    hide RewriteFields, Renamed;
    FieldsSameBut(p, v.entries["id" := Text(Renamed(p, kind, v.entries["id"].text).value)], refs, fields);
  }

  lemma TargetSameBut(p: Plan, place: Place, v: Value)
    requires RewriteTarget(p, place, v).Ok? && (place == Workflows ==> v.Object?)
    ensures SameBut(v, RewriteTarget(p, place, v).value, Rewritable(place))
  {
    hide RewriteDefinition, RewriteItem, Renamed, RewriteNodes, SameBut;
    match place
    case Prompts => SameAsIs(v, {});
    case Libraries => SameAsIs(v, {});
    case Agents => DefinitionSameBut(p, v, AGENT_REFS, Rewritable(place));
    case Skills(_) => DefinitionSameBut(p, v, SKILL_REFS, Rewritable(place));
    case Rules(_) => DefinitionSameBut(p, v, RULE_REFS, Rewritable(place));
    case SkillGroups => ItemSameBut(p, "skill_group", v, SKILL_GROUP_REFS, Rewritable(place));
    case RuleGroups => ItemSameBut(p, "rule_group", v, RULE_GROUP_REFS, Rewritable(place));
    case Phrases => ItemSameBut(p, "preset_phrase", v, [], Rewritable(place));
    case Workflows => WorkflowSameBut(p, v.entries);
  }

  lemma WorkflowSameBut(p: Plan, doc: Doc)
    requires RewriteWorkflow(p, doc).Ok?
    ensures SameBut(Object(doc), Object(RewriteWorkflow(p, doc).value), {"workflow_id", "nodes"})
  {
    hide RewriteNodes, Renamed;
  }

  // ----- links as references -----

  function HolderOf(k: Link): Holder {
    match k
    case AgentPrompt(a) => Agent(a)
    case AgentSkillGroup(a, _) => Agent(a)
    case AgentRuleGroup(a, _) => Agent(a)
    case GroupOfSkill(section, s, _) => Skill(section, s)
    case GroupOfRule(section, r, _) => Rule(section, r)
    case AgentOfRule(section, r, _) => Rule(section, r)
    case SkillOfGroup(g, _, _) => SkillGroup(g)
    case RuleOfGroup(g, _, _) => RuleGroup(g)
    case AgentOfNode(w, n) => Node(w, n)
    case ScriptsOfNode(w, n) => NodeParams(w, n)
    case WorkflowOfNode(w, n) => NodeParams(w, n)
    case SubWorkflowOfNode(w, n) => NodeParams(w, n)
    case WorkflowOfSub(w, n) => SubWorkflowParams(w, n)
    case SubWorkflowOfSub(w, n) => SubWorkflowParams(w, n)
  }

  /** The field of a link in the table that the rewriting follows. */
  function FieldOf(k: Link): nat {
    match k
    case AgentSkillGroup(_, _) => 1
    case AgentRuleGroup(_, _) => 2
    case AgentOfRule(_, _, _) => 1
    case WorkflowOfNode(_, _) => 1
    case SubWorkflowOfNode(_, _) => 2
    case SubWorkflowOfSub(_, _) => 1
    case _ => 0
  }

  function PositionOf(k: Link): nat {
    match k
    case AgentSkillGroup(_, j) => j
    case AgentRuleGroup(_, j) => j
    case GroupOfSkill(_, _, j) => j
    case GroupOfRule(_, _, j) => j
    case AgentOfRule(_, _, j) => j
    case SkillOfGroup(_, j, _) => j
    case RuleOfGroup(_, j, _) => j
    case _ => 0
  }

  function SiteOf(k: Link): Site {
    Site(HolderOf(k), FieldOf(k), PositionOf(k))
  }

  lemma LinkIsSite(docs: Docs, k: Link)
    requires IsLink(k)
    ensures IsSite(SiteOf(k)) && IsPlace(Target(k)) && KindOf(Target(k)) == SiteRef(SiteOf(k)).kind
    ensures Reference(docs, SiteOf(k)) == Named(docs, k)
  {
    hide Section, NodeAt, Part, ObjectIn, ItemAt, ListOf, Entries;
  }

  lemma MovedIsSite(p: Plan, k: Link)
    requires IsLink(k)
    ensures IsLink(Moved(p, k)) && SiteOf(Moved(p, k)) == MovedSite(p, SiteOf(k))
  {
    hide NewId;
  }

  /** Each reference of the plugin's documents that finds a definition finds, after rewriting, the same definition: at
      the same place, in nothing changed but its own id and its own references. */
  lemma EveryLinkHolds(p: Plan, files: seq<Docs>, i: nat, k: Link)
    requires Files.PlannedFiles(p, files) && Files.RewriteFiles(p, files).Ok? && i < |files| && IsLink(k)
    requires Named(files[i], k).Some? && Files.Find(files, Target(k), Named(files[i], k).value).Some?
    ensures |Files.RewriteFiles(p, files).value| == |files|
    ensures var after := Files.RewriteFiles(p, files).value;
            var before := Files.Find(files, Target(k), Named(files[i], k).value).value;
            && Named(after[i], Moved(p, k)).Some?
            && var found := Files.Find(after, Target(k), Named(after[i], Moved(p, k)).value);
               found.Some? && SameBut(before, found.value, Rewritable(Target(k)))
  {
    hide PlannedDocs, Files.ToldApart, Plan.Valid, Files.RewriteFiles, Files.Find, Named, Reference, SameBut,
         RewriteTarget, Renamed, Follows, KindOf, Rewritable, Target, Moved, MovedSite, SiteRef, IsPlace, SiteOf;
    LinkIsSite(files[i], k);
    MovedIsSite(p, k);
    var ref := Named(files[i], k).value;
    Files.EveryReferenceKeepsItsTarget(p, files, i, SiteOf(k), Target(k));
    FoundIsDefined(files, Target(k), ref);
    FoundIsRewritten(p, files, Target(k), ref);
    LinkIsSite(Files.RewriteFiles(p, files).value[i], Moved(p, k));
    TargetSameBut(p, Target(k), Files.Find(files, Target(k), ref).value);
  }

  lemma FoundIsDefined(files: seq<Docs>, place: Place, id: string)
    requires Files.Find(files, place, id).Some?
    ensures Files.Defines(files, place, id)
  {
  }

  /** What is found among the files is among what is rewritten. */
  lemma FoundIsRewritten(p: Plan, files: seq<Docs>, place: Place, id: string)
    requires Files.PlannedFiles(p, files) && Files.RewriteFiles(p, files).Ok? && IsPlace(place)
    requires Files.Find(files, place, id).Some?
    ensures RewriteTarget(p, place, Files.Find(files, place, id).value).Ok?
    ensures place == Workflows ==> Files.Find(files, place, id).value.Object?
  {
    hide Files.RewriteFiles, Files.AllTable, Files.AllItems, PlannedDocs, RewriteTarget, Renamed, KindOf, Plan.Valid,
         Files.EachRewritten, IsPlace;
    var after := Files.RewriteFiles(p, files).value;
    Files.EveryFileRewritten(p, files, place);
    assert Files.ToldApart(p, files, place);
    if place.IsList() {
      Files.AllItemsRewritten(p, files, after, place);
    } else {
      Files.AllTableRewritten(p, files, after, place);
      if place == Workflows {
        WorkflowsAreObjects(files, id);
      }
    }
  }

  lemma {:induction false} WorkflowsAreObjects(files: seq<Docs>, id: string)
    requires id in Files.AllTable(files, Workflows)
    ensures Files.AllTable(files, Workflows)[id].Object?
    decreases |files|
  {
    if id !in Table(files[|files| - 1], Workflows) {
      WorkflowsAreObjects(files[..|files| - 1], id);
    }
  }
}
