/**
 Rewriting the documents of a plugin: wherever resources are defined, each definition is found under its new id, and
 wherever a document refers to one, the reference is rewritten.  `ResourceFiles` looks the one up in the other.
 */
module ResourceReferences {
  import opened Json
  import opened Outcomes
  import opened ResourceIds
  import opened ResourceRewrite

  /** One document of each type; workflows and script libraries are directories, by name. */
  datatype Docs = Docs(agents: Doc, prompts: Doc, skills: Doc, rules: Doc, phrases: Doc,
                       workflows: map<string, Doc>, libraries: map<string, Value>)

  const SKILL_SECTIONS := ["skills", "skill_configs"]
  const RULE_SECTIONS := ["rules", "rule_configs"]

  // ----- what references find -----

  /** Where the resources of a kind are defined. */
  datatype Place =
    | Prompts | Agents | Workflows | Libraries
    | Skills(section: string) | Rules(section: string)
    | SkillGroups | RuleGroups | Phrases
  {
    /** Groups and phrases are listed; the others are kept by id. */
    predicate IsList() {
      SkillGroups? || RuleGroups? || Phrases?
    }
  }

  predicate IsPlace(place: Place) {
    match place
    case Skills(s) => s in SKILL_SECTIONS
    case Rules(s) => s in RULE_SECTIONS
    case _ => true
  }

  function KindOf(place: Place): string {
    match place
    case Prompts => "prompt"
    case Agents => "agent"
    case Workflows => "workflow"
    case Libraries => "script_library"
    case Skills(_) => "skill"
    case Rules(_) => "rule"
    case SkillGroups => "skill_group"
    case RuleGroups => "rule_group"
    case Phrases => "preset_phrase"
  }

  function Entries(v: Value): map<string, Value> {
    if v.Object? then v.entries else map[]
  }

  function ListOf(doc: Doc, name: string): seq<Value> {
    var v := GetOr(doc, name, List([]));
    if v.List? then v.items else []
  }

  function Groups(doc: Doc): seq<Value> {
    ListOf(doc, "groups")
  }

  /** The definitions of a place by id, for every place that is not a list. */
  function Table(docs: Docs, place: Place): map<string, Value> {
    match place
    case Prompts => Entries(Section(docs.prompts, "agents"))
    case Agents => Entries(Section(docs.agents, "agents"))
    case Workflows => map w | w in docs.workflows :: Object(docs.workflows[w])
    case Libraries => docs.libraries
    case Skills(s) => Entries(Section(docs.skills, s))
    case Rules(s) => Entries(Section(docs.rules, s))
    case _ => map[]
  }

  function Items(docs: Docs, place: Place): seq<Value> {
    match place
    case SkillGroups => Groups(docs.skills)
    case RuleGroups => Groups(docs.rules)
    case Phrases => ListOf(docs.phrases, "phrases")
    case _ => []
  }

  predicate IsItem(v: Value, id: string) {
    v.Object? && "id" in v.entries && v.entries["id"] == Text(id)
  }

  /** The first item of a list with an id. */
  function FindItem(items: seq<Value>, id: string): (r: Option<Value>)
    ensures r.Some? ==> r.value in items && IsItem(r.value, id)
    ensures r.None? ==> forall v :: v in items ==> !IsItem(v, id)
  {
    if items == [] then None
    else if IsItem(items[0], id) then Some(items[0])
    else FindItem(items[1..], id)
  }

  /** The rewriting of a definition. */
  function RewriteTarget(p: Plan, place: Place, v: Value): Outcome<Value> {
    match place
    case Prompts => Ok(v)
    case Libraries => Ok(v)
    case Agents => RewriteDefinition(p, v, AGENT_REFS)
    case Skills(_) => RewriteDefinition(p, v, SKILL_REFS)
    case Rules(_) => RewriteDefinition(p, v, RULE_REFS)
    case SkillGroups => RewriteItem(p, "skill_group", SKILL_GROUP_REFS, v)
    case RuleGroups => RewriteItem(p, "rule_group", RULE_GROUP_REFS, v)
    case Phrases => RewriteItem(p, "preset_phrase", [], v)
    case Workflows =>
      var doc :- RewriteWorkflow(p, Entries(v));
      Ok(Object(doc))
  }

  // ----- rewriting all documents -----

  ghost predicate SeparatesItems(p: Plan, kind: string, items: seq<Value>) {
    forall v, w, a, b ::
      (v in items && w in items && IsItem(v, a) && IsItem(w, b)
       && Renamed(p, kind, a).Ok? && Renamed(p, kind, a) == Renamed(p, kind, b)) ==> a == b
  }

  /** The plan tells the ids of every kind apart, as a plan built from these documents does. */
  ghost predicate PlannedDocs(p: Plan, docs: Docs) {
    && p.Valid()
    && Planned(p, docs.agents, ["agents"], "agent") && Planned(p, docs.prompts, ["agents"], "prompt")
    && Planned(p, docs.skills, SKILL_SECTIONS, "skill") && Planned(p, docs.rules, RULE_SECTIONS, "rule")
    && SeparatesItems(p, "skill_group", Groups(docs.skills)) && SeparatesItems(p, "rule_group", Groups(docs.rules))
    && SeparatesItems(p, "preset_phrase", ListOf(docs.phrases, "phrases"))
    && Separates(p, "workflow", docs.workflows.Keys) && Separates(p, "script_library", docs.libraries.Keys)
  }

  lemma PlannedParts(p: Plan, docs: Docs)
    requires p.Valid()
    requires forall place :: IsPlace(place) ==>
               if place.IsList() then SeparatesItems(p, KindOf(place), Items(docs, place))
               else Separates(p, KindOf(place), Table(docs, place).Keys)
    ensures PlannedDocs(p, docs)
  {
    hide Plan.Valid, Separates, SeparatesItems, Planned, Section, Entries, ListOf;
    assert IsPlace(Agents) && IsPlace(Prompts) && IsPlace(Workflows) && IsPlace(Libraries);
    assert IsPlace(SkillGroups) && IsPlace(RuleGroups) && IsPlace(Phrases);
    assert Table(docs, Workflows).Keys == docs.workflows.Keys;
    PlannedFrom(p, docs.agents, ["agents"], "agent");
    PlannedFrom(p, docs.prompts, ["agents"], "prompt");
    forall s | s in SKILL_SECTIONS
      ensures Separates(p, "skill", Entries(Section(docs.skills, s)).Keys)
    {
      assert IsPlace(Skills(s));
    }
    PlannedFrom(p, docs.skills, SKILL_SECTIONS, "skill");
    forall s | s in RULE_SECTIONS
      ensures Separates(p, "rule", Entries(Section(docs.rules, s)).Keys)
    {
      assert IsPlace(Rules(s));
    }
    PlannedFrom(p, docs.rules, RULE_SECTIONS, "rule");
  }

  lemma PlannedFrom(p: Plan, doc: Doc, sections: seq<string>, kind: string)
    requires forall s :: s in sections ==> Separates(p, kind, Entries(Section(doc, s)).Keys)
    ensures Planned(p, doc, sections, kind)
  {
    hide Separates;
  }

  ghost function RewriteWorkflows(p: Plan, ws: map<string, Doc>): Outcome<map<string, Doc>>
    requires Separates(p, "workflow", ws.Keys)
  {
    if exists w :: w in ws && (Renamed(p, "workflow", w).Raised? || RewriteWorkflow(p, ws[w]).Raised?) then Raised
    else Ok(map w | w in ws :: Renamed(p, "workflow", w).value := RewriteWorkflow(p, ws[w]).value)
  }

  /** The projection of a plugin's resources: documents rewritten, directories renamed. */
  ghost function RewriteDocs(p: Plan, docs: Docs): Outcome<Docs>
    requires PlannedDocs(p, docs)
  {
    var agents :- RewriteAgents(p, docs.agents);
    var prompts :- RewritePrompts(p, docs.prompts);
    var skills :- RewriteSkills(p, docs.skills);
    var rules :- RewriteRules(p, docs.rules);
    var phrases :- RewritePhrases(p, docs.phrases);
    var workflows :- RewriteWorkflows(p, docs.workflows);
    var libraries :- RewriteIdMapping(p, "script_library", Object(docs.libraries));
    Ok(Docs(agents, prompts, skills, rules, phrases, workflows, libraries))
  }

  // ----- tables and lists, rewritten -----

  /** Every definition is found under its new id, rewritten, and there are no others. */
  ghost predicate TableRewritten(p: Plan, place: Place, before: map<string, Value>, after: map<string, Value>) {
    && (forall k :: k in before ==>
          && Renamed(p, KindOf(place), k).Ok? && Renamed(p, KindOf(place), k).value in after
          && RewriteTarget(p, place, before[k]) == Ok(after[Renamed(p, KindOf(place), k).value]))
    && (forall e :: e in after ==> exists k :: k in before && Renamed(p, KindOf(place), k) == Ok(e))
  }

  ghost predicate ItemsRewritten(p: Plan, place: Place, before: seq<Value>, after: seq<Value>) {
    |after| == |before| && forall i :: 0 <= i < |before| ==> RewriteTarget(p, place, before[i]) == Ok(after[i])
  }

  lemma SectionTable(p: Plan, doc: Doc, name: string, place: Place, refs: seq<Ref>)
    requires Planned(p, doc, [name], KindOf(place)) && RewriteSection(p, doc, name, KindOf(place), refs).Ok?
    requires forall v :: RewriteTarget(p, place, v) == RewriteDefinition(p, v, refs)
    ensures var after := RewriteSection(p, doc, name, KindOf(place), refs).value;
            && TableRewritten(p, place, Entries(Section(doc, name)), Entries(Section(after, name)))
            && Section(doc, name).Object? && Section(after, name).Object?
            && forall f :: f != name ==> GetOr(after, f, Null) == GetOr(doc, f, Null) && (f in after <==> f in doc)
  {
    hide Renamed, RewriteDefinition, Separates, RewriteTarget, RewriteIdMapping;
    assert name in [name];
    var kind := KindOf(place);
    var v := Section(doc, name);
    MappingNeedsObject(p, kind, v);
    RenamedKeys(p, kind, v);
    DefinitionsKept(p, kind, v);
    var renamed := RewriteIdMapping(p, kind, v).value;
    forall k | k in v.entries
      ensures RewriteTarget(p, place, v.entries[k])
              == Ok(Section(RewriteSection(p, doc, name, kind, refs).value, name).entries[Renamed(p, kind, k).value])
    {
      var e := Renamed(p, kind, k).value;
      assert RewriteDefinition(p, renamed[e], refs).Ok?;
      assert RewriteTarget(p, place, v.entries[k]) == RewriteDefinition(p, v.entries[k], refs);
    }
  }

  lemma MappingNeedsObject(p: Plan, kind: string, v: Value)
    requires v.Object? ==> Separates(p, kind, v.entries.Keys)
    requires RewriteIdMapping(p, kind, v).Ok?
    ensures v.Object?
  {
  }

  lemma {:induction false} ItemsAll(p: Plan, kind: string, refs: seq<Ref>, items: seq<Value>)
    requires RewriteItems(p, kind, refs, items).Ok?
    ensures |RewriteItems(p, kind, refs, items).value| == |items|
    ensures forall i :: 0 <= i < |items| ==>
              RewriteItem(p, kind, refs, items[i]) == Ok(RewriteItems(p, kind, refs, items).value[i])
    decreases |items|
  {
    hide RewriteItem;
    if items != [] {
      ItemsAll(p, kind, refs, items[..|items| - 1]);
    }
  }

  /** The groups are rewritten one by one, and nothing else is. */
  lemma GroupsRewritten(p: Plan, doc: Doc, kind: string, refs: seq<Ref>)
    requires RewriteGroups(p, doc, kind, refs).Ok?
    ensures |Groups(RewriteGroups(p, doc, kind, refs).value)| == |Groups(doc)|
    ensures forall i :: 0 <= i < |Groups(doc)| ==>
              RewriteItem(p, kind, refs, Groups(doc)[i]) == Ok(Groups(RewriteGroups(p, doc, kind, refs).value)[i])
    ensures forall f :: f != "groups" ==> Section(RewriteGroups(p, doc, kind, refs).value, f) == Section(doc, f)
  {
    hide RewriteItem, RewriteItems;
    var v := GetOr(doc, "groups", List([]));
    if v.List? {
      ItemsAll(p, kind, refs, v.items);
    }
  }

  // ----- a rewritten reference, looked up -----

  function MovedTarget(p: Plan, place: Place, found: Option<Value>): Option<Value> {
    match found
    case None => None
    case Some(v) => match RewriteTarget(p, place, v) case Ok(w) => Some(w) case Raised => None
  }

  /** The text a reference is rewritten to. */
  function MovedRef(p: Plan, kind: string, ref: string): string {
    match ResolveIn(p, kind, ref) case Found(e) => if ref == "" then ref else e case _ => ref
  }

  lemma MovedRefIs(p: Plan, kind: string, ref: string)
    requires MaybeResolve(p, kind, Text(ref)).Ok?
    ensures MaybeResolve(p, kind, Text(ref)) == Ok(Text(MovedRef(p, kind, ref)))
  {
  }

  function LookUp(m: map<string, Value>, id: string): Option<Value> {
    if id in m then Some(m[id]) else None
  }

  lemma TableFollows(p: Plan, place: Place, before: map<string, Value>, after: map<string, Value>, ref: string)
    requires p.Valid() && TableRewritten(p, place, before, after) && MaybeResolve(p, KindOf(place), Text(ref)).Ok?
    ensures forall k :: k in before ==> Renamed(p, KindOf(place), k).Ok?
    ensures LookUp(after, MovedRef(p, KindOf(place), ref)) == MovedTarget(p, place, LookUp(before, ref))
            <==> ref in before || forall k :: k in before ==> !Follows(p, KindOf(place), ref, k)
  {
    hide Plan.Valid, Renamed, MaybeResolve, RewriteTarget, Follows, MovedRef;
    var kind := KindOf(place);
    var moved := MovedRef(p, kind, ref);
    MovedRefIs(p, kind, ref);
    forall k | k in before
      ensures moved == Renamed(p, kind, k).value <==> Follows(p, kind, ref, k)
    {
      FollowsIs(p, kind, ref, k);
    }
    if ref in before {
      FollowsItself(p, kind, ref);
    }
  }

  lemma FollowsIs(p: Plan, kind: string, ref: string, k: string)
    requires p.Valid() && Renamed(p, kind, k).Ok? && MaybeResolve(p, kind, Text(ref)).Ok?
    ensures MovedRef(p, kind, ref) == Renamed(p, kind, k).value <==> Follows(p, kind, ref, k)
  {
    hide Plan.Valid, Renamed, MovedRef;
    MovedRefIs(p, kind, ref);
    ReferenceFollows(p, kind, ref, k);
  }

  lemma FollowsItself(p: Plan, kind: string, ref: string)
    requires Renamed(p, kind, ref).Ok?
    ensures Follows(p, kind, ref, ref)
  {
  }

  /** A rewritten item carries the new id of the old one. */
  lemma ItemRenamed(p: Plan, place: Place, v: Value)
    requires place.IsList() && RewriteTarget(p, place, v).Ok?
    ensures v.Object? && "id" in v.entries && v.entries["id"].Text?
            && Renamed(p, KindOf(place), v.entries["id"].text).Ok?
    ensures IsItem(RewriteTarget(p, place, v).value, Renamed(p, KindOf(place), v.entries["id"].text).value)
  {
    hide Renamed;
    var refs := if place.SkillGroups? then SKILL_GROUP_REFS else if place.RuleGroups? then RULE_GROUP_REFS else [];
    OtherFieldsKept(p, v.entries["id" := Text(Renamed(p, KindOf(place), v.entries["id"].text).value)], refs, "id");
  }

  /** No item of a list is lost, and two items share a new id exactly when they shared an old one. */
  lemma ItemsKept(p: Plan, place: Place, before: seq<Value>, after: seq<Value>, i: nat, j: nat)
    requires place.IsList() && ItemsRewritten(p, place, before, after)
    requires SeparatesItems(p, KindOf(place), before) && i < |before| && j < |before|
    ensures |after| == |before|
    ensures before[i].Object? && before[j].Object? && after[i].Object? && after[j].Object?
    ensures "id" in before[i].entries && "id" in before[j].entries && "id" in after[i].entries
            && "id" in after[j].entries
    ensures after[i].entries["id"] == after[j].entries["id"] <==> before[i].entries["id"] == before[j].entries["id"]
  {
    hide RewriteTarget, Renamed;
    ItemRenamed(p, place, before[i]);
    ItemRenamed(p, place, before[j]);
    var a, b := before[i].entries["id"].text, before[j].entries["id"].text;
    assert IsItem(before[i], a) && IsItem(before[j], b);
  }

  /** Among the ids of a list, only one is renamed to `e`. */
  ghost predicate OnlyOne(p: Plan, kind: string, items: seq<Value>, e: string, id: string) {
    forall v, a :: v in items && IsItem(v, a) && Renamed(p, kind, a) == Ok(e) ==> a == id
  }

  lemma OnlyOneTail(p: Plan, kind: string, items: seq<Value>, e: string, id: string)
    requires OnlyOne(p, kind, items, e, id) && items != []
    ensures OnlyOne(p, kind, items[1..], e, id)
  {
    hide Renamed, IsItem;
    assert forall v :: v in items[1..] ==> v in items;
  }

  lemma HeadItem(p: Plan, place: Place, before: seq<Value>, after: seq<Value>, e: string, id: string)
    requires place.IsList() && ItemsRewritten(p, place, before, after) && before != []
    requires OnlyOne(p, KindOf(place), before, e, id) && Renamed(p, KindOf(place), id) == Ok(e)
    ensures ItemsRewritten(p, place, before[1..], after[1..])
    ensures RewriteTarget(p, place, before[0]) == Ok(after[0])
    ensures IsItem(after[0], e) <==> IsItem(before[0], id)
  {
    hide RewriteTarget, Renamed;
    ItemRenamed(p, place, before[0]);
    assert IsItem(before[0], before[0].entries["id"].text) && before[0] in before;
  }

  lemma {:induction false} ItemFound(p: Plan, place: Place, before: seq<Value>, after: seq<Value>, e: string,
                                     id: string)
    requires place.IsList() && ItemsRewritten(p, place, before, after)
    requires OnlyOne(p, KindOf(place), before, e, id) && Renamed(p, KindOf(place), id) == Ok(e)
    ensures FindItem(after, e) == MovedTarget(p, place, FindItem(before, id))
    decreases |before|
  {
    hide RewriteTarget, Renamed, IsItem, OnlyOne;
    if before != [] {
      HeadItem(p, place, before, after, e, id);
      OnlyOneTail(p, KindOf(place), before, e, id);
      ItemFound(p, place, before[1..], after[1..], e, id);
    }
  }

  lemma DefinedItemFound(p: Plan, place: Place, before: seq<Value>, after: seq<Value>, ref: string)
    requires place.IsList() && ItemsRewritten(p, place, before, after)
    requires SeparatesItems(p, KindOf(place), before) && (exists v :: v in before && IsItem(v, ref))
    ensures Renamed(p, KindOf(place), ref).Ok?
    ensures FindItem(after, Renamed(p, KindOf(place), ref).value) == MovedTarget(p, place, FindItem(before, ref))
  {
    hide RewriteTarget, Renamed, IsItem, FindItem, MovedTarget;
    ItemIds(p, place, before, after);
    ItemFound(p, place, before, after, Renamed(p, KindOf(place), ref).value, ref);
  }

  /** Every item has an id that the plan renames, and is found by its new id. */
  lemma ItemIds(p: Plan, place: Place, before: seq<Value>, after: seq<Value>)
    requires place.IsList() && ItemsRewritten(p, place, before, after)
    ensures forall v, k :: v in before && IsItem(v, k) ==> Renamed(p, KindOf(place), k).Ok?
    ensures forall w, e :: w in after && IsItem(w, e) ==>
              exists v, k :: v in before && IsItem(v, k) && Renamed(p, KindOf(place), k) == Ok(e)
    ensures forall v, k :: v in before && IsItem(v, k) ==>
              exists w :: w in after && IsItem(w, Renamed(p, KindOf(place), k).value)
  {
    hide RewriteTarget, Renamed;
    forall v, k | v in before && IsItem(v, k)
      ensures Renamed(p, KindOf(place), k).Ok?
      ensures exists w :: w in after && IsItem(w, Renamed(p, KindOf(place), k).value)
    {
      var i :| 0 <= i < |before| && before[i] == v;
      ItemRenamed(p, place, v);
      assert after[i] in after;
    }
    forall w, e | w in after && IsItem(w, e)
      ensures exists v, k :: v in before && IsItem(v, k) && Renamed(p, KindOf(place), k) == Ok(e)
    {
      var i :| 0 <= i < |after| && after[i] == w;
      ItemRenamed(p, place, before[i]);
      assert IsItem(before[i], before[i].entries["id"].text);
    }
  }

  lemma ItemsFollow(p: Plan, place: Place, before: seq<Value>, after: seq<Value>, ref: string)
    requires p.Valid() && place.IsList() && ItemsRewritten(p, place, before, after)
    requires SeparatesItems(p, KindOf(place), before) && MaybeResolve(p, KindOf(place), Text(ref)).Ok?
    ensures forall v, k :: v in before && IsItem(v, k) ==> Renamed(p, KindOf(place), k).Ok?
    ensures FindItem(after, MovedRef(p, KindOf(place), ref)) == MovedTarget(p, place, FindItem(before, ref))
            <==> || (exists v :: v in before && IsItem(v, ref))
                 || forall v, k :: v in before && IsItem(v, k) ==> !Follows(p, KindOf(place), ref, k)
  {
    hide Plan.Valid, Renamed, MaybeResolve, RewriteTarget, Follows, MovedRef, ItemsRewritten, SeparatesItems;
    var kind := KindOf(place);
    var moved := MovedRef(p, kind, ref);
    MovedRefIs(p, kind, ref);
    ItemIds(p, place, before, after);
    forall v, k | v in before && IsItem(v, k)
      ensures moved == Renamed(p, kind, k).value <==> Follows(p, kind, ref, k)
    {
      FollowsIs(p, kind, ref, k);
    }
    if exists v :: v in before && IsItem(v, ref) {
      FollowsItself(p, kind, ref);
      DefinedItemFound(p, place, before, after, ref);
    }
  }

  // ----- every place, rewritten -----

  /** What is defined at a place before and after. */
  ghost predicate PlaceRewritten(p: Plan, docs: Docs, after: Docs, place: Place) {
    if place.IsList()
    then ItemsRewritten(p, place, Items(docs, place), Items(after, place))
    else TableRewritten(p, place, Table(docs, place), Table(after, place))
  }

  lemma GroupedPlaces(p: Plan, doc: Doc, sections: seq<string>, first: Place, second: Place, refs: seq<Ref>,
                      groups: Place, groupRefs: seq<Ref>)
    requires |sections| == 2 && sections[0] != sections[1] && "groups" !in sections
    requires KindOf(first) == KindOf(second) && groups.IsList()
    requires forall v :: RewriteTarget(p, first, v) == RewriteDefinition(p, v, refs)
    requires forall v :: RewriteTarget(p, second, v) == RewriteDefinition(p, v, refs)
    requires forall v :: RewriteTarget(p, groups, v) == RewriteItem(p, KindOf(groups), groupRefs, v)
    requires Planned(p, doc, sections, KindOf(first))
    requires RewriteGrouped(p, doc, sections, KindOf(first), refs, KindOf(groups), groupRefs).Ok?
    ensures var after := RewriteGrouped(p, doc, sections, KindOf(first), refs, KindOf(groups), groupRefs).value;
            && TableRewritten(p, first, Entries(Section(doc, sections[0])), Entries(Section(after, sections[0])))
            && TableRewritten(p, second, Entries(Section(doc, sections[1])), Entries(Section(after, sections[1])))
            && ItemsRewritten(p, groups, Groups(doc), Groups(after))
  {
    hide TableRewritten, ItemsRewritten, RewriteSection, RewriteGroups, RewriteTarget, RewriteDefinition, RewriteItem,
         Separates;
    assert sections[0] in sections && sections[1] in sections;
    var kind := KindOf(first);
    SectionTable(p, doc, sections[0], first, refs);
    var one := RewriteSection(p, doc, sections[0], kind, refs).value;
    assert Section(one, sections[1]) == Section(doc, sections[1]) by { SectionSame(doc, one, sections[1]); }
    SectionTable(p, one, sections[1], second, refs);
    var two := RewriteSection(p, one, sections[1], kind, refs).value;
    SectionSame(one, two, sections[0]);
    GroupsSame(doc, one);
    GroupsSame(one, two);
    GroupsRewritten(p, two, KindOf(groups), groupRefs);
    GroupsAreItems(p, groups, groupRefs, Groups(two), Groups(RewriteGroups(p, two, KindOf(groups), groupRefs).value));
  }

  lemma GroupsAreItems(p: Plan, groups: Place, refs: seq<Ref>, before: seq<Value>, after: seq<Value>)
    requires forall v :: RewriteTarget(p, groups, v) == RewriteItem(p, KindOf(groups), refs, v)
    requires |after| == |before| && forall i :: 0 <= i < |before| ==>
               RewriteItem(p, KindOf(groups), refs, before[i]) == Ok(after[i])
    ensures ItemsRewritten(p, groups, before, after)
  {
    hide RewriteItem, RewriteTarget;
  }

  lemma SectionSame(a: Doc, b: Doc, name: string)
    requires GetOr(b, name, Null) == GetOr(a, name, Null) && (name in b <==> name in a)
    ensures Section(b, name) == Section(a, name)
  {
  }

  lemma GroupsSame(a: Doc, b: Doc)
    requires GetOr(b, "groups", Null) == GetOr(a, "groups", Null) && ("groups" in b <==> "groups" in a)
    ensures Groups(b) == Groups(a)
  {
  }

  lemma SkillPlaces(p: Plan, docs: Docs, after: Docs)
    requires Planned(p, docs.skills, SKILL_SECTIONS, "skill") && RewriteSkills(p, docs.skills) == Ok(after.skills)
    ensures PlaceRewritten(p, docs, after, Skills("skills")) && PlaceRewritten(p, docs, after, Skills("skill_configs"))
    ensures PlaceRewritten(p, docs, after, SkillGroups)
  {
    hide TableRewritten, ItemsRewritten, RewriteGrouped, RewriteDefinition, RewriteItem, Separates, SeparatesItems,
         Plan.Valid;
    GroupedPlaces(p, docs.skills, SKILL_SECTIONS, Skills("skills"), Skills("skill_configs"), SKILL_REFS, SkillGroups,
                  SKILL_GROUP_REFS);
  }

  lemma RulePlaces(p: Plan, docs: Docs, after: Docs)
    requires Planned(p, docs.rules, RULE_SECTIONS, "rule") && RewriteRules(p, docs.rules) == Ok(after.rules)
    ensures PlaceRewritten(p, docs, after, Rules("rules")) && PlaceRewritten(p, docs, after, Rules("rule_configs"))
    ensures PlaceRewritten(p, docs, after, RuleGroups)
  {
    hide TableRewritten, ItemsRewritten, RewriteGrouped, RewriteDefinition, RewriteItem, Separates, SeparatesItems,
         Plan.Valid;
    GroupedPlaces(p, docs.rules, RULE_SECTIONS, Rules("rules"), Rules("rule_configs"), RULE_REFS, RuleGroups,
                  RULE_GROUP_REFS);
  }

  lemma {:induction false} NoRefsNoChange(p: Plan, v: Value)
    ensures RewriteDefinition(p, v, []) == Ok(v)
  {
  }

  lemma AgentPlaces(p: Plan, docs: Docs, after: Docs)
    requires Planned(p, docs.agents, ["agents"], "agent") && Planned(p, docs.prompts, ["agents"], "prompt")
    requires RewriteAgents(p, docs.agents) == Ok(after.agents) && RewritePrompts(p, docs.prompts) == Ok(after.prompts)
    ensures PlaceRewritten(p, docs, after, Agents) && PlaceRewritten(p, docs, after, Prompts)
  {
    hide TableRewritten, RewriteSection, RewriteDefinition, Separates, SeparatesItems, Plan.Valid;
    SectionTable(p, docs.agents, "agents", Agents, AGENT_REFS);
    forall v
      ensures RewriteTarget(p, Prompts, v) == RewriteDefinition(p, v, [])
    {
      NoRefsNoChange(p, v);
    }
    SectionTable(p, docs.prompts, "agents", Prompts, []);
  }

  lemma WorkflowPlace(p: Plan, docs: Docs, after: Docs)
    requires Separates(p, "workflow", docs.workflows.Keys) && RewriteWorkflows(p, docs.workflows) == Ok(after.workflows)
    ensures PlaceRewritten(p, docs, after, Workflows)
  {
    hide RewriteWorkflow, Renamed, Separates, RewriteWorkflows;
    WorkflowsRenamed(p, docs.workflows, after.workflows);
    var before, now := Table(docs, Workflows), Table(after, Workflows);
    forall w | w in before
      ensures Renamed(p, "workflow", w).Ok? && Renamed(p, "workflow", w).value in now
      ensures RewriteTarget(p, Workflows, before[w]) == Ok(now[Renamed(p, "workflow", w).value])
    {
      assert RewriteWorkflow(p, docs.workflows[w]) == Ok(after.workflows[Renamed(p, "workflow", w).value]);
      assert Entries(before[w]) == docs.workflows[w];
    }
  }

  lemma PhrasePlace(p: Plan, docs: Docs, after: Docs)
    requires RewritePhrases(p, docs.phrases) == Ok(after.phrases)
    ensures PlaceRewritten(p, docs, after, Phrases)
  {
    hide RewriteItem, RewriteItems;
    ItemsAll(p, "preset_phrase", [], ListOf(docs.phrases, "phrases"));
  }

  lemma LibraryPlace(p: Plan, docs: Docs, after: Docs)
    requires Separates(p, "script_library", docs.libraries.Keys)
    requires RewriteIdMapping(p, "script_library", Object(docs.libraries)) == Ok(after.libraries)
    ensures PlaceRewritten(p, docs, after, Libraries)
  {
    hide Renamed, Separates, RewriteIdMapping;
    RenamedKeys(p, "script_library", Object(docs.libraries));
    DefinitionsKept(p, "script_library", Object(docs.libraries));
  }

  lemma WorkflowsRenamed(p: Plan, before: map<string, Doc>, after: map<string, Doc>)
    requires Separates(p, "workflow", before.Keys) && RewriteWorkflows(p, before) == Ok(after)
    ensures forall w :: w in before ==>
              && Renamed(p, "workflow", w).Ok? && Renamed(p, "workflow", w).value in after
              && RewriteWorkflow(p, before[w]) == Ok(after[Renamed(p, "workflow", w).value])
    ensures forall e :: e in after ==> exists w :: w in before && Renamed(p, "workflow", w) == Ok(e)
  {
    hide RewriteWorkflow, Renamed;
  }

  lemma EveryPlaceRewritten(p: Plan, docs: Docs, place: Place)
    requires PlannedDocs(p, docs) && RewriteDocs(p, docs).Ok? && IsPlace(place)
    ensures PlaceRewritten(p, docs, RewriteDocs(p, docs).value, place)
  {
    hide RewriteAgents, RewritePrompts, RewriteSkills, RewriteRules, RewritePhrases, RewriteWorkflows,
         RewriteIdMapping, PlaceRewritten, Separates, SeparatesItems, Plan.Valid, Planned;
    var after := RewriteDocs(p, docs).value;
    match place
    case Prompts => AgentPlaces(p, docs, after);
    case Agents => AgentPlaces(p, docs, after);
    case Workflows => WorkflowPlace(p, docs, after);
    case Libraries => LibraryPlace(p, docs, after);
    case Skills(s) => SkillPlaces(p, docs, after);
    case Rules(s) => RulePlaces(p, docs, after);
    case SkillGroups => SkillPlaces(p, docs, after);
    case RuleGroups => RulePlaces(p, docs, after);
    case Phrases => PhrasePlace(p, docs, after);
  }

  // ----- where references stand -----

  /** A part of a document that holds reference fields. */
  datatype Holder =
    | Agent(agent: string)
    | Skill(section: string, skill: string)
    | Rule(section: string, rule: string)
    | SkillGroup(index: nat)
    | RuleGroup(index: nat)
    | Node(workflow: string, index: nat)
    | NodeParams(workflow: string, index: nat)
    | SubWorkflowParams(workflow: string, index: nat)

  predicate IsHolder(h: Holder) {
    match h
    case Skill(s, _) => s in SKILL_SECTIONS
    case Rule(s, _) => s in RULE_SECTIONS
    case _ => true
  }

  function RefsOf(h: Holder): seq<Ref> {
    match h
    case Agent(_) => AGENT_REFS
    case Skill(_, _) => SKILL_REFS
    case Rule(_, _) => RULE_REFS
    case SkillGroup(_) => SKILL_GROUP_REFS
    case RuleGroup(_) => RULE_GROUP_REFS
    case Node(_, _) => NODE_REFS
    case NodeParams(_, _) => NODE_PARAM_REFS
    case SubWorkflowParams(_, _) => SUB_WORKFLOW_REFS
  }

  function ObjectIn(m: map<string, Value>, k: string): Option<map<string, Value>> {
    if k in m && m[k].Object? then Some(m[k].entries) else None
  }

  function ItemAt(items: seq<Value>, i: nat): Option<map<string, Value>> {
    if i < |items| && items[i].Object? then Some(items[i].entries) else None
  }

  function NodeAt(ws: map<string, Doc>, w: string, i: nat): Option<map<string, Value>> {
    if w !in ws || !GetOr(ws[w], "nodes", List([])).List? then None
    else ItemAt(GetOr(ws[w], "nodes", List([])).items, i)
  }

  function Part(m: Option<map<string, Value>>, field: string): Option<map<string, Value>> {
    match m case Some(n) => ObjectIn(n, field) case None => None
  }

  /** The fields of a holder, where the documents have it. */
  function FieldsOf(docs: Docs, h: Holder): Option<map<string, Value>> {
    match h
    case Agent(id) => ObjectIn(Table(docs, Agents), id)
    case Skill(s, id) => ObjectIn(Table(docs, Skills(s)), id)
    case Rule(s, id) => ObjectIn(Table(docs, Rules(s)), id)
    case SkillGroup(i) => ItemAt(Groups(docs.skills), i)
    case RuleGroup(i) => ItemAt(Groups(docs.rules), i)
    case Node(w, i) => NodeAt(docs.workflows, w, i)
    case NodeParams(w, i) => Part(NodeAt(docs.workflows, w, i), "node_params")
    case SubWorkflowParams(w, i) => Part(NodeAt(docs.workflows, w, i), "sub_workflow_params")
  }

  function NewId(p: Plan, kind: string, id: string): string {
    match Renamed(p, kind, id) case Ok(e) => e case Raised => id
  }

  /** Where the holder is after rewriting. */
  function MovedHolder(p: Plan, h: Holder): Holder {
    match h
    case Agent(id) => Agent(NewId(p, "agent", id))
    case Skill(s, id) => Skill(s, NewId(p, "skill", id))
    case Rule(s, id) => Rule(s, NewId(p, "rule", id))
    case SkillGroup(i) => h
    case RuleGroup(i) => h
    case Node(w, i) => Node(NewId(p, "workflow", w), i)
    case NodeParams(w, i) => NodeParams(NewId(p, "workflow", w), i)
    case SubWorkflowParams(w, i) => SubWorkflowParams(NewId(p, "workflow", w), i)
  }

  /** Every reference field that is there is rewritten on its own. */
  ghost predicate RefsRewritten(p: Plan, before: map<string, Value>, after: map<string, Value>, refs: seq<Ref>) {
    forall n :: 0 <= n < |refs| && refs[n].field in before ==>
      && refs[n].field in after
      && Ok(after[refs[n].field]) == if refs[n].use == EachIfPresent
         then RewriteIdList(p, refs[n].kind, before[refs[n].field])
                                     else MaybeResolve(p, refs[n].kind, before[refs[n].field])
  }

  ghost predicate DistinctFields(refs: seq<Ref>) {
    forall i, j :: 0 <= i < |refs| && 0 <= j < |refs| && i != j ==> refs[i].field != refs[j].field
  }

  lemma FieldsGiveRefs(p: Plan, m: map<string, Value>, refs: seq<Ref>)
    requires RewriteFields(p, m, refs).Ok? && DistinctFields(refs)
    ensures RefsRewritten(p, m, RewriteFields(p, m, refs).value, refs)
  {
    hide RewriteFields, RewriteIdList, MaybeResolve;
    forall n | 0 <= n < |refs| && refs[n].field in m
      ensures refs[n].field in RewriteFields(p, m, refs).value
      ensures Ok(RewriteFields(p, m, refs).value[refs[n].field])
              == if refs[n].use == EachIfPresent then RewriteIdList(p, refs[n].kind, m[refs[n].field])
                 else MaybeResolve(p, refs[n].kind, m[refs[n].field])
    {
      FieldRewritten(p, m, refs, n);
    }
  }

  lemma RefsDistinct(h: Holder)
    ensures DistinctFields(RefsOf(h))
  {
  }

  lemma DefinitionHolder(p: Plan, v: Value, refs: seq<Ref>)
    requires v.Object? && RewriteDefinition(p, v, refs).Ok? && DistinctFields(refs)
    ensures RewriteDefinition(p, v, refs).value.Object?
    ensures RefsRewritten(p, v.entries, RewriteDefinition(p, v, refs).value.entries, refs)
  {
    hide RefsRewritten;
    FieldsGiveRefs(p, v.entries, refs);
  }

  lemma ItemHolder(p: Plan, kind: string, refs: seq<Ref>, v: Value)
    requires RewriteItem(p, kind, refs, v).Ok? && DistinctFields(refs) && forall r :: r in refs ==> r.field != "id"
    ensures v.Object? && RewriteItem(p, kind, refs, v).value.Object?
    ensures RefsRewritten(p, v.entries, RewriteItem(p, kind, refs, v).value.entries, refs)
  {
    hide RewriteFields, RewriteIdList, MaybeResolve, Renamed;
    var m := v.entries["id" := Text(Renamed(p, kind, v.entries["id"].text).value)];
    FieldsGiveRefs(p, m, refs);
    forall n | 0 <= n < |refs| && refs[n].field in v.entries
      ensures m[refs[n].field] == v.entries[refs[n].field]
    {
      assert refs[n] in refs;
    }
  }

  /** A node, its parameters and its sub-workflow parameters are rewritten each on its own. */
  lemma NodeHolder(p: Plan, v: Value)
    requires v.Object? && RewriteNode(p, v).Ok?
    ensures RewriteNode(p, v).value.Object?
    ensures var w := RewriteNode(p, v).value;
            && RefsRewritten(p, v.entries, w.entries, NODE_REFS)
            && (ObjectIn(v.entries, "node_params").Some? ==>
                  && ObjectIn(w.entries, "node_params").Some?
                  && RefsRewritten(p, ObjectIn(v.entries, "node_params").value,
                                   ObjectIn(w.entries, "node_params").value, NODE_PARAM_REFS))
            && (ObjectIn(v.entries, "sub_workflow_params").Some? ==>
                  && ObjectIn(w.entries, "sub_workflow_params").Some?
                  && RefsRewritten(p, ObjectIn(v.entries, "sub_workflow_params").value,
                                   ObjectIn(w.entries, "sub_workflow_params").value, SUB_WORKFLOW_REFS))
  {
    hide RewriteFields, RefsRewritten;
    var m := RewriteFields(p, v.entries, NODE_REFS).value;
    RefsDistinct(Node("", 0));
    RefsDistinct(NodeParams("", 0));
    RefsDistinct(SubWorkflowParams("", 0));
    FieldsGiveRefs(p, v.entries, NODE_REFS);
    OtherFieldsKept(p, v.entries, NODE_REFS, "node_params");
    OtherFieldsKept(p, v.entries, NODE_REFS, "sub_workflow_params");
    if ObjectIn(v.entries, "node_params").Some? {
      FieldsGiveRefs(p, m["node_params"].entries, NODE_PARAM_REFS);
    }
    if ObjectIn(v.entries, "sub_workflow_params").Some? {
      FieldsGiveRefs(p, m["sub_workflow_params"].entries, SUB_WORKFLOW_REFS);
    }
    SameNodeRefs(p, v.entries, m, RewriteNode(p, v).value.entries);
  }

  lemma SameNodeRefs(p: Plan, before: map<string, Value>, m: map<string, Value>, after: map<string, Value>)
    requires RefsRewritten(p, before, m, NODE_REFS)
    requires "agent_type" in m ==> "agent_type" in after && after["agent_type"] == m["agent_type"]
    ensures RefsRewritten(p, before, after, NODE_REFS)
  {
    hide MaybeResolve, RewriteIdList;
    assert NODE_REFS[0].field == "agent_type";
  }

  lemma {:induction false} NodesAt(p: Plan, nodes: seq<Value>, i: nat)
    requires RewriteNodes(p, nodes).Ok? && i < |nodes|
    ensures |RewriteNodes(p, nodes).value| == |nodes| && RewriteNode(p, nodes[i]) == Ok(RewriteNodes(p, nodes).value[i])
    decreases |nodes|
  {
    hide RewriteNode;
    if i < |nodes| - 1 {
      NodesAt(p, nodes[..|nodes| - 1], i);
    } else if |nodes| > 1 {
      NodesAt(p, nodes[..|nodes| - 1], 0);
    }
  }

  lemma WorkflowHolder(p: Plan, doc: Doc, i: nat)
    requires RewriteWorkflow(p, doc).Ok? && GetOr(doc, "nodes", List([])).List?
             && i < |GetOr(doc, "nodes", List([])).items|
    ensures var after := RewriteWorkflow(p, doc).value;
            && GetOr(after, "nodes", List([])).List? && i < |GetOr(after, "nodes", List([])).items|
            && RewriteNode(p, GetOr(doc, "nodes", List([])).items[i]) == Ok(GetOr(after, "nodes", List([])).items[i])
  {
    hide RewriteNode, RewriteNodes, Renamed;
    NodesAt(p, GetOr(doc, "nodes", List([])).items, i);
  }

  lemma TableHolder(p: Plan, place: Place, before: map<string, Value>, after: map<string, Value>, id: string,
                    refs: seq<Ref>)
    requires TableRewritten(p, place, before, after) && DistinctFields(refs)
    requires forall v :: RewriteTarget(p, place, v) == RewriteDefinition(p, v, refs)
    requires ObjectIn(before, id).Some?
    ensures var moved := ObjectIn(after, NewId(p, KindOf(place), id));
            moved.Some? && RefsRewritten(p, ObjectIn(before, id).value, moved.value, refs)
  {
    hide Renamed, RefsRewritten, RewriteDefinition, RewriteTarget, DistinctFields, KindOf;
    var v := before[id];
    assert RewriteTarget(p, place, v) == RewriteDefinition(p, v, refs);
    DefinitionHolder(p, v, refs);
  }

  lemma ListHolder(p: Plan, place: Place, before: seq<Value>, after: seq<Value>, i: nat, refs: seq<Ref>)
    requires ItemsRewritten(p, place, before, after) && DistinctFields(refs)
    requires forall r :: r in refs ==> r.field != "id"
    requires forall v :: RewriteTarget(p, place, v) == RewriteItem(p, KindOf(place), refs, v)
    requires ItemAt(before, i).Some?
    ensures var moved := ItemAt(after, i);
            moved.Some? && RefsRewritten(p, ItemAt(before, i).value, moved.value, refs)
  {
    hide Renamed, RefsRewritten, RewriteItem, RewriteTarget, DistinctFields, KindOf;
    var v := before[i];
    assert RewriteTarget(p, place, v) == RewriteItem(p, KindOf(place), refs, v);
    ItemHolder(p, KindOf(place), refs, v);
  }

  /** The holder has moved, and its references are rewritten. */
  ghost predicate HolderMoved(p: Plan, docs: Docs, after: Docs, h: Holder)
    requires FieldsOf(docs, h).Some?
  {
    var moved := FieldsOf(after, MovedHolder(p, h));
    moved.Some? && RefsRewritten(p, FieldsOf(docs, h).value, moved.value, RefsOf(h))
  }

  lemma DefinitionMoved(p: Plan, docs: Docs, after: Docs, h: Holder, place: Place)
    requires PlaceRewritten(p, docs, after, place) && FieldsOf(docs, h).Some?
    requires (h.Agent? && place == Agents) || (h.Skill? && place == Skills(h.section))
             || (h.Rule? && place == Rules(h.section))
    ensures HolderMoved(p, docs, after, h)
  {
    hide Renamed, RefsRewritten, RewriteDefinition, DistinctFields, ObjectIn, Table, NewId, TableRewritten;
    RefsDistinct(h);
    TableHolder(p, place, Table(docs, place), Table(after, place),
                if h.Agent? then h.agent else if h.Skill? then h.skill else h.rule, RefsOf(h));
  }

  lemma GroupTarget(p: Plan, place: Place)
    requires place.SkillGroups? || place.RuleGroups?
    ensures forall v :: RewriteTarget(p, place, v)
                        == RewriteItem(p, KindOf(place),
                                       if place.SkillGroups? then SKILL_GROUP_REFS else RULE_GROUP_REFS, v)
  {
    hide RewriteItem;
  }

  lemma GroupMoved(p: Plan, docs: Docs, after: Docs, h: Holder, place: Place)
    requires PlaceRewritten(p, docs, after, place) && FieldsOf(docs, h).Some?
    requires (h.SkillGroup? && place.SkillGroups?) || (h.RuleGroup? && place.RuleGroups?)
    ensures HolderMoved(p, docs, after, h)
  {
    RefsDistinct(h);
    hide Renamed, RefsRewritten, RewriteItem, RewriteTarget, DistinctFields, ItemAt, Groups, ListOf, ItemsRewritten;
    GroupTarget(p, place);
    assert forall r :: r in RefsOf(h) ==> r.field != "id";
    ListHolder(p, place, Items(docs, place), Items(after, place), h.index, RefsOf(h));
  }

  lemma NodeMoved(p: Plan, docs: Docs, after: Docs, h: Holder)
    requires PlaceRewritten(p, docs, after, Workflows) && FieldsOf(docs, h).Some?
    requires h.Node? || h.NodeParams? || h.SubWorkflowParams?
    ensures HolderMoved(p, docs, after, h)
  {
    hide NewId, RefsRewritten, PlaceRewritten, NodeAt, Part;
    HoldsNode(docs, h.workflow, h.index);
    NodeRewritten(p, docs, after, h.workflow, h.index);
  }

  /** The place that a holder's own definition stands at. */
  function PlaceOf(h: Holder): Place {
    match h
    case Agent(_) => Agents
    case Skill(s, _) => Skills(s)
    case Rule(s, _) => Rules(s)
    case SkillGroup(_) => SkillGroups
    case RuleGroup(_) => RuleGroups
    case _ => Workflows
  }

  /** Wherever references stand, they are rewritten each on its own, at the place the holder has moved to. */
  lemma HolderRewritten(p: Plan, docs: Docs, after: Docs, h: Holder)
    requires FieldsOf(docs, h).Some? && PlaceRewritten(p, docs, after, PlaceOf(h))
    ensures HolderMoved(p, docs, after, h)
  {
    hide FieldsOf, HolderMoved, PlaceRewritten;
    if h.Agent? || h.Skill? || h.Rule? {
      DefinitionMoved(p, docs, after, h, PlaceOf(h));
    } else if h.SkillGroup? || h.RuleGroup? {
      GroupMoved(p, docs, after, h, PlaceOf(h));
    } else {
      NodeMoved(p, docs, after, h);
    }
  }

  lemma HoldsNode(docs: Docs, w: string, i: nat)
    ensures Part(NodeAt(docs.workflows, w, i), "node_params").Some? ==> NodeAt(docs.workflows, w, i).Some?
    ensures Part(NodeAt(docs.workflows, w, i), "sub_workflow_params").Some? ==> NodeAt(docs.workflows, w, i).Some?
  {
  }

  lemma NodeRewritten(p: Plan, docs: Docs, after: Docs, w: string, i: nat)
    requires PlaceRewritten(p, docs, after, Workflows) && NodeAt(docs.workflows, w, i).Some?
    ensures var node, moved := NodeAt(docs.workflows, w, i), NodeAt(after.workflows, NewId(p, "workflow", w), i);
            && moved.Some? && RefsRewritten(p, node.value, moved.value, NODE_REFS)
            && (Part(node, "node_params").Some? ==>
                  && Part(moved, "node_params").Some?
                  && RefsRewritten(p, Part(node, "node_params").value, Part(moved, "node_params").value,
                                   NODE_PARAM_REFS))
            && (Part(node, "sub_workflow_params").Some? ==>
                  && Part(moved, "sub_workflow_params").Some?
                  && RefsRewritten(p, Part(node, "sub_workflow_params").value,
                                   Part(moved, "sub_workflow_params").value, SUB_WORKFLOW_REFS))
  {
    hide Renamed, RefsRewritten, RewriteNode, RewriteWorkflow;
    assert w in Table(docs, Workflows);
    assert RewriteTarget(p, Workflows, Table(docs, Workflows)[w])
           == Ok(Table(after, Workflows)[NewId(p, "workflow", w)]);
    assert Table(docs, Workflows)[w] == Object(docs.workflows[w]);
    assert Table(after, Workflows)[NewId(p, "workflow", w)] == Object(after.workflows[NewId(p, "workflow", w)]);
    WorkflowHolder(p, docs.workflows[w], i);
    NodeHolder(p, GetOr(docs.workflows[w], "nodes", List([])).items[i]);
  }

  // ----- every reference -----

  /** A reference: a field of a holder, and a position when the field is a list. */
  datatype Site = Site(holder: Holder, field: nat, position: nat)

  predicate IsSite(s: Site) {
    IsHolder(s.holder) && s.field < |RefsOf(s.holder)|
  }

  function SiteRef(s: Site): Ref
    requires IsSite(s)
  {
    RefsOf(s.holder)[s.field]
  }

  /** The text of the reference, where there is one. */
  function Reference(docs: Docs, s: Site): Option<string>
    requires IsSite(s)
  {
    match FieldsOf(docs, s.holder)
    case None => None
    case Some(m) =>
      var r := SiteRef(s);
      if r.field !in m then None
      else if r.use == EachIfPresent then
        if m[r.field].List? && s.position < |m[r.field].items| && m[r.field].items[s.position].Text?
        then Some(m[r.field].items[s.position].text) else None
      else if m[r.field].Text? then Some(m[r.field].text) else None
  }

  function MovedSite(p: Plan, s: Site): Site {
    s.(holder := MovedHolder(p, s.holder))
  }

  /** A reference is found again where its holder has moved to, as its rewritten text. */
  lemma ReferenceMoves(p: Plan, docs: Docs, after: Docs, s: Site)
    requires IsSite(s) && Reference(docs, s).Some? && PlaceRewritten(p, docs, after, PlaceOf(s.holder))
    ensures IsSite(MovedSite(p, s)) && SiteRef(MovedSite(p, s)) == SiteRef(s)
    ensures MaybeResolve(p, SiteRef(s).kind, Text(Reference(docs, s).value)).Ok?
    ensures Reference(after, MovedSite(p, s)) == Some(MovedRef(p, SiteRef(s).kind, Reference(docs, s).value))
  {
    hide Renamed, FieldsOf, MaybeResolve, MovedRef, PlaceRewritten;
    HolderRewritten(p, docs, after, s.holder);
    var m := FieldsOf(docs, s.holder).value;
    var r := SiteRef(s);
    var ref := Reference(docs, s).value;
    if r.use == EachIfPresent {
      assert RewriteIdList(p, r.kind, m[r.field]).Ok?;
      assert MaybeResolve(p, r.kind, m[r.field].items[s.position]).Ok?;
    }
    MovedRefIs(p, r.kind, ref);
  }

  /** Every kind of reference has a place where it is defined. */
  lemma EveryKindHasAPlace(s: Site) returns (place: Place)
    requires IsSite(s)
    ensures IsPlace(place) && KindOf(place) == SiteRef(s).kind
  {
    var kind := SiteRef(s).kind;
    place := if kind == "prompt" then Prompts else if kind == "agent" then Agents
             else if kind == "workflow" then Workflows
             else if kind == "script_library" then Libraries else if kind == "skill" then Skills("skills")
             else if kind == "rule" then Rules("rules") else if kind == "skill_group" then SkillGroups else RuleGroups;
  }
}
