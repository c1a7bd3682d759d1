/** A reference that is not declared, and happens to be the effective id of a definition, comes to name it. */
module ResourceCounterexample {
  import opened Json
  import opened Outcomes
  import opened ResourceIds
  import opened ResourceRewrite
  import opened ResourceReferences
  import opened ResourceFiles

  /** Plugin `x` defines the agent `b` and the prompt `a`; the agent's template is `x-a`, which is not declared. */
  const DECLARED := [("agent", "b"), ("prompt", "a")]
  const PLAN := Plan("x", "x", [Mapping("x", "agent", "b", "x-b"), Mapping("x", "prompt", "a", "x-a")])
  const TEMPLATE := Text("be brief")
  const AGENT := Object(map["prompt_template" := Text("x-a")])
  const DOCS := Docs(map["agents" := Object(map["b" := AGENT])], map["agents" := Object(map["a" := TEMPLATE])],
                     map[], map[], map[], map[], map[])
  const SITE := Site(Agent("b"), 0, 0)

  lemma Names()
    ensures Strip("x") == "x" && Strip("a") == "a" && Strip("b") == "b" && Strip("x-a") == "x-a"
    ensures PluginId("x") == Ok("x")
    ensures ResourceType("agent") == Ok("agent") && ResourceType("prompt") == Ok("prompt")
    ensures Effective("x", "a") == "x-a" && Effective("x", "b") == "x-b"
  {
    StripTrimmed("x");
    StripTrimmed("a");
    StripTrimmed("b");
    StripTrimmed("x-a");
    StripTrimmed("agent");
    StripTrimmed("prompt");
    assert "agent"[0] == 'a' && "prompt"[0] == 'p';
    assert "x-a"[..2] == "x-" && "x-b"[..2] == "x-";
  }

  lemma PlanIsBuilt()
    ensures PLAN.Valid() && Clean(PLAN.prefix, DECLARED)
            && PLAN.mappings == MapDeclared(PLAN.owner, PLAN.prefix, DECLARED)
  {
    hide Strip, Alias, Kebab, Effective;
    Names();
    assert DECLARED[0] == ("agent", "b") && DECLARED[1] == ("prompt", "a");
  }

  lemma Resolved()
    ensures ResolveIn(PLAN, "agent", "b") == ResourceIds.Found("x-b")
    ensures ResolveIn(PLAN, "prompt", "a") == ResourceIds.Found("x-a")
    ensures ResolveIn(PLAN, "prompt", "x-a") == ResourceIds.Missing
  {
    hide Strip, Alias;
    Names();
  }

  lemma Defined(place: Place, id: string)
    requires IsPlace(place) && Defines([DOCS], place, id)
    ensures (place == Agents && id == "b") || (place == Prompts && id == "a")
  {
    assert [DOCS][..0] == [];
    assert AllTable([DOCS], place) == Table(DOCS, place) && AllItems([DOCS], place) == Items(DOCS, place);
  }

  lemma IsPlanned()
    ensures PlannedFiles(PLAN, [DOCS])
  {
    hide Plan.Valid, Clean, MapDeclared, PlannedFiles, Defines;
    PlanIsBuilt();
    assert DECLARED[0] == ("agent", "b") && DECLARED[1] == ("prompt", "a");
    forall place, id | IsPlace(place) && Defines([DOCS], place, id)
      ensures (KindOf(place), id) in DECLARED
    {
      Defined(place, id);
    }
    BuiltPlanFits(PLAN, DECLARED, [DOCS]);
  }

  // ----- it is rewritten -----

  lemma AgentIsRewritten()
    ensures RewriteDefinition(PLAN, AGENT, AGENT_REFS) == Ok(AGENT)
  {
    hide ResolveIn;
    Resolved();
    assert AGENT_REFS[..2][..1] == AGENT_REFS[..1] && AGENT_REFS[..1][..0] == [];
    var m := AGENT.entries;
    assert RewriteField(PLAN, m, AGENT_REFS[0]) == Ok(m["prompt_template" := Text("x-a")]);
    assert m["prompt_template" := Text("x-a")] == m;
    assert RewriteFields(PLAN, m, AGENT_REFS[..1]) == Ok(m);
    assert RewriteFields(PLAN, m, AGENT_REFS[..2]) == Ok(m);
    assert RewriteFields(PLAN, m, AGENT_REFS) == Ok(m);
  }

  lemma OneSectionIsRewritten(kind: string, id: string, v: Value, refs: seq<Ref>)
    requires Renamed(PLAN, kind, id).Ok? && RewriteDefinition(PLAN, v, refs).Ok?
    ensures var doc := map["agents" := Object(map[id := v])];
            Planned(PLAN, doc, ["agents"], kind) && RewriteSection(PLAN, doc, "agents", kind, refs).Ok?
  {
    hide Renamed, RewriteDefinition;
  }

  lemma NoSkillsAreRewritten()
    ensures Planned(PLAN, map[], SKILL_SECTIONS, "skill") && RewriteSkills(PLAN, map[]).Ok?
  {
    hide RewriteGrouped;
    EmptyGroupedIsRewritten(SKILL_SECTIONS, "skill", SKILL_REFS, "skill_group", SKILL_GROUP_REFS);
  }

  lemma NoRulesAreRewritten()
    ensures Planned(PLAN, map[], RULE_SECTIONS, "rule") && RewriteRules(PLAN, map[]).Ok?
  {
    hide RewriteGrouped;
    EmptyGroupedIsRewritten(RULE_SECTIONS, "rule", RULE_REFS, "rule_group", RULE_GROUP_REFS);
  }

  lemma NothingElseIsRewritten()
    ensures RewritePhrases(PLAN, map[]).Ok? && RewriteWorkflows(PLAN, map[]).Ok?
    ensures RewriteIdMapping(PLAN, "script_library", Object(map[])).Ok?
  {
    hide Renamed, RewriteWorkflow, RewriteItem;
  }

  lemma EmptyGroupedIsRewritten(sections: seq<string>, kind: string, refs: seq<Ref>, groupKind: string,
                                groupRefs: seq<Ref>)
    requires |sections| == 2 && sections[0] != sections[1] && "groups" !in sections
    ensures Planned(PLAN, map[], sections, kind)
    ensures RewriteGrouped(PLAN, map[], sections, kind, refs, groupKind, groupRefs).Ok?
  {
    hide Renamed, RewriteDefinition;
  }

  lemma IsRewritten() returns (after: Docs)
    ensures PlannedFiles(PLAN, [DOCS]) && RewriteFiles(PLAN, [DOCS]) == Ok([after])
    ensures PlannedDocs(PLAN, DOCS) && RewriteDocs(PLAN, DOCS) == Ok(after)
  {
    IsPlanned();
    hide Plan.Valid, Renamed, ResolveIn, RewriteDefinition, RewriteSection, RewriteSkills, RewriteRules, RewritePhrases,
         RewriteWorkflows, RewriteIdMapping, Separates, SeparatesItems, ToldApart, Planned;
    RenamedBoth();
    AgentIsRewritten();
    NoRefsNoChange(PLAN, TEMPLATE);
    OneSectionIsRewritten("agent", "b", AGENT, AGENT_REFS);
    OneSectionIsRewritten("prompt", "a", TEMPLATE, []);
    NoSkillsAreRewritten();
    NoRulesAreRewritten();
    NothingElseIsRewritten();
    assert [DOCS][0] == DOCS && [DOCS][..0] == [];
    after := RewriteDocs(PLAN, DOCS).value;
    assert RewriteFiles(PLAN, []) == Ok([]) && [] + [after] == [after];
  }

  lemma RenamedBoth()
    ensures Renamed(PLAN, "agent", "b") == Ok("x-b") && Renamed(PLAN, "prompt", "a") == Ok("x-a")
  {
    hide ResolveIn;
    Resolved();
  }

  // ----- what is found before and after -----

  lemma FoundBefore()
    ensures Reference(DOCS, SITE) == Some("x-a") && ResourceFiles.Find([DOCS], Prompts, "x-a") == None
  {
    if "x-a" in AllTable([DOCS], Prompts) {
      Defined(Prompts, "x-a");
    }
  }

  lemma FoundAfter(after: Docs)
    requires PlannedDocs(PLAN, DOCS) && RewriteDocs(PLAN, DOCS) == Ok(after)
    ensures Reference(after, MovedSite(PLAN, SITE)) == Some("x-a")
    ensures ResourceFiles.Find([after], Prompts, "x-a") == Some(TEMPLATE)
  {
    hide PlannedDocs, RewriteDocs, Renamed, ResolveIn, Reference, MaybeResolve, MovedSite;
    Resolved();
    RenamedBoth();
    FoundBefore();
    EveryPlaceRewritten(PLAN, DOCS, Agents);
    EveryPlaceRewritten(PLAN, DOCS, Prompts);
    ReferenceMoves(PLAN, DOCS, after, SITE);
    assert "a" in Table(DOCS, Prompts) && Table(DOCS, Prompts)["a"] == TEMPLATE;
    assert [after][..0] == [] && [after][0] == after;
  }

  /** The template names no prompt of the plugin; its rewriting names one. */
  lemma UndeclaredReferenceIsCaught() returns (after: Docs)
    ensures PlannedFiles(PLAN, [DOCS]) && RewriteFiles(PLAN, [DOCS]) == Ok([after])
    ensures Reference(DOCS, SITE) == Some("x-a") && ResourceFiles.Find([DOCS], Prompts, "x-a") == None
    ensures IsSite(MovedSite(PLAN, SITE)) && Reference(after, MovedSite(PLAN, SITE)) == Some("x-a")
    ensures ResourceFiles.Find([after], Prompts, "x-a") == Some(TEMPLATE)
  {
    hide PlannedFiles, RewriteFiles, PlannedDocs, RewriteDocs, Reference, ResourceFiles.Find, NewId;
    after := IsRewritten();
    FoundBefore();
    FoundAfter(after);
  }
}
