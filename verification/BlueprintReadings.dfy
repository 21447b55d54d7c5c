/** What the parser returns for any input, told field by field, for both schemas. */
module BlueprintReadings {
  import opened Options
  import opened BlueprintJson
  import opened Blueprints
  import opened BlueprintForms
  import opened BlueprintGrammar
  import opened BlueprintParser
  import BlueprintSpaces

  /** For every part, when a value reads as the part. */
  datatype Readings = Readings(
    name: (Json, string) -> bool, purpose: (Json, string) -> bool, description: (Json, string) -> bool,
    labels: (Json, Labels) -> bool, roles: (Json, seq<Role>) -> bool, spaces: (Json, seq<Space>) -> bool,
    memoryTypes: (Json, seq<MemoryType>) -> bool, activityTypes: (Json, seq<ActivityType>) -> bool,
    decisionMethods: (Json, seq<DecisionMethod>) -> bool, intents: (Json, seq<string>) -> bool,
    workflows: (Json, seq<Workflow>) -> bool,
    theme: (Json, Theme) -> bool, policies: (Json, seq<Policy>) -> bool, connections: (Json, seq<Connection>) -> bool,
    lifecycle: (Json, Lifecycle) -> bool, retention: (Json, Retention) -> bool, export_: (Json, Export) -> bool,
    legacyAgent: (Json, Agent) -> bool, agent: (Json, Agent) -> bool, agents: (Json, seq<Agent>) -> bool)

  /** The parser returns what the value reads as, if that is of the right form. */
  ghost predicate Means<T(!new)>(c: Codec<T>, rel: (Json, T) -> bool) {
    forall v, x :: c.parse(v) == Some(x) <==> rel(v, x) && Survives(c, x)
  }

  // ----- reading by fields -----

  ghost predicate CoreReads(r: Readings, fields: map<Field, Json>, c: Core)
    requires CORE_FIELDS <= fields.Keys
  {
    && r.name(fields[FName], c.name) && r.purpose(fields[FPurpose], c.purpose)
    && r.description(fields[FDescription], c.description) && r.labels(fields[FLabels], c.labels)
    && r.roles(fields[FRoles], c.roles) && r.spaces(fields[FSpaces], c.spaces)
    && r.memoryTypes(fields[FMemoryTypes], c.memoryTypes) && r.activityTypes(fields[FActivityTypes], c.activityTypes)
    && r.decisionMethods(fields[FDecisionMethods], c.decisionMethods)
    && r.intents(fields[FDashboardIntents], c.intents) && r.workflows(fields[FWorkflows], c.workflows)
  }

  ghost predicate ExtensionReads(r: Readings, fields: map<Field, Json>, x: Extension)
    requires EXTENDED_FIELDS <= fields.Keys
  {
    && r.theme(fields[FVisualTheme], x.theme) && r.policies(fields[FApprovalPolicies], x.policies)
    && r.connections(fields[FConnectionSuggestions], x.connections)
    && r.lifecycle(fields[FOnboarding], x.onboarding) && r.lifecycle(fields[FOffboarding], x.offboarding)
    && r.retention(fields[FRetentionPolicy], x.retention) && r.export_(fields[FExportPolicy], x.export_)
    && r.agents(fields[FRecommendedAgents], x.agents)
  }

  ghost predicate CoreMeans(g: Grammar, r: Readings) {
    && Means(g.name, r.name) && Means(g.purpose, r.purpose) && Means(g.description, r.description)
    && Means(g.labels, r.labels) && Means(g.roles, r.roles) && Means(g.spaces, r.spaces)
    && Means(g.memoryTypes, r.memoryTypes) && Means(g.activityTypes, r.activityTypes)
    && Means(g.decisionMethods, r.decisionMethods) && Means(g.intents, r.intents) && Means(g.workflows, r.workflows)
  }

  ghost predicate ExtensionMeans(g: Grammar, r: Readings, roles: seq<Role>) {
    && Means(g.theme, r.theme) && Means(g.policies, r.policies) && Means(g.connections, r.connections)
    && Means(g.lifecycle, r.lifecycle) && Means(g.retention, r.retention) && Means(g.export_, r.export_)
    && Means(g.agents(roles), r.agents) && Means(g.agent(roles), r.agent)
    && forall v, a :: g.legacyAgent(roles).parse(v) == Some(a) <==> r.legacyAgent(v, a) && Survives(g.agent(roles), a)
  }

  lemma CoreReadsIff(g: Grammar, r: Readings, fields: map<Field, Json>, c: Core)
    requires CoreMeans(g, r) && CORE_FIELDS <= fields.Keys
    ensures ParseCore(g, fields) == Some(c) <==> CoreReads(r, fields, c) && CoreSurvives(g, c)
  {
  }

  lemma ExtensionReadsIff(g: Grammar, r: Readings, roles: seq<Role>, fields: map<Field, Json>, x: Extension)
    requires ExtensionMeans(g, r, roles) && EXTENDED_FIELDS <= fields.Keys
    ensures ParseExtension(g, roles, fields) == Some(x) <==>
            ExtensionReads(r, fields, x) && ExtensionSurvives(g, roles, x)
  {
  }

  // ----- schema 2 -----

  /** The suggested agent is null, or it is the first of the recommended ones once more. */
  ghost predicate SuggestionReads(r: Readings, v: Json, agents: seq<Agent>) {
    v.Null? || (agents != [] && r.agent(v, agents[0]))
  }

  ghost predicate Schema2Reads(r: Readings, v: Json, d: Definition) {
    && v.Obj? && v.fields.Keys == ALL_FIELDS && v.fields[FSchemaVersion] == Int(2)
    && CoreReads(r, v.fields, d.core) && ExtensionReads(r, v.fields, d.extension)
    && SuggestionReads(r, v.fields[FSuggestedAgent], d.extension.agents)
  }

  ghost predicate Sound(d: Definition) {
    CoreSound(d.core) && ExtensionSound(d.core, d.extension)
  }

  lemma Schema2ByParts(g: Grammar, v: Json, d: Definition)
    requires v.Obj? && v.fields.Keys == ALL_FIELDS
    ensures ParseSchema2(g, v) == Some(d) <==>
            && ParseCore(g, v.fields) == Some(d.core)
            && ParseExtension(g, d.core.roles, v.fields) == Some(d.extension)
            && Sound(d)
            && (v.fields[FSuggestedAgent].Null? ||
                (d.extension.agents != [] &&
                 g.agent(d.core.roles).parse(v.fields[FSuggestedAgent]) == Some(d.extension.agents[0])))
  {
  }

  lemma Schema2ReadsIff(g: Grammar, r: Readings, v: Json, d: Definition)
    requires CoreMeans(g, r) && ExtensionMeans(g, r, d.core.roles)
    requires v.Obj? && v.fields.Keys == ALL_FIELDS && v.fields[FSchemaVersion] == Int(2)
    requires ExtensionSurvives(g, d.core.roles, d.extension) ==> FirstAgentSurvives(g, d.core.roles, d.extension)
    ensures ParseSchema2(g, v) == Some(d) <==> Schema2Reads(r, v, d) && DefinitionSurvives(g, d) && Sound(d)
  {
    Schema2ByParts(g, v, d);
    CoreReadsIff(g, r, v.fields, d.core);
    ExtensionReadsIff(g, r, d.core.roles, v.fields, d.extension);
  }

  // ----- schema 1 -----

  /** What schema 1 cannot say is filled in: approval by a Human before external action, and neutral texts. */
  ghost predicate Upgraded(c: Core, x: Extension) {
    && c.decisionMethods != []
    && x.policies == [Policy("external-action", "Human approval for external action",
                             "External writes require explicit Human approval before execution.", 2,
                             c.decisionMethods[0].key, 1, true)]
    && x.connections == []
    && x.theme == Theme("system", "blue", "Use the purchaser's system appearance with a restrained accent.")
    && x.onboarding == Lifecycle("Join this collective",
         "Learn the shared purpose and the context needed for the first activity.",
         ["Review the purpose", "Read required Memory", "Start the first Activity"])
    && x.offboarding == Lifecycle("Leave this collective",
         "Revoke access and hand over shared Activity and Memory safely.",
         ["Stop access and Runs", "Hand over open Activity", "Record the transition"])
    && x.retention == Retention(2_555,
         "Retain shared records according to the Constitution and review before deletion.")
    && x.export_ == Export(["json", "markdown", "csv", "files"], true, "explicit-consent")
  }

  /** A null suggestion gives no agent, any other exactly one. */
  ghost predicate OnlyAgentReads(r: Readings, v: Json, agents: seq<Agent>) {
    if v.Null? then agents == [] else |agents| == 1 && r.legacyAgent(v, agents[0])
  }

  ghost predicate Schema1Reads(r: Readings, v: Json, d: Definition) {
    && v.Obj? && v.fields.Keys == BASE_FIELDS && v.fields[FSchemaVersion] == Int(1)
    && CoreReads(r, v.fields, d.core) && Upgraded(d.core, d.extension)
    && OnlyAgentReads(r, v.fields[FSuggestedAgent], d.extension.agents)
  }

  function OnlyAgent(x: Extension): Option<Agent> {
    if x.agents == [] then None else Some(x.agents[0])
  }

  lemma UpgradeMeans(c: Core, x: Extension)
    requires c.decisionMethods != [] && |x.agents| <= 1
    ensures Upgraded(c, x) <==> x == Upgrade(c, OnlyAgent(x))
  {
  }

  lemma Schema1ByParts(g: Grammar, v: Json, d: Definition)
    requires v.Obj? && v.fields.Keys == BASE_FIELDS
    ensures ParseSchema1(g, v) == Some(d) <==>
            && ParseCore(g, v.fields) == Some(d.core) && Sound(d)
            && |d.extension.agents| <= 1 && d.extension == Upgrade(d.core, OnlyAgent(d.extension))
            && (if v.fields[FSuggestedAgent].Null? then d.extension.agents == []
                else d.extension.agents != [] &&
                     g.legacyAgent(d.core.roles).parse(v.fields[FSuggestedAgent]) == Some(d.extension.agents[0]))
  {
  }

  ghost predicate OnlyAgentSurvives(g: Grammar, d: Definition) {
    d.extension.agents != [] ==> Survives(g.agent(d.core.roles), d.extension.agents[0])
  }

  /** Nothing but its agent could keep an upgraded definition from surviving. */
  ghost predicate UpgradeSurvivesIff(g: Grammar, d: Definition) {
    && |d.extension.agents| <= 1 && d.core.decisionMethods != []
    && d.extension == Upgrade(d.core, OnlyAgent(d.extension)) && CoreSurvives(g, d.core) ==>
         (DefinitionSurvives(g, d) <==> OnlyAgentSurvives(g, d))
  }

  lemma OnlyAgentReadsIff(g: Grammar, r: Readings, v: Json, d: Definition)
    requires ExtensionMeans(g, r, d.core.roles) && |d.extension.agents| <= 1
    ensures OnlyAgentReads(r, v, d.extension.agents) && OnlyAgentSurvives(g, d) <==>
            (if v.Null? then d.extension.agents == []
             else d.extension.agents != [] && g.legacyAgent(d.core.roles).parse(v) == Some(d.extension.agents[0]))
  {
  }

  lemma Schema1PartsRead(g: Grammar, r: Readings, v: Json, d: Definition)
    requires CoreMeans(g, r) && ExtensionMeans(g, r, d.core.roles)
    requires v.Obj? && v.fields.Keys == BASE_FIELDS
    ensures ParseSchema1(g, v) == Some(d) <==>
            && CoreReads(r, v.fields, d.core) && CoreSurvives(g, d.core) && Sound(d)
            && |d.extension.agents| <= 1 && d.extension == Upgrade(d.core, OnlyAgent(d.extension))
            && OnlyAgentReads(r, v.fields[FSuggestedAgent], d.extension.agents) && OnlyAgentSurvives(g, d)
  {
    Schema1ByParts(g, v, d);
    CoreReadsIff(g, r, v.fields, d.core);
    if |d.extension.agents| <= 1 {
      OnlyAgentReadsIff(g, r, v.fields[FSuggestedAgent], d);
    }
  }

  lemma Schema1ReadsIff(g: Grammar, r: Readings, v: Json, d: Definition)
    requires CoreMeans(g, r) && ExtensionMeans(g, r, d.core.roles) && UpgradeSurvivesIff(g, d)
    requires v.Obj? && v.fields.Keys == BASE_FIELDS && v.fields[FSchemaVersion] == Int(1)
    ensures ParseSchema1(g, v) == Some(d) <==> Schema1Reads(r, v, d) && DefinitionSurvives(g, d) && Sound(d)
  {
    Schema1PartsRead(g, r, v, d);
    if |d.extension.agents| <= 1 && d.core.decisionMethods != [] {
      UpgradeMeans(d.core, d.extension);
    }
  }

  // ----- both -----

  lemma ByVersion(g: Grammar, v: Json, d: Definition)
    ensures ParseDefinition(g, v) == Some(d) <==>
            || (&& v.Obj? && v.fields.Keys == BASE_FIELDS && v.fields[FSchemaVersion] == Int(1)
                && ParseSchema1(g, v) == Some(d))
            || (&& v.Obj? && v.fields.Keys == ALL_FIELDS && v.fields[FSchemaVersion] == Int(2)
                && ParseSchema2(g, v) == Some(d))
  {
  }

  lemma DefinitionReadsIff(g: Grammar, r: Readings, v: Json, d: Definition)
    requires CoreMeans(g, r) && ExtensionMeans(g, r, d.core.roles) && UpgradeSurvivesIff(g, d)
    requires ExtensionSurvives(g, d.core.roles, d.extension) ==> FirstAgentSurvives(g, d.core.roles, d.extension)
    ensures ParseDefinition(g, v) == Some(d) <==>
            (Schema1Reads(r, v, d) || Schema2Reads(r, v, d)) && DefinitionSurvives(g, d) && Sound(d)
  {
    ByVersion(g, v, d);
    if v.Obj? && v.fields.Keys == BASE_FIELDS && v.fields[FSchemaVersion] == Int(1) {
      Schema1ReadsIff(g, r, v, d);
    }
    if v.Obj? && v.fields.Keys == ALL_FIELDS && v.fields[FSchemaVersion] == Int(2) {
      Schema2ReadsIff(g, r, v, d);
    }
  }

  // ----- the concrete parsers -----

  /** Texts are stripped of white ends, lists keep their order, all else is as written. */
  ghost function Reading(): Readings {
    Readings(
      (v, s) => TextReads(v, s, 100), (v, s) => TextReads(v, s, 2_000), (v, s) => TextReads(v, s, 2_000),
      (v, x) => LabelsRead(v, x), (v, xs) => RolesRead(v, xs), (v, xs) => SpacesRead(v, xs),
      (v, xs) => MemoryTypesRead(v, xs), (v, xs) => ActivityTypesRead(v, xs), (v, xs) => DecisionMethodsRead(v, xs),
      (v, xs) => TextsRead(v, xs, 20), (v, xs) => WorkflowsRead(v, xs),
      (v, x) => ThemeReads(v, x), (v, xs) => PoliciesRead(v, xs), (v, xs) => ConnectionsRead(v, xs),
      (v, x) => LifecycleReads(v, x), (v, x) => RetentionReads(v, x), (v, x) => ExportReads(v, x),
      (v, a) => AgentReads(true, v, a), (v, a) => AgentReads(false, v, a), (v, xs) => AgentsRead(v, xs))
  }

  lemma TextsMean(max: nat)
    ensures forall v, s :: TextCodec(max).parse(v) == Some(s) <==>
              TextReads(v, s, max) && Survives(TextCodec(max), s)
  {
    forall v, s
      ensures TextCodec(max).parse(v) == Some(s) <==> TextReads(v, s, max) && Survives(TextCodec(max), s)
    {
      TextMeans(v, s, max);
      TextAgain(s, max);
    }
  }

  lemma LabelsMeanAll(t: Tables)
    ensures Means(LabelsCodec(t), Reading().labels)
  {
    forall v, x: Labels
      ensures LabelsCodec(t).parse(v) == Some(x) <==> Reading().labels(v, x) && Survives(LabelsCodec(t), x)
    {
      LabelsMean(t, v, x);
      LabelsAgain(t, x);
    }
  }

  lemma RolesMeanAll(t: Tables)
    ensures Means(RolesCodec(t), Reading().roles)
  {
    forall v, x: seq<Role>
      ensures RolesCodec(t).parse(v) == Some(x) <==> Reading().roles(v, x) && Survives(RolesCodec(t), x)
    {
      RolesMean(t, v, x);
      RolesExact(t, x);
    }
  }

  lemma SpacesMeanAll()
    ensures Means(SpacesCodec(), Reading().spaces)
  {
    forall v, x: seq<Space>
      ensures SpacesCodec().parse(v) == Some(x) <==> Reading().spaces(v, x) && Survives(SpacesCodec(), x)
    {
      SpacesMean(v, x);
      SpacesExact(x);
    }
  }

  lemma MemoryTypesMeanAll()
    ensures Means(MemoryTypesCodec(), Reading().memoryTypes)
  {
    forall v, x: seq<MemoryType>
      ensures MemoryTypesCodec().parse(v) == Some(x) <==> Reading().memoryTypes(v, x) && Survives(MemoryTypesCodec(), x)
    {
      MemoryTypesMean(v, x);
      MemoryTypesExact(x);
    }
  }

  lemma ActivityTypesMeanAll()
    ensures Means(ActivityTypesCodec(), Reading().activityTypes)
  {
    forall v, x: seq<ActivityType>
      ensures ActivityTypesCodec().parse(v) == Some(x) <==>
              Reading().activityTypes(v, x) && Survives(ActivityTypesCodec(), x)
    {
      ActivityTypesMean(v, x);
      ActivityTypesExact(x);
    }
  }

  lemma DecisionMethodsMeanAll()
    ensures Means(DecisionMethodsCodec(), Reading().decisionMethods)
  {
    forall v, x: seq<DecisionMethod>
      ensures DecisionMethodsCodec().parse(v) == Some(x) <==>
              Reading().decisionMethods(v, x) && Survives(DecisionMethodsCodec(), x)
    {
      DecisionMethodsMean(v, x);
      DecisionMethodsExact(x);
    }
  }

  lemma WorkflowsMeanAll()
    ensures Means(WorkflowsCodec(), Reading().workflows)
  {
    forall v, x: seq<Workflow>
      ensures WorkflowsCodec().parse(v) == Some(x) <==> Reading().workflows(v, x) && Survives(WorkflowsCodec(), x)
    {
      WorkflowsMean(v, x);
      WorkflowsExact(x);
    }
  }

  lemma PoliciesMeanAll()
    ensures Means(PoliciesCodec(), Reading().policies)
  {
    forall v, x: seq<Policy>
      ensures PoliciesCodec().parse(v) == Some(x) <==> Reading().policies(v, x) && Survives(PoliciesCodec(), x)
    {
      PoliciesMean(v, x);
      PoliciesExact(x);
    }
  }

  lemma ConnectionsMeanAll(t: Tables)
    ensures Means(ConnectionsCodec(t), Reading().connections)
  {
    forall v, x: seq<Connection>
      ensures ConnectionsCodec(t).parse(v) == Some(x) <==>
              Reading().connections(v, x) && Survives(ConnectionsCodec(t), x)
    {
      ConnectionsMean(t, v, x);
      ConnectionsExact(t, x);
    }
  }

  lemma IntentsMeanAll()
    ensures Means(IntentsCodec(), Reading().intents)
  {
    forall v, x: seq<string>
      ensures IntentsCodec().parse(v) == Some(x) <==> Reading().intents(v, x) && Survives(IntentsCodec(), x)
    {
      IntentsMean(v, x);
      IntentsExact(x);
    }
  }

  lemma ThemeMeansAll()
    ensures Means(Codec(ParseTheme, ThemeJson), Reading().theme)
  {
    forall v, x: Theme
      ensures Codec(ParseTheme, ThemeJson).parse(v) == Some(x) <==>
              Reading().theme(v, x) && Survives(Codec(ParseTheme, ThemeJson), x)
    {
      ThemeMeans(v, x);
      ThemeAgain(x);
    }
  }

  lemma LifecycleMeansAll()
    ensures Means(Codec(ParseLifecycle, LifecycleJson), Reading().lifecycle)
  {
    forall v, x: Lifecycle
      ensures Codec(ParseLifecycle, LifecycleJson).parse(v) == Some(x) <==>
              Reading().lifecycle(v, x) && Survives(Codec(ParseLifecycle, LifecycleJson), x)
    {
      LifecycleMeans(v, x);
      LifecycleAgain(x);
    }
  }

  lemma RetentionMeansAll()
    ensures Means(Codec(ParseRetention, RetentionJson), Reading().retention)
  {
    forall v, x: Retention
      ensures Codec(ParseRetention, RetentionJson).parse(v) == Some(x) <==>
              Reading().retention(v, x) && Survives(Codec(ParseRetention, RetentionJson), x)
    {
      RetentionMeans(v, x);
      RetentionAgain(x);
    }
  }

  lemma ExportMeansAll()
    ensures Means(Codec(ParseExport, ExportJson), Reading().export_)
  {
    forall v, x: Export
      ensures Codec(ParseExport, ExportJson).parse(v) == Some(x) <==>
              Reading().export_(v, x) && Survives(Codec(ParseExport, ExportJson), x)
    {
      ExportMeans(v, x);
      ExportAgain(x);
    }
  }

  lemma AgentsMeanAll(t: Tables, roles: seq<Role>)
    ensures Means(AgentsCodec(t, roles), Reading().agents)
  {
    forall v, x: seq<Agent>
      ensures AgentsCodec(t, roles).parse(v) == Some(x) <==>
              Reading().agents(v, x) && Survives(AgentsCodec(t, roles), x)
    {
      AgentsMean(t, roles, v, x);
      AgentsExact(t, roles, x);
    }
  }

  lemma AgentMeansAll(t: Tables, roles: seq<Role>)
    ensures Means(AgentCodec(t, roles, false), Reading().agent)
  {
    forall v, x: Agent
      ensures AgentCodec(t, roles, false).parse(v) == Some(x) <==>
              Reading().agent(v, x) && Survives(AgentCodec(t, roles, false), x)
    {
      AgentMeans(t, roles, false, v, x);
      AgentAgain(t, roles, x);
    }
  }

  lemma LegacyAgentMeansAll(t: Tables, roles: seq<Role>)
    ensures forall v, x :: AgentCodec(t, roles, true).parse(v) == Some(x) <==>
              Reading().legacyAgent(v, x) && Survives(AgentCodec(t, roles, false), x)
  {
    forall v, x
      ensures AgentCodec(t, roles, true).parse(v) == Some(x) <==>
              Reading().legacyAgent(v, x) && Survives(AgentCodec(t, roles, false), x)
    {
      AgentMeans(t, roles, true, v, x);
      AgentAgain(t, roles, x);
    }
  }

  lemma CoreMeansAll(t: Tables)
    ensures CoreMeans(GrammarOf(t), Reading())
  {
    TextsMean(100);
    TextsMean(2_000);
    LabelsMeanAll(t);
    RolesMeanAll(t);
    SpacesMeanAll();
    MemoryTypesMeanAll();
    ActivityTypesMeanAll();
    DecisionMethodsMeanAll();
    IntentsMeanAll();
    WorkflowsMeanAll();
  }

  lemma ExtensionMeansAll(t: Tables, roles: seq<Role>)
    ensures ExtensionMeans(GrammarOf(t), Reading(), roles)
  {
    ThemeMeansAll();
    PoliciesMeanAll();
    ConnectionsMeanAll(t);
    LifecycleMeansAll();
    RetentionMeansAll();
    ExportMeansAll();
    AgentsMeanAll(t, roles);
    AgentMeansAll(t, roles);
    LegacyAgentMeansAll(t, roles);
  }

  lemma UpgradeFixedPartsOk(c: Core, suggested: Option<Agent>)
    requires c.decisionMethods != []
    ensures FixedPartsOk(Upgrade(c, suggested))
  {
    DefaultThemeOk();
    DefaultLifecyclesOk();
    DefaultPoliciesOk();
  }

  lemma UpgradeOk(t: Tables, c: Core, suggested: Option<Agent>)
    requires c.decisionMethods != [] && IsKey(c.decisionMethods[0].key)
    ensures ExtensionOk(t, Upgrade(c, suggested)) <==> (suggested.Some? ==> AgentShapeOk(suggested.value))
  {
    UpgradeFixedPartsOk(c, suggested);
    ExternalActionOk(c.decisionMethods[0].key);
  }

  lemma FirstMethodOk(t: Tables, c: Core)
    requires CoreOk(t, c)
    ensures c.decisionMethods != [] && IsKey(c.decisionMethods[0].key)
  {
    assert c.decisionMethods[0] in c.decisionMethods;
  }

  /** What survives of an upgraded definition over a proper core is decided by its agent. */
  lemma UpgradedOkIff(t: Tables, d: Definition)
    requires CoreOk(t, d.core) && d.core.decisionMethods != []
    requires |d.extension.agents| <= 1 && d.extension == Upgrade(d.core, OnlyAgent(d.extension))
    ensures (ExtensionOk(t, d.extension) && forall a :: a in d.extension.agents ==> AgentOk(t, d.core.roles, a)) <==>
            (d.extension.agents != [] ==> AgentOk(t, d.core.roles, d.extension.agents[0]))
  {
    FirstMethodOk(t, d.core);
    UpgradeOk(t, d.core, OnlyAgent(d.extension));
  }

  lemma OnlyAgentSurvivesIff(t: Tables, d: Definition)
    ensures OnlyAgentSurvives(GrammarOf(t), d) <==>
            (d.extension.agents != [] ==> AgentOk(t, d.core.roles, d.extension.agents[0]))
  {
    if d.extension.agents != [] {
      AgentAgain(t, d.core.roles, d.extension.agents[0]);
    }
  }

  lemma UpgradedSurvivesIff(t: Tables, d: Definition)
    ensures UpgradeSurvivesIff(GrammarOf(t), d)
  {
    CoreOkIff(t, d.core);
    SurvivesIff(t, d);
    if && CoreOk(t, d.core) && |d.extension.agents| <= 1 && d.core.decisionMethods != []
       && d.extension == Upgrade(d.core, OnlyAgent(d.extension)) {
      UpgradedOkIff(t, d);
      OnlyAgentSurvivesIff(t, d);
    }
  }

  lemma FirstOfAgentsSurvives(t: Tables, roles: seq<Role>, x: Extension)
    ensures ExtensionSurvives(GrammarOf(t), roles, x) ==> FirstAgentSurvives(GrammarOf(t), roles, x)
  {
    if ExtensionSurvives(GrammarOf(t), roles, x) && x.agents != [] {
      FirstSurvives(t, roles, x.agents);
    }
  }

  lemma WellFormedIff(t: Tables, d: Definition)
    ensures DefinitionSurvives(GrammarOf(t), d) && Sound(d) <==> WellFormed(t, d)
  {
    NormalFormIff(GrammarOf(t), d);
    NormalFormsAreWellFormed(t, d);
  }

  /**
   The parser, in full: it returns `d` exactly when `v` reads as `d` by schema 1 or 2 and `d` is well
   formed. Nothing else is refused, and nothing is returned that was not written.
   */
  lemma ParseMeans(t: Tables, v: Json, d: Definition)
    ensures Parse(t, v) == Some(d) <==>
            (Schema1Reads(Reading(), v, d) || Schema2Reads(Reading(), v, d)) && WellFormed(t, d)
  {
    CoreMeansAll(t);
    ExtensionMeansAll(t, d.core.roles);
    UpgradedSurvivesIff(t, d);
    FirstOfAgentsSurvives(t, d.core.roles, d.extension);
    DefinitionReadsIff(GrammarOf(t), Reading(), v, d);
    WellFormedIff(t, d);
  }
}
