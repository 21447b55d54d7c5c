/**
 The whole blueprint definition, over the parsers of its parts. Nothing here depends on how a
 part is parsed, only on a parsed part surviving its own rendering.
 */
module BlueprintGrammar {
  import opened Options
  import opened BlueprintJson
  import opened Blueprints
  import BlueprintSpaces

  /** The parsers of the parts. Agents are parsed against the roles; schema 1 has a parser of its own for them. */
  datatype Grammar = Grammar(
    name: Codec<string>, purpose: Codec<string>, description: Codec<string>, labels: Codec<Labels>,
    roles: Codec<seq<Role>>, spaces: Codec<seq<Space>>, memoryTypes: Codec<seq<MemoryType>>,
    activityTypes: Codec<seq<ActivityType>>, decisionMethods: Codec<seq<DecisionMethod>>,
    intents: Codec<seq<string>>, workflows: Codec<seq<Workflow>>,
    theme: Codec<Theme>, policies: Codec<seq<Policy>>, connections: Codec<seq<Connection>>,
    lifecycle: Codec<Lifecycle>, retention: Codec<Retention>, export_: Codec<Export>,
    legacyAgent: seq<Role> -> Codec<Agent>, agent: seq<Role> -> Codec<Agent>, agents: seq<Role> -> Codec<seq<Agent>>)

  // ----- the core, common to both schemas -----

  function ParseCore(g: Grammar, fields: map<Field, Json>): Option<Core>
    requires CORE_FIELDS <= fields.Keys
  {
    var labels :- g.labels.parse(fields[FLabels]);
    var roles :- g.roles.parse(fields[FRoles]);
    var spaces :- g.spaces.parse(fields[FSpaces]);
    var memoryTypes :- g.memoryTypes.parse(fields[FMemoryTypes]);
    var activityTypes :- g.activityTypes.parse(fields[FActivityTypes]);
    var decisionMethods :- g.decisionMethods.parse(fields[FDecisionMethods]);
    var workflows :- g.workflows.parse(fields[FWorkflows]);
    var intents :- g.intents.parse(fields[FDashboardIntents]);
    var name :- g.name.parse(fields[FName]);
    var purpose :- g.purpose.parse(fields[FPurpose]);
    var description :- g.description.parse(fields[FDescription]);
    Some(Core(name, purpose, description, labels, roles, spaces, memoryTypes, activityTypes, decisionMethods,
              intents, workflows))
  }

  function CoreJson(g: Grammar, c: Core): map<Field, Json> {
    map[FName := g.name.render(c.name), FPurpose := g.purpose.render(c.purpose),
        FDescription := g.description.render(c.description), FLabels := g.labels.render(c.labels),
        FRoles := g.roles.render(c.roles), FSpaces := g.spaces.render(c.spaces),
        FMemoryTypes := g.memoryTypes.render(c.memoryTypes), FActivityTypes := g.activityTypes.render(c.activityTypes),
        FDecisionMethods := g.decisionMethods.render(c.decisionMethods),
        FDashboardIntents := g.intents.render(c.intents), FWorkflows := g.workflows.render(c.workflows)]
  }

  ghost predicate GoodCore(g: Grammar) {
    && Good(g.name) && Good(g.purpose) && Good(g.description) && Good(g.labels) && Good(g.roles) && Good(g.spaces)
    && Good(g.memoryTypes) && Good(g.activityTypes) && Good(g.decisionMethods) && Good(g.intents) && Good(g.workflows)
  }

  /** `rendered` agrees with `part` on every field of `part`. */
  ghost predicate Carries(rendered: map<Field, Json>, part: map<Field, Json>) {
    forall f :: f in part ==> f in rendered && rendered[f] == part[f]
  }

  ghost predicate CoreSurvives(g: Grammar, c: Core) {
    && Survives(g.name, c.name) && Survives(g.purpose, c.purpose) && Survives(g.description, c.description)
    && Survives(g.labels, c.labels) && Survives(g.roles, c.roles) && Survives(g.spaces, c.spaces)
    && Survives(g.memoryTypes, c.memoryTypes) && Survives(g.activityTypes, c.activityTypes)
    && Survives(g.decisionMethods, c.decisionMethods) && Survives(g.intents, c.intents)
    && Survives(g.workflows, c.workflows)
  }

  lemma CoreByParts(g: Grammar, c: Core, rendered: map<Field, Json>)
    requires CORE_FIELDS <= rendered.Keys && Carries(rendered, CoreJson(g, c))
    ensures ParseCore(g, rendered) == Some(c) <==> CoreSurvives(g, c)
  {
  }

  lemma ParsedCoreSurvives(g: Grammar, fields: map<Field, Json>, c: Core)
    requires GoodCore(g) && CORE_FIELDS <= fields.Keys && ParseCore(g, fields) == Some(c)
    ensures CoreSurvives(g, c)
  {
  }

  predicate UniqueBy<T>(values: seq<T>, key: T -> string) {
    forall i, j :: 0 <= i < j < |values| ==> key(values[i]) != key(values[j])
  }

  predicate Refers<T>(reference: Option<string>, values: seq<T>, key: T -> string) {
    reference.Some? ==> exists i :: 0 <= i < |values| && key(values[i]) == reference.value
  }

  /** The checks across the parts of the core, apart from those on Spaces. */
  predicate CoreConsistent(c: Core) {
    && c.decisionMethods != []
    && UniqueBy(c.roles, (r: Role) => r.key)
    && UniqueBy(c.memoryTypes, (m: MemoryType) => m.typeName)
    && UniqueBy(c.activityTypes, (a: ActivityType) => a.typeName)
    && UniqueBy(c.decisionMethods, (d: DecisionMethod) => d.key)
    && UniqueBy(c.workflows, (w: Workflow) => w.key)
    && Distinct(c.intents)
    && forall w :: w in c.workflows ==>
         && Refers(w.memoryType, c.memoryTypes, (m: MemoryType) => m.typeName)
         && Refers(w.activityType, c.activityTypes, (a: ActivityType) => a.typeName)
         && Refers(w.decisionMethodKey, c.decisionMethods, (d: DecisionMethod) => d.key)
  }

  ghost predicate CoreSound(c: Core) {
    CoreConsistent(c) && BlueprintSpaces.UniqueKeys(c.spaces) && BlueprintSpaces.Hierarchy(c.spaces)
  }

  // ----- the extension: the parts that schema 2 added -----

  datatype Extension = Extension(theme: Theme, policies: seq<Policy>, connections: seq<Connection>,
                                 onboarding: Lifecycle, offboarding: Lifecycle, retention: Retention,
                                 export_: Export, agents: seq<Agent>)

  datatype Definition = Definition(core: Core, extension: Extension)

  const EXTENDED_FIELDS: set<Field> := {
    FVisualTheme, FApprovalPolicies, FConnectionSuggestions, FOnboarding, FOffboarding, FRetentionPolicy,
    FExportPolicy, FRecommendedAgents}

  function ParseExtension(g: Grammar, roles: seq<Role>, fields: map<Field, Json>): Option<Extension>
    requires EXTENDED_FIELDS <= fields.Keys
  {
    var policies :- g.policies.parse(fields[FApprovalPolicies]);
    var agents :- g.agents(roles).parse(fields[FRecommendedAgents]);
    var connections :- g.connections.parse(fields[FConnectionSuggestions]);
    var theme :- g.theme.parse(fields[FVisualTheme]);
    var onboarding :- g.lifecycle.parse(fields[FOnboarding]);
    var offboarding :- g.lifecycle.parse(fields[FOffboarding]);
    var retention :- g.retention.parse(fields[FRetentionPolicy]);
    var export_ :- g.export_.parse(fields[FExportPolicy]);
    Some(Extension(theme, policies, connections, onboarding, offboarding, retention, export_, agents))
  }

  function ExtensionJson(g: Grammar, roles: seq<Role>, x: Extension): map<Field, Json> {
    map[FVisualTheme := g.theme.render(x.theme), FApprovalPolicies := g.policies.render(x.policies),
        FConnectionSuggestions := g.connections.render(x.connections), FOnboarding := g.lifecycle.render(x.onboarding),
        FOffboarding := g.lifecycle.render(x.offboarding), FRetentionPolicy := g.retention.render(x.retention),
        FExportPolicy := g.export_.render(x.export_), FRecommendedAgents := g.agents(roles).render(x.agents)]
  }

  ghost predicate ExtensionSurvives(g: Grammar, roles: seq<Role>, x: Extension) {
    && Survives(g.theme, x.theme) && Survives(g.policies, x.policies) && Survives(g.connections, x.connections)
    && Survives(g.lifecycle, x.onboarding) && Survives(g.lifecycle, x.offboarding)
    && Survives(g.retention, x.retention) && Survives(g.export_, x.export_) && Survives(g.agents(roles), x.agents)
  }

  /** The first agent survives on its own, as the suggested agent. */
  ghost predicate FirstAgentSurvives(g: Grammar, roles: seq<Role>, x: Extension) {
    x.agents != [] ==> Survives(g.agent(roles), x.agents[0])
  }

  lemma ExtensionByParts(g: Grammar, roles: seq<Role>, x: Extension, rendered: map<Field, Json>)
    requires EXTENDED_FIELDS <= rendered.Keys && Carries(rendered, ExtensionJson(g, roles, x))
    ensures ParseExtension(g, roles, rendered) == Some(x) <==> ExtensionSurvives(g, roles, x)
  {
  }

  ghost predicate GoodExtension(g: Grammar, roles: seq<Role>) {
    && Good(g.theme) && Good(g.policies) && Good(g.connections) && Good(g.lifecycle) && Good(g.retention)
    && Good(g.export_) && Good(g.agents(roles))
    && forall v :: g.agents(roles).parse(v).Some? ==>
         var agents := g.agents(roles).parse(v).value;
         agents != [] ==> Survives(g.agent(roles), agents[0])
  }

  lemma ParsedExtensionSurvives(g: Grammar, roles: seq<Role>, fields: map<Field, Json>, x: Extension)
    requires GoodExtension(g, roles)
    requires EXTENDED_FIELDS <= fields.Keys && ParseExtension(g, roles, fields) == Some(x)
    ensures ExtensionSurvives(g, roles, x) && FirstAgentSurvives(g, roles, x)
  {
  }

  predicate RisksCovered(policies: seq<Policy>) {
    forall p :: p in policies && p.riskLevel >= 2 ==> p.humanRequired && p.minimumApprovals >= 1
  }

  /** The checks across the parts of the extension and against the core. */
  predicate ExtensionSound(c: Core, x: Extension) {
    && UniqueBy(x.policies, (p: Policy) => p.key)
    && (forall p :: p in x.policies ==>
          Refers(Some(p.decisionMethodKey), c.decisionMethods, (d: DecisionMethod) => d.key))
    && RisksCovered(x.policies)
    && UniqueBy(x.agents, (a: Agent) => a.name)
    && (forall a :: a in x.agents ==> Refers(Some(a.approvalPolicyKey), x.policies, (p: Policy) => p.key))
    && UniqueBy(x.connections, (k: Connection) => k.key)
    && forall k :: k in x.connections && "connection.execute" in k.allowlist ==> k.approvalRequired
  }

  // ----- the upgrade of schema 1 -----

  function ExternalActionPolicy(decisionMethodKey: string): Policy {
    Policy(EXTERNAL_ACTION, "Human approval for external action",
           "External writes require explicit Human approval before execution.", 2, decisionMethodKey, 1, true)
  }

  const DEFAULT_THEME := Theme("system", "blue", "Use the purchaser's system appearance with a restrained accent.")
  const DEFAULT_ONBOARDING := Lifecycle(
    "Join this collective", "Learn the shared purpose and the context needed for the first activity.",
    ["Review the purpose", "Read required Memory", "Start the first Activity"])
  const DEFAULT_OFFBOARDING := Lifecycle(
    "Leave this collective", "Revoke access and hand over shared Activity and Memory safely.",
    ["Stop access and Runs", "Hand over open Activity", "Record the transition"])
  const DEFAULT_RETENTION := Retention(
    2_555, "Retain shared records according to the Constitution and review before deletion.")
  const DEFAULT_EXPORT := Export(["json", "markdown", "csv", "files"], true, "explicit-consent")

  /** What a schema 1 definition gets for the parts it could not name. */
  function Upgrade(c: Core, suggested: Option<Agent>): Extension
    requires c.decisionMethods != []
  {
    Extension(DEFAULT_THEME, [ExternalActionPolicy(c.decisionMethods[0].key)], [], DEFAULT_ONBOARDING,
              DEFAULT_OFFBOARDING, DEFAULT_RETENTION, DEFAULT_EXPORT,
              if suggested.Some? then [suggested.value] else [])
  }

  /**
   The upgrade refuses a consistent schema 1 blueprint only when its agent names an approval
   policy other than the one the upgrade adds.
   */
  lemma UpgradeSoundIff(c: Core, suggested: Option<Agent>)
    requires CoreConsistent(c)
    ensures ExtensionSound(c, Upgrade(c, suggested))
      <==> (suggested.Some? ==> suggested.value.approvalPolicyKey == EXTERNAL_ACTION)
  {
  }

  // ----- the definition -----

  /** The fields of schema 1, and those of schema 2. */
  const BASE_FIELDS: set<Field> := {
    FSchemaVersion, FSuggestedAgent, FName, FPurpose, FDescription, FLabels, FRoles, FSpaces, FMemoryTypes,
    FActivityTypes, FDecisionMethods, FDashboardIntents, FWorkflows}
  const ALL_FIELDS: set<Field> := {
    FSchemaVersion, FSuggestedAgent, FName, FPurpose, FDescription, FLabels, FRoles, FSpaces, FMemoryTypes,
    FActivityTypes, FDecisionMethods, FDashboardIntents, FWorkflows, FVisualTheme, FApprovalPolicies,
    FConnectionSuggestions, FOnboarding, FOffboarding, FRetentionPolicy, FExportPolicy, FRecommendedAgents}

  function SuggestedAgent(x: Extension): Option<Agent> {
    if x.agents == [] then None else Some(x.agents[0])
  }

  ghost function ParseSchema1(g: Grammar, v: Json): Option<Definition> {
    if !HasFields(v, BASE_FIELDS, {}) then None
    else
      var core :- ParseCore(g, v.fields);
      var suggested :- Nullable(g.legacyAgent(core.roles).parse, v.fields[FSuggestedAgent]);
      if !CoreSound(core) then None
      else
        var extension := Upgrade(core, suggested);
        if ExtensionSound(core, extension) then Some(Definition(core, extension)) else None
  }

  ghost function ParseSchema2(g: Grammar, v: Json): Option<Definition> {
    if !HasFields(v, ALL_FIELDS, {}) then None
    else
      var core :- ParseCore(g, v.fields);
      var suggested :- Nullable(g.agent(core.roles).parse, v.fields[FSuggestedAgent]);
      var extension :- ParseExtension(g, core.roles, v.fields);
      if CoreSound(core) && ExtensionSound(core, extension) &&
         (suggested.Some? ==> suggested == SuggestedAgent(extension))
      then Some(Definition(core, extension)) else None
  }

  /** What `parseCollectiveBlueprintDefinition` returns; None is a thrown error. */
  ghost function ParseDefinition(g: Grammar, v: Json): Option<Definition> {
    if !v.Obj? || FSchemaVersion !in v.fields then None
    else if v.fields[FSchemaVersion] == Int(1) then ParseSchema1(g, v)
    else if v.fields[FSchemaVersion] == Int(2) then ParseSchema2(g, v)
    else None
  }

  function SuggestedAgentJson(g: Grammar, d: Definition): Json {
    if d.extension.agents == [] then Null else g.agent(d.core.roles).render(d.extension.agents[0])
  }

  /** The returned definition as a value that can be parsed again. */
  function DefinitionJson(g: Grammar, d: Definition): Json {
    Obj(CoreJson(g, d.core) + ExtensionJson(g, d.core.roles, d.extension) +
        map[FSchemaVersion := Int(2), FSuggestedAgent := SuggestedAgentJson(g, d)])
  }

  lemma FieldNames(g: Grammar, d: Definition)
    ensures CoreJson(g, d.core).Keys == CORE_FIELDS
    ensures ExtensionJson(g, d.core.roles, d.extension).Keys == EXTENDED_FIELDS
  {
  }

  lemma FieldNamesAreDisjoint()
    ensures CORE_FIELDS !! EXTENDED_FIELDS
    ensures {FSchemaVersion, FSuggestedAgent} !! CORE_FIELDS + EXTENDED_FIELDS
  {
  }

  lemma FieldNamesAreAll()
    ensures CORE_FIELDS + EXTENDED_FIELDS + {FSchemaVersion, FSuggestedAgent} == ALL_FIELDS
  {
  }

  lemma Joined(a: map<Field, Json>, b: map<Field, Json>, c: map<Field, Json>)
    requires a.Keys !! b.Keys && c.Keys !! a.Keys + b.Keys
    ensures Carries(a + b + c, a) && Carries(a + b + c, b) && Carries(a + b + c, c)
    ensures (a + b + c).Keys == a.Keys + b.Keys + c.Keys
  {
  }

  /** `v` has exactly the schema 2 fields, holding the parts of `d`. */
  ghost predicate Spells(g: Grammar, v: Json, d: Definition) {
    && HasFields(v, ALL_FIELDS, {})
    && Carries(v.fields, CoreJson(g, d.core))
    && Carries(v.fields, ExtensionJson(g, d.core.roles, d.extension))
    && v.fields[FSchemaVersion] == Int(2) && v.fields[FSuggestedAgent] == SuggestedAgentJson(g, d)
  }

  lemma HeaderCarried(fields: map<Field, Json>, header: map<Field, Json>)
    requires Carries(fields, header) && header.Keys == {FSchemaVersion, FSuggestedAgent}
    ensures header.Keys <= fields.Keys
    ensures fields[FSchemaVersion] == header[FSchemaVersion] && fields[FSuggestedAgent] == header[FSuggestedAgent]
  {
  }

  ghost predicate Assembles(fields: map<Field, Json>, core: map<Field, Json>, extension: map<Field, Json>,
                            suggested: Json) {
    && fields.Keys == ALL_FIELDS && Carries(fields, core) && Carries(fields, extension)
    && fields[FSchemaVersion] == Int(2) && fields[FSuggestedAgent] == suggested
  }

  lemma Assembled(core: map<Field, Json>, extension: map<Field, Json>, suggested: Json)
    requires core.Keys == CORE_FIELDS && extension.Keys == EXTENDED_FIELDS
    ensures Assembles(core + extension + map[FSchemaVersion := Int(2), FSuggestedAgent := suggested],
                      core, extension, suggested)
  {
    var header := map[FSchemaVersion := Int(2), FSuggestedAgent := suggested];
    assert header.Keys == {FSchemaVersion, FSuggestedAgent};
    FieldNamesAreDisjoint();
    FieldNamesAreAll();
    Joined(core, extension, header);
    HeaderCarried(core + extension + header, header);
  }

  lemma AssembledSpells(g: Grammar, d: Definition, fields: map<Field, Json>)
    requires Assembles(fields, CoreJson(g, d.core), ExtensionJson(g, d.core.roles, d.extension),
                       SuggestedAgentJson(g, d))
    ensures Spells(g, Obj(fields), d)
  {
  }

  lemma DefinitionJsonSpells(g: Grammar, d: Definition)
    ensures Spells(g, DefinitionJson(g, d), d)
  {
    FieldNames(g, d);
    Assembled(CoreJson(g, d.core), ExtensionJson(g, d.core.roles, d.extension), SuggestedAgentJson(g, d));
    AssembledSpells(g, d, DefinitionJson(g, d).fields);
  }

  lemma SuggestedAgentAgain(g: Grammar, d: Definition)
    requires d.extension.agents != [] ==> SuggestedAgentJson(g, d) != Null
    ensures var suggested := Nullable(g.agent(d.core.roles).parse, SuggestedAgentJson(g, d));
      && (suggested == Some(SuggestedAgent(d.extension)) <==> FirstAgentSurvives(g, d.core.roles, d.extension))
      && (suggested.Some? ==> (suggested.value.None? <==> d.extension.agents == []))
  {
  }

  /** The parts of `v`, each parsed, are those of `d`. */
  ghost predicate Reads(g: Grammar, v: Json, d: Definition) {
    && HasFields(v, ALL_FIELDS, {}) && v.fields[FSchemaVersion] == Int(2)
    && ParseCore(g, v.fields) == Some(d.core)
    && ParseExtension(g, d.core.roles, v.fields) == Some(d.extension)
    && Nullable(g.agent(d.core.roles).parse, v.fields[FSuggestedAgent]) == Some(SuggestedAgent(d.extension))
  }

  ghost predicate DefinitionSurvives(g: Grammar, d: Definition) {
    && CoreSurvives(g, d.core) && ExtensionSurvives(g, d.core.roles, d.extension)
    && FirstAgentSurvives(g, d.core.roles, d.extension)
  }

  lemma SpellingReads(g: Grammar, d: Definition, v: Json)
    requires Spells(g, v, d) && (d.extension.agents != [] ==> SuggestedAgentJson(g, d) != Null)
    ensures Reads(g, v, d) <==> DefinitionSurvives(g, d)
  {
    CoreByParts(g, d.core, v.fields);
    ExtensionByParts(g, d.core.roles, d.extension, v.fields);
    SuggestedAgentAgain(g, d);
  }

  lemma ReadingParses(g: Grammar, v: Json, d: Definition)
    requires Reads(g, v, d) && CoreSound(d.core) && ExtensionSound(d.core, d.extension)
    ensures ParseDefinition(g, v) == Some(d)
  {
  }

  lemma Schema2Parts(g: Grammar, v: Json, d: Definition)
    requires ParseSchema2(g, v) == Some(d)
    ensures HasFields(v, ALL_FIELDS, {})
    ensures ParseCore(g, v.fields) == Some(d.core) && CoreSound(d.core)
    ensures ParseExtension(g, d.core.roles, v.fields) == Some(d.extension) && ExtensionSound(d.core, d.extension)
    ensures var suggested := Nullable(g.agent(d.core.roles).parse, v.fields[FSuggestedAgent]);
      suggested.Some? && (suggested.value.Some? ==> suggested.value == SuggestedAgent(d.extension))
  {
  }

  lemma ParsingReads(g: Grammar, v: Json, d: Definition)
    requires Spells(g, v, d) && (d.extension.agents != [] ==> SuggestedAgentJson(g, d) != Null)
    requires ParseDefinition(g, v) == Some(d)
    ensures Reads(g, v, d) && CoreSound(d.core) && ExtensionSound(d.core, d.extension)
  {
    Schema2Parts(g, v, d);
    SuggestedAgentAgain(g, d);
  }

  /** The normal forms: a definition is parsed to itself exactly when its parts are and its checks pass. */
  lemma NormalFormIff(g: Grammar, d: Definition)
    requires d.extension.agents != [] ==> SuggestedAgentJson(g, d) != Null
    ensures ParseDefinition(g, DefinitionJson(g, d)) == Some(d) <==>
            DefinitionSurvives(g, d) && CoreSound(d.core) && ExtensionSound(d.core, d.extension)
  {
    var v := DefinitionJson(g, d);
    DefinitionJsonSpells(g, d);
    SpellingReads(g, d, v);
    if ParseDefinition(g, v) == Some(d) {
      ParsingReads(g, v, d);
    }
    if Reads(g, v, d) && CoreSound(d.core) && ExtensionSound(d.core, d.extension) {
      ReadingParses(g, v, d);
    }
  }

  // ----- both schemas -----

  /** The input `v` with its Spaces spelled differently. */
  function WithSpaces(v: Json, spaces: Json): Json
    requires v.Obj?
  {
    Obj(v.fields[FSpaces := spaces])
  }

  /** Any other spelling of the Spaces that is parsed to the same Spaces is as good. */
  lemma SpacesRespelled(g: Grammar, d: Definition, spaces: Json)
    requires d.extension.agents != [] ==> SuggestedAgentJson(g, d) != Null
    requires ParseDefinition(g, DefinitionJson(g, d)) == Some(d) && g.spaces.parse(spaces) == Some(d.core.spaces)
    ensures ParseDefinition(g, WithSpaces(DefinitionJson(g, d), spaces)) == Some(d)
  {
    DefinitionJsonSpells(g, d);
    ParsingReads(g, DefinitionJson(g, d), d);
    ReadingRespelled(g, DefinitionJson(g, d), d, spaces);
    ReadingParses(g, WithSpaces(DefinitionJson(g, d), spaces), d);
  }

  lemma ReadingRespelled(g: Grammar, v: Json, d: Definition, spaces: Json)
    requires Reads(g, v, d) && g.spaces.parse(spaces) == Some(d.core.spaces)
    ensures Reads(g, WithSpaces(v, spaces), d)
  {
    var other := WithSpaces(v, spaces).fields;
    OtherFields(v.fields, spaces);
    CoreRespelled(g, v.fields, other, d.core);
    ExtensionRespelled(g, d.core.roles, v.fields, other);
  }

  lemma OtherFields(fields: map<Field, Json>, spaces: Json)
    requires fields.Keys == ALL_FIELDS
    ensures fields[FSpaces := spaces].Keys == fields.Keys
    ensures forall f :: f in fields && f != FSpaces ==> fields[FSpaces := spaces][f] == fields[f]
  {
  }

  lemma CoreRespelled(g: Grammar, fields: map<Field, Json>, other: map<Field, Json>, c: Core)
    requires CORE_FIELDS <= fields.Keys == other.Keys && ParseCore(g, fields) == Some(c)
    requires forall f :: f in fields && f != FSpaces ==> other[f] == fields[f]
    requires g.spaces.parse(other[FSpaces]) == Some(c.spaces)
    ensures ParseCore(g, other) == Some(c)
  {
  }

  lemma ExtensionRespelled(g: Grammar, roles: seq<Role>, fields: map<Field, Json>, other: map<Field, Json>)
    requires EXTENDED_FIELDS <= fields.Keys == other.Keys
    requires forall f :: f in fields && f != FSpaces ==> other[f] == fields[f]
    ensures ParseExtension(g, roles, other) == ParseExtension(g, roles, fields)
  {
  }

  /** What parsing a schema 1 agent and filling in its defaults must leave intact. */
  ghost predicate GoodLegacyAgent(g: Grammar, roles: seq<Role>) {
    forall v :: g.legacyAgent(roles).parse(v).Some? ==>
      var a := g.legacyAgent(roles).parse(v).value;
      Survives(g.agent(roles), a) && Survives(g.agents(roles), [a])
  }

  /** The constants of the upgrade are acceptable to the parsers of schema 2. */
  ghost predicate DefaultsSurvive(g: Grammar) {
    && Survives(g.theme, DEFAULT_THEME) && Survives(g.connections, [])
    && Survives(g.lifecycle, DEFAULT_ONBOARDING) && Survives(g.lifecycle, DEFAULT_OFFBOARDING)
    && Survives(g.retention, DEFAULT_RETENTION) && Survives(g.export_, DEFAULT_EXPORT)
    && forall v :: g.decisionMethods.parse(v).Some? ==>
         var methods := g.decisionMethods.parse(v).value;
         methods != [] ==> Survives(g.policies, [ExternalActionPolicy(methods[0].key)])
  }

  ghost predicate GoodAgents(g: Grammar, roles: seq<Role>) {
    && GoodExtension(g, roles) && GoodLegacyAgent(g, roles) && Survives(g.agents(roles), [])
    && forall a :: g.agent(roles).render(a) != Null
  }

  ghost predicate GoodGrammar(g: Grammar) {
    GoodCore(g) && DefaultsSurvive(g) && forall roles :: GoodAgents(g, roles)
  }

  lemma ParsedMethods(g: Grammar, fields: map<Field, Json>, c: Core)
    requires CORE_FIELDS <= fields.Keys && ParseCore(g, fields) == Some(c)
    ensures g.decisionMethods.parse(fields[FDecisionMethods]) == Some(c.decisionMethods)
  {
  }

  lemma UpgradeSurvives(g: Grammar, fields: map<Field, Json>, c: Core, agentJson: Json, suggested: Option<Agent>)
    requires DefaultsSurvive(g) && GoodAgents(g, c.roles)
    requires CORE_FIELDS <= fields.Keys && ParseCore(g, fields) == Some(c) && c.decisionMethods != []
    requires Nullable(g.legacyAgent(c.roles).parse, agentJson) == Some(suggested)
    ensures ExtensionSurvives(g, c.roles, Upgrade(c, suggested))
    ensures FirstAgentSurvives(g, c.roles, Upgrade(c, suggested))
  {
    ParsedMethods(g, fields, c);
  }

  /** Everything a successful parse establishes. */
  ghost predicate Parsed(g: Grammar, v: Json, d: Definition) {
    && v.Obj? && CORE_FIELDS <= v.fields.Keys && ParseCore(g, v.fields) == Some(d.core)
    && DefinitionSurvives(g, d)
    && CoreSound(d.core) && ExtensionSound(d.core, d.extension)
  }

  lemma Schema1Parsed(g: Grammar, v: Json, d: Definition)
    requires GoodGrammar(g) && ParseSchema1(g, v) == Some(d)
    ensures Parsed(g, v, d)
  {
    assert GoodAgents(g, d.core.roles);
    var suggested := Nullable(g.legacyAgent(d.core.roles).parse, v.fields[FSuggestedAgent]).value;
    UpgradeSurvives(g, v.fields, d.core, v.fields[FSuggestedAgent], suggested);
    ParsedCoreSurvives(g, v.fields, d.core);
  }

  lemma Schema2Parsed(g: Grammar, v: Json, d: Definition)
    requires GoodGrammar(g) && ParseSchema2(g, v) == Some(d)
    ensures Parsed(g, v, d)
  {
    assert GoodAgents(g, d.core.roles);
    ParsedExtensionSurvives(g, d.core.roles, v.fields, d.extension);
    ParsedCoreSurvives(g, v.fields, d.core);
  }

  lemma ParsedDefinition(g: Grammar, v: Json, d: Definition)
    requires GoodGrammar(g) && ParseDefinition(g, v) == Some(d)
    ensures Parsed(g, v, d)
  {
    if v.fields[FSchemaVersion] == Int(1) {
      Schema1Parsed(g, v, d);
    } else {
      Schema2Parsed(g, v, d);
    }
  }

  lemma SuggestedAgentIsNoNull(g: Grammar, d: Definition)
    requires GoodGrammar(g)
    ensures d.extension.agents != [] ==> SuggestedAgentJson(g, d) != Null
  {
    assert GoodAgents(g, d.core.roles);
  }

  /** Whatever is parsed, from either schema, parses to itself. */
  lemma DefinitionStable(g: Grammar, v: Json, d: Definition)
    requires GoodGrammar(g) && ParseDefinition(g, v) == Some(d)
    ensures ParseDefinition(g, DefinitionJson(g, d)) == Some(d)
  {
    ParsedDefinition(g, v, d);
    SuggestedAgentIsNoNull(g, d);
    NormalFormIff(g, d);
  }

  /** The parser's steps in the source's order, with the Space loop in its place; None is a thrown error. */
  method ParseWith(g: Grammar, v: Json) returns (r: Option<Definition>)
    ensures r == ParseDefinition(g, v)
  {
    if !v.Obj? || FSchemaVersion !in v.fields {
      return None;
    }
    var legacy := v.fields[FSchemaVersion] == Int(1);
    if !legacy && v.fields[FSchemaVersion] != Int(2) {
      return None;
    }
    if !HasFields(v, if legacy then BASE_FIELDS else ALL_FIELDS, {}) {
      return None;
    }
    var core := ParseCore(g, v.fields);
    if core.None? || !CoreConsistent(core.value) {
      return None;
    }
    var spacesOk := BlueprintSpaces.CheckSpaces(core.value.spaces);
    if !spacesOk {
      return None;
    }
    var roles := core.value.roles;
    var agent := if legacy then g.legacyAgent(roles) else g.agent(roles);
    var suggested := Nullable(agent.parse, v.fields[FSuggestedAgent]);
    if suggested.None? {
      return None;
    }
    var extension := if legacy then Some(Upgrade(core.value, suggested.value)) else ParseExtension(g, roles, v.fields);
    if extension.None? || !ExtensionSound(core.value, extension.value) {
      return None;
    }
    if !legacy && suggested.value.Some? && suggested.value != SuggestedAgent(extension.value) {
      return None;
    }
    return Some(Definition(core.value, extension.value));
  }
}
