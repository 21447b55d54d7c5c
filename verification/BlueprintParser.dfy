/** The blueprint parser itself: the grammar over the concrete parsers, and what parsing guarantees. */
module BlueprintParser {
  import opened Options
  import opened BlueprintJson
  import opened Blueprints
  import opened BlueprintForms
  import opened BlueprintGrammar
  import BlueprintSpaces

  /** The parsers that `parseCollectiveBlueprintDefinition` applies to each part. */
  function GrammarOf(t: Tables): Grammar {
    Grammar(
      TextCodec(100), TextCodec(2_000), TextCodec(2_000), LabelsCodec(t), RolesCodec(t), SpacesCodec(),
      MemoryTypesCodec(), ActivityTypesCodec(), DecisionMethodsCodec(), IntentsCodec(), WorkflowsCodec(),
      Codec(ParseTheme, ThemeJson), PoliciesCodec(), ConnectionsCodec(t), Codec(ParseLifecycle, LifecycleJson),
      Codec(ParseRetention, RetentionJson), Codec(ParseExport, ExportJson),
      roles => AgentCodec(t, roles, true), roles => AgentCodec(t, roles, false), roles => AgentsCodec(t, roles))
  }

  // ----- every part survives rendering -----

  lemma TextGood(max: nat)
    ensures Good(TextCodec(max))
  {
  }

  lemma CoreIsGood(t: Tables)
    ensures GoodCore(GrammarOf(t))
  {
    TextGood(100);
    TextGood(2_000);
    LabelsGood(t);
    RolesExact(t, []);
    SpacesExact([]);
    MemoryTypesExact([]);
    ActivityTypesExact([]);
    DecisionMethodsExact([]);
    IntentsExact([]);
    WorkflowsExact([]);
  }

  lemma FirstSurvives(t: Tables, roles: seq<Role>, agents: seq<Agent>)
    requires Survives(AgentsCodec(t, roles), agents) && agents != []
    ensures Survives(AgentCodec(t, roles, false), agents[0])
  {
    AgentsExact(t, roles, agents);
    AgentAgain(t, roles, agents[0]);
  }

  lemma LegacyAgentSurvives(t: Tables, roles: seq<Role>, v: Json)
    requires ParseAgent(t, roles, true, v).Some?
    ensures var a := ParseAgent(t, roles, true, v).value;
      Survives(AgentCodec(t, roles, false), a) && Survives(AgentsCodec(t, roles), [a])
  {
    AgentMeans(t, roles, true, v, ParseAgent(t, roles, true, v).value);
    AgentAgain(t, roles, ParseAgent(t, roles, true, v).value);
    AgentsExact(t, roles, [ParseAgent(t, roles, true, v).value]);
  }

  lemma AgentPartsGood(t: Tables, roles: seq<Role>)
    ensures GoodAgents(GrammarOf(t), roles)
  {
    FixedPartsGood();
    PoliciesExact([]);
    ConnectionsExact(t, []);
    AgentsExact(t, roles, []);
    forall v | AgentsCodec(t, roles).parse(v).Some? && AgentsCodec(t, roles).parse(v).value != []
      ensures Survives(AgentCodec(t, roles, false), AgentsCodec(t, roles).parse(v).value[0])
    {
      FirstSurvives(t, roles, AgentsCodec(t, roles).parse(v).value);
    }
    forall v | ParseAgent(t, roles, true, v).Some? {
      LegacyAgentSurvives(t, roles, v);
    }
  }

  // ----- the constants of the upgrade -----

  // The first letter of a long text is reached over its prefixes.

  lemma ThemeText()
    ensures TextOk("Use the purchaser's system appearance with a restrained accent.", 500)
  {
    assert "Use the purchaser's"[0] == 'U';
    assert "Use the purchaser's system appearance"[0] == 'U';
    assert "Use the purchaser's system appearance with a restrained"[0] == 'U';
  }

  lemma OnboardingText()
    ensures TextOk("Learn the shared purpose and the context needed for the first activity.", 500)
  {
    assert "Learn the shared"[0] == 'L';
    assert "Learn the shared purpose and"[0] == 'L';
    assert "Learn the shared purpose and the context"[0] == 'L';
    assert "Learn the shared purpose and the context needed for the"[0] == 'L';
  }

  lemma OffboardingText()
    ensures TextOk("Revoke access and hand over shared Activity and Memory safely.", 500)
  {
    assert "Revoke access"[0] == 'R';
    assert "Revoke access and hand over"[0] == 'R';
    assert "Revoke access and hand over shared Activity"[0] == 'R';
  }

  lemma RetentionText()
    ensures TextOk("Retain shared records according to the Constitution and review before deletion.", 500)
  {
    assert "Retain shared"[0] == 'R';
    assert "Retain shared records according"[0] == 'R';
    assert "Retain shared records according to the Constitution"[0] == 'R';
    assert "Retain shared records according to the Constitution and review before"[0] == 'R';
  }

  lemma ExternalActionText()
    ensures TextOk("External writes require explicit Human approval before execution.", 500)
  {
    assert "External writes"[0] == 'E';
    assert "External writes require explicit"[0] == 'E';
    assert "External writes require explicit Human approval"[0] == 'E';
  }

  lemma DefaultThemeOk()
    ensures ThemeOk(DEFAULT_THEME)
  {
    ThemeText();
  }

  lemma DefaultLifecyclesOk()
    ensures LifecycleOk(DEFAULT_ONBOARDING) && LifecycleOk(DEFAULT_OFFBOARDING)
  {
    OnboardingText();
    OffboardingText();
  }

  lemma DefaultPoliciesOk()
    ensures RetentionOk(DEFAULT_RETENTION) && ExportOk(DEFAULT_EXPORT)
  {
    RetentionText();
  }

  lemma ExternalActionOk(key: string)
    requires IsKey(key)
    ensures PolicyOk(ExternalActionPolicy(key))
  {
    ExternalActionText();
    ExternalActionIsKey();
  }

  lemma ExternalActionSurvives(key: string)
    requires IsKey(key)
    ensures Survives(PoliciesCodec(), [ExternalActionPolicy(key)])
  {
    PoliciesExact([ExternalActionPolicy(key)]);
    ExternalActionOk(key);
  }

  lemma FirstMethodKey(v: Json)
    requires DecisionMethodsCodec().parse(v).Some?
    ensures var methods := DecisionMethodsCodec().parse(v).value;
      methods != [] && IsKey(methods[0].key)
  {
  }

  /** Every constant of the upgrade is what the parsers of schema 2 accept. */
  lemma UpgradeConstantsSurvive(t: Tables)
    ensures DefaultsSurvive(GrammarOf(t))
  {
    DefaultThemeOk();
    DefaultLifecyclesOk();
    DefaultPoliciesOk();
    ThemeAgain(DEFAULT_THEME);
    LifecycleAgain(DEFAULT_ONBOARDING);
    LifecycleAgain(DEFAULT_OFFBOARDING);
    RetentionAgain(DEFAULT_RETENTION);
    ExportAgain(DEFAULT_EXPORT);
    ConnectionsExact(t, []);
    forall v | DecisionMethodsCodec().parse(v).Some?
      ensures Survives(PoliciesCodec(), [ExternalActionPolicy(DecisionMethodsCodec().parse(v).value[0].key)])
    {
      FirstMethodKey(v);
      ExternalActionSurvives(DecisionMethodsCodec().parse(v).value[0].key);
    }
  }

  lemma GrammarIsGood(t: Tables)
    ensures GoodGrammar(GrammarOf(t))
  {
    CoreIsGood(t);
    UpgradeConstantsSurvive(t);
    forall roles {
      AgentPartsGood(t, roles);
    }
  }

  // ----- the parser -----

  /** What `parseCollectiveBlueprintDefinition` returns for `v`; None is a thrown error. */
  ghost function Parse(t: Tables, v: Json): Option<Definition> {
    ParseDefinition(GrammarOf(t), v)
  }

  /** The returned definition as a value, which is input of schema 2. */
  function ValueOf(t: Tables, d: Definition): Json {
    DefinitionJson(GrammarOf(t), d)
  }

  method ParseCollectiveBlueprintDefinition(t: Tables, v: Json) returns (r: Option<Definition>)
    ensures r == Parse(t, v)
  {
    r := ParseWith(GrammarOf(t), v);
  }

  /** Parsing is a stable normal form: what it returns, from schema 1 or 2, parses to itself. */
  lemma ParsingIsStable(t: Tables, v: Json)
    requires Parse(t, v).Some?
    ensures Parse(t, ValueOf(t, Parse(t, v).value)) == Parse(t, v)
  {
    GrammarIsGood(t);
    DefinitionStable(GrammarOf(t), v, Parse(t, v).value);
  }

  // ----- references -----

  ghost predicate NamesSpace(d: Definition, key: string) {
    exists s :: s in d.core.spaces && s.key == key
  }

  ghost predicate NamesMemoryType(d: Definition, typeName: string) {
    exists m :: m in d.core.memoryTypes && m.typeName == typeName
  }

  ghost predicate NamesActivityType(d: Definition, typeName: string) {
    exists a :: a in d.core.activityTypes && a.typeName == typeName
  }

  ghost predicate NamesMethod(d: Definition, key: string) {
    exists m :: m in d.core.decisionMethods && m.key == key
  }

  ghost predicate NamesPolicy(d: Definition, key: string) {
    exists p :: p in d.extension.policies && p.key == key
  }

  /** Some role of the blueprint backs the agent. */
  ghost predicate AgentIsBacked(t: Tables, d: Definition, a: Agent) {
    exists r :: r in d.core.roles && Backs(t, r, a)
  }

  ghost predicate WorkflowResolves(d: Definition, w: Workflow) {
    && (w.memoryType.Some? ==> NamesMemoryType(d, w.memoryType.value))
    && (w.activityType.Some? ==> NamesActivityType(d, w.activityType.value))
    && (w.decisionMethodKey.Some? ==> NamesMethod(d, w.decisionMethodKey.value))
  }

  ghost predicate ReferencesResolve(t: Tables, d: Definition) {
    && (forall s :: s in d.core.spaces && s.parentKey.Some? ==> NamesSpace(d, s.parentKey.value))
    && (forall w :: w in d.core.workflows ==> WorkflowResolves(d, w))
    && (forall p :: p in d.extension.policies ==> NamesMethod(d, p.decisionMethodKey))
    && (forall a :: a in d.extension.agents ==> AgentIsBacked(t, d, a) && NamesPolicy(d, a.approvalPolicyKey))
  }

  // ----- the well-formed definitions -----

  predicate CoreOk(t: Tables, c: Core) {
    && TextOk(c.name, 100) && TextOk(c.purpose, 2_000) && TextOk(c.description, 2_000) && LabelsOk(t, c.labels)
    && 2 <= |c.roles| <= 8 && (forall x :: x in c.roles ==> RoleOk(t, x))
    && 1 <= |c.spaces| <= 12 && (forall x :: x in c.spaces ==> SpaceOk(x))
    && 1 <= |c.memoryTypes| <= 12 && (forall x :: x in c.memoryTypes ==> MemoryTypeOk(x))
    && 1 <= |c.activityTypes| <= 12 && (forall x :: x in c.activityTypes ==> ActivityTypeOk(x))
    && 1 <= |c.decisionMethods| <= 8 && (forall x :: x in c.decisionMethods ==> DecisionMethodOk(x))
    && 3 <= |c.intents| <= 5 && (forall x :: x in c.intents ==> x in DASHBOARD_INTENTS)
    && 1 <= |c.workflows| <= 12 && (forall x :: x in c.workflows ==> WorkflowOk(x))
  }

  predicate FixedPartsOk(x: Extension) {
    && ThemeOk(x.theme) && LifecycleOk(x.onboarding) && LifecycleOk(x.offboarding)
    && RetentionOk(x.retention) && ExportOk(x.export_)
  }

  predicate ExtensionOk(t: Tables, x: Extension) {
    && FixedPartsOk(x)
    && 1 <= |x.policies| <= 8 && (forall p :: p in x.policies ==> PolicyOk(p))
    && |x.connections| <= 12 && (forall k :: k in x.connections ==> ConnectionOk(t, k))
    && |x.agents| <= 6 && forall a :: a in x.agents ==> AgentShapeOk(a)
  }

  /** Whatever others refer to is named once. */
  predicate NamesAreUnique(d: Definition) {
    && UniqueBy(d.core.roles, (r: Role) => r.key) && BlueprintSpaces.UniqueKeys(d.core.spaces)
    && UniqueBy(d.core.memoryTypes, (m: MemoryType) => m.typeName)
    && UniqueBy(d.core.activityTypes, (a: ActivityType) => a.typeName)
    && UniqueBy(d.core.decisionMethods, (m: DecisionMethod) => m.key)
    && UniqueBy(d.core.workflows, (w: Workflow) => w.key) && Distinct(d.core.intents)
    && UniqueBy(d.extension.policies, (p: Policy) => p.key) && UniqueBy(d.extension.agents, (a: Agent) => a.name)
    && UniqueBy(d.extension.connections, (k: Connection) => k.key)
  }

  /** What acts outside the Guild waits for a Human. */
  predicate HumansDecide(x: Extension) {
    && (forall p :: p in x.policies ==> p.riskLevel < 2 || (p.humanRequired && p.minimumApprovals >= 1))
    && forall k :: k in x.connections ==> k.approvalRequired || "connection.execute" !in k.allowlist
  }

  /**
   A definition as the domain describes it: every part of its form, names unique, the Spaces a
   hierarchy, every reference naming something, and Humans deciding on external action.
   */
  ghost predicate WellFormed(t: Tables, d: Definition) {
    && CoreOk(t, d.core) && ExtensionOk(t, d.extension) && NamesAreUnique(d)
    && BlueprintSpaces.Hierarchy(d.core.spaces) && ReferencesResolve(t, d) && HumansDecide(d.extension)
  }

  lemma TextPartsOkIff(t: Tables, c: Core)
    ensures Survives(GrammarOf(t).name, c.name) <==> TextOk(c.name, 100)
    ensures Survives(GrammarOf(t).purpose, c.purpose) <==> TextOk(c.purpose, 2_000)
    ensures Survives(GrammarOf(t).description, c.description) <==> TextOk(c.description, 2_000)
    ensures Survives(GrammarOf(t).labels, c.labels) <==> LabelsOk(t, c.labels)
  {
    TextAgain(c.name, 100);
    TextAgain(c.purpose, 2_000);
    TextAgain(c.description, 2_000);
    LabelsAgain(t, c.labels);
  }

  lemma CoreOkIff(t: Tables, c: Core)
    ensures CoreSurvives(GrammarOf(t), c) <==> CoreOk(t, c)
  {
    TextPartsOkIff(t, c);
    RolesExact(t, c.roles);
    SpacesExact(c.spaces);
    MemoryTypesExact(c.memoryTypes);
    ActivityTypesExact(c.activityTypes);
    DecisionMethodsExact(c.decisionMethods);
    IntentsExact(c.intents);
    WorkflowsExact(c.workflows);
  }

  lemma FixedPartsOkIff(t: Tables, x: Extension)
    ensures FixedPartsOk(x) <==>
            && Survives(GrammarOf(t).theme, x.theme) && Survives(GrammarOf(t).lifecycle, x.onboarding)
            && Survives(GrammarOf(t).lifecycle, x.offboarding) && Survives(GrammarOf(t).retention, x.retention)
            && Survives(GrammarOf(t).export_, x.export_)
  {
    ThemeAgain(x.theme);
    LifecycleAgain(x.onboarding);
    LifecycleAgain(x.offboarding);
    RetentionAgain(x.retention);
    ExportAgain(x.export_);
  }

  lemma ListPartsOkIff(t: Tables, roles: seq<Role>, x: Extension)
    requires FixedPartsOk(x)
    ensures (&& Survives(GrammarOf(t).policies, x.policies) && Survives(GrammarOf(t).connections, x.connections)
             && Survives(GrammarOf(t).agents(roles), x.agents)) <==>
            ExtensionOk(t, x) && forall a :: a in x.agents ==> AgentOk(t, roles, a)
  {
    PoliciesExact(x.policies);
    ConnectionsExact(t, x.connections);
    AgentsExact(t, roles, x.agents);
  }

  lemma ExtensionOkIff(t: Tables, roles: seq<Role>, x: Extension)
    ensures ExtensionSurvives(GrammarOf(t), roles, x) <==>
            ExtensionOk(t, x) && forall a :: a in x.agents ==> AgentOk(t, roles, a)
  {
    FixedPartsOkIff(t, x);
    if FixedPartsOk(x) {
      ListPartsOkIff(t, roles, x);
    }
  }

  lemma SurvivesIff(t: Tables, d: Definition)
    ensures DefinitionSurvives(GrammarOf(t), d) <==>
            && CoreOk(t, d.core) && ExtensionOk(t, d.extension)
            && forall a :: a in d.extension.agents ==> AgentOk(t, d.core.roles, a)
  {
    CoreOkIff(t, d.core);
    ExtensionOkIff(t, d.core.roles, d.extension);
    if ExtensionSurvives(GrammarOf(t), d.core.roles, d.extension) && d.extension.agents != [] {
      FirstSurvives(t, d.core.roles, d.extension.agents);
    }
  }

  // ----- the checks across parts -----

  lemma {:induction false} FindUniqueRole(roles: seq<Role>, r: Role)
    requires UniqueBy(roles, (x: Role) => x.key) && r in roles
    ensures FindRole(roles, r.key) == Some(r)
  {
    if roles[0] != r {
      var i :| 0 <= i < |roles| && roles[i] == r;
      assert roles[0].key != roles[i].key;
      FindUniqueRole(roles[1..], r);
    }
  }

  /** With unique role keys, the first role of a key is the one that an agent needs. */
  lemma AgentOkIff(t: Tables, d: Definition, a: Agent)
    requires UniqueBy(d.core.roles, (r: Role) => r.key) && forall r :: r in d.core.roles ==> RoleOk(t, r)
    ensures AgentOk(t, d.core.roles, a) <==> AgentShapeOk(a) && AgentIsBacked(t, d, a)
  {
    if r :| r in d.core.roles && Backs(t, r, a) {
      FindUniqueRole(d.core.roles, r);
    }
  }

  lemma WorkflowReferencesIff(d: Definition, w: Workflow)
    ensures WorkflowResolves(d, w) <==>
            && Refers(w.memoryType, d.core.memoryTypes, (m: MemoryType) => m.typeName)
            && Refers(w.activityType, d.core.activityTypes, (a: ActivityType) => a.typeName)
            && Refers(w.decisionMethodKey, d.core.decisionMethods, (m: DecisionMethod) => m.key)
  {
  }

  lemma CoreChecksIff(d: Definition)
    requires d.core.decisionMethods != []
    ensures CoreConsistent(d.core) <==>
            && UniqueBy(d.core.roles, (r: Role) => r.key)
            && UniqueBy(d.core.memoryTypes, (m: MemoryType) => m.typeName)
            && UniqueBy(d.core.activityTypes, (a: ActivityType) => a.typeName)
            && UniqueBy(d.core.decisionMethods, (m: DecisionMethod) => m.key)
            && UniqueBy(d.core.workflows, (w: Workflow) => w.key) && Distinct(d.core.intents)
            && forall w :: w in d.core.workflows ==> WorkflowResolves(d, w)
  {
    forall w: Workflow {
      WorkflowReferencesIff(d, w);
    }
  }

  lemma ExtensionChecksIff(d: Definition)
    ensures ExtensionSound(d.core, d.extension) <==>
            && UniqueBy(d.extension.policies, (p: Policy) => p.key)
            && UniqueBy(d.extension.agents, (a: Agent) => a.name)
            && UniqueBy(d.extension.connections, (k: Connection) => k.key)
            && (forall p :: p in d.extension.policies ==> NamesMethod(d, p.decisionMethodKey))
            && (forall a :: a in d.extension.agents ==> NamesPolicy(d, a.approvalPolicyKey))
            && HumansDecide(d.extension)
  {
  }

  lemma SpaceReferences(d: Definition)
    requires BlueprintSpaces.Hierarchy(d.core.spaces)
    ensures forall s :: s in d.core.spaces && s.parentKey.Some? ==> NamesSpace(d, s.parentKey.value)
  {
  }

  /** The parser's checks, one after another, come to the description. */
  lemma ChecksIff(t: Tables, d: Definition)
    requires CoreOk(t, d.core)
    ensures (&& CoreSound(d.core) && ExtensionSound(d.core, d.extension)
             && ExtensionOk(t, d.extension) && forall a :: a in d.extension.agents ==> AgentOk(t, d.core.roles, a))
            <==> WellFormed(t, d)
  {
    CoreChecksIff(d);
    ExtensionChecksIff(d);
    if BlueprintSpaces.Hierarchy(d.core.spaces) {
      SpaceReferences(d);
    }
    if UniqueBy(d.core.roles, (r: Role) => r.key) {
      forall a: Agent {
        AgentOkIff(t, d, a);
      }
    }
  }

  /**
   The values that parsing leaves as they are stand for exactly the well-formed definitions; with
   `ParsingIsStable`, these are all that the parser ever returns.
   */
  lemma NormalFormsAreWellFormed(t: Tables, d: Definition)
    ensures Parse(t, ValueOf(t, d)) == Some(d) <==> WellFormed(t, d)
  {
    SurvivesIff(t, d);
    NormalFormIff(GrammarOf(t), d);
    if CoreOk(t, d.core) {
      ChecksIff(t, d);
    }
  }

  lemma ParsedIsWellFormed(t: Tables, v: Json)
    requires Parse(t, v).Some?
    ensures WellFormed(t, Parse(t, v).value)
  {
    ParsingIsStable(t, v);
    NormalFormsAreWellFormed(t, Parse(t, v).value);
  }

  /** A parsed definition, upgraded or not, has no dangling reference, and its agents stay within their roles. */
  lemma ReferencesIntact(t: Tables, v: Json)
    requires Parse(t, v).Some?
    ensures ReferencesResolve(t, Parse(t, v).value)
  {
    ParsedIsWellFormed(t, v);
  }

  // ----- the Spaces as they were written -----

  function Written(v: Json): string {
    if v.Str? then v.s else ""
  }

  /** The Space that `v` spells, before any trimming. */
  function WrittenSpace(v: Json): Space {
    if !HasFields(v, {FKey, FName, FDescription, FParentKey}, {}) then BlueprintSpaces.Space("", "", "", None)
    else BlueprintSpaces.Space(Written(v.fields[FKey]), Written(v.fields[FName]), Written(v.fields[FDescription]),
                               if v.fields[FParentKey].Null? then None else Some(Written(v.fields[FParentKey])))
  }

  function WrittenSpaces(v: Json): seq<Space> {
    if v.Obj? && FSpaces in v.fields && v.fields[FSpaces].Arr?
    then seq(|v.fields[FSpaces].items|, i requires 0 <= i < |v.fields[FSpaces].items| =>
                                          WrittenSpace(v.fields[FSpaces].items[i]))
    else []
  }

  lemma ParsedSpaceIsNormalised(v: Json)
    requires ParseSpace(v).Some?
    ensures ParseSpace(v).value == BlueprintSpaces.Normalised(WrittenSpace(v))
  {
  }

  lemma {:induction false} EachGives<T(!new)>(c: Codec<T>, items: seq<Json>, i: nat)
    requires Each(c.parse, items).Some? && i < |items|
    ensures c.parse(items[i]) == Some(Each(c.parse, items).value[i])
  {
    if i > 0 {
      EachGives(c, items[1..], i - 1);
    }
  }

  lemma ParsedSpacesAreNormalised(t: Tables, v: Json, c: Core)
    requires v.Obj? && FSpaces in v.fields && SpacesCodec().parse(v.fields[FSpaces]) == Some(c.spaces)
    ensures c.spaces == BlueprintSpaces.NormalisedAll(WrittenSpaces(v))
  {
    var items := v.fields[FSpaces].items;
    forall i | 0 <= i < |items|
      ensures c.spaces[i] == BlueprintSpaces.Normalised(WrittenSpace(items[i]))
    {
      EachGives(Codec(ParseSpace, SpaceJson), items, i);
      ParsedSpaceIsNormalised(items[i]);
    }
  }

  lemma ParsedSpaces(g: Grammar, fields: map<Field, Json>, c: Core)
    requires CORE_FIELDS <= fields.Keys && ParseCore(g, fields) == Some(c)
    ensures g.spaces.parse(fields[FSpaces]) == Some(c.spaces)
  {
  }

  /**
   The sweep runs on the blueprint as it was written. Once the blueprint is accepted, its keys are
   unique there too, and the sweep succeeds exactly when every parent key is written, character for
   character, as some Space's key.
   */
  lemma AcceptedSpacesAreMaterialised(t: Tables, v: Json)
    requires Parse(t, v).Some?
    ensures BlueprintSpaces.UniqueKeys(WrittenSpaces(v))
    ensures BlueprintSpaces.Hierarchy(WrittenSpaces(v)) <==> BlueprintSpaces.ParentsExist(WrittenSpaces(v))
  {
    var g, d := GrammarOf(t), Parse(t, v).value;
    GrammarIsGood(t);
    ParsedDefinition(g, v, d);
    ParsedSpaces(g, v.fields, d.core);
    ParsedSpacesAreNormalised(t, v, d.core);
    BlueprintSpaces.SweepAfterValidation(WrittenSpaces(v));
  }
}
