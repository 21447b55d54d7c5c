/**
 The collective blueprint parser: it accepts schema 1 and 2, trims and checks every part, and
 returns a schema 2 definition.
 */
module Blueprints {
  import opened Options
  import opened Text
  import opened BlueprintJson
  import Activities
  import BlueprintSpaces

  type Permission = string
  type Space = BlueprintSpaces.Space

  /** The constant tables of permissions, reviewed bundles and vocabulary labels. */
  datatype Tables = Tables(permissions: seq<Permission>, bundles: map<string, seq<Permission>>,
                           safeAgent: set<Permission>, humanOnly: set<Permission>, labels: set<Field>)

  const MEMORY_TYPES: set<string> := {
    "fact", "document", "conversation", "event", "experience", "rule", "decision", "artifact", "research", "data",
    "manual", "failure", "learning", "external", "external_source", "agent_output", "knowledge"}
  const ACTIVITY_TYPES: set<string> := {
    "task", "project", "quest", "event", "discussion", "experiment", "study", "campaign", "ritual", "session",
    "creation", "maintenance", "investigation", "mission", "goal", "step"}
  const DECISION_METHODS: set<string> := {
    "custodian", "consent", "vote", "review", "editorial", "policy", "hybrid", "quorum_vote", "council",
    "agent_proposal_human_approval", "custom"}
  const DASHBOARD_INTENTS: set<string> := {"ask", "remember", "start", "review", "members"}
  const TOOLS: set<string> := {"memory_search", "activity_draft"}
  const PRESETS: set<string> := {"system", "quiet", "warm", "formal", "playful"}
  const ACCENTS: set<string> := {"blue", "green", "amber", "rose", "violet"}
  const CONNECTION_KINDS: set<string> := {
    "cloudflare-gatekeeper", "mcp", "https-webhook", "service-binding", "email", "calendar", "file-storage", "git",
    "external-api", "model-provider"}
  const EXPORT_FORMATS: set<string> := {"json", "markdown", "csv", "files"}
  const PERSONAL_DATA: set<string> := {"never", "explicit-consent"}

  // ----- roles -----

  datatype Role = Role(key: string, name: string, description: string, bundle: string, capabilities: seq<Permission>)

  /** `assertPermissions`: distinct known permissions, and exactly those of the reviewed bundle. */
  predicate MatchesBundle(t: Tables, bundle: string, permissions: seq<Permission>)
    requires bundle in t.bundles
  {
    && 1 <= |permissions| <= |t.permissions| && Distinct(permissions)
    && (forall p :: p in permissions ==> p in t.permissions)
    && |permissions| == |t.bundles[bundle]| && forall p :: p in permissions ==> p in t.bundles[bundle]
  }

  function StringList(v: Json): Option<seq<string>> {
    if v.Arr? then Each(PlainString, v.items) else None
  }

  function ParseRole(t: Tables, v: Json): Option<Role> {
    if !HasFields(v, {FKey, FName, FDescription, FCapabilityBundle, FCapabilities}, {}) then None
    else
      var bundle :- ChoiceValue(v.fields[FCapabilityBundle], 20, t.bundles.Keys);
      var capabilities :- StringList(v.fields[FCapabilities]);
      var key :- KeyValue(v.fields[FKey]);
      var name :- StringValue(v.fields[FName], 100);
      var description :- StringValue(v.fields[FDescription], 500);
      if MatchesBundle(t, bundle, capabilities) then Some(Role(key, name, description, bundle, capabilities)) else None
  }

  function RoleJson(r: Role): Json {
    Obj(map[FKey := Str(r.key), FName := Str(r.name), FDescription := Str(r.description),
            FCapabilityBundle := Str(r.bundle), FCapabilities := ListJson(StringJson, r.capabilities)])
  }

  function RoleParser(t: Tables): Json -> Option<Role> {
    v => ParseRole(t, v)
  }

  // ----- spaces -----

  function ParseSpace(v: Json): Option<Space> {
    if !HasFields(v, {FKey, FName, FDescription, FParentKey}, {}) then None
    else
      var key :- KeyValue(v.fields[FKey]);
      var name :- StringValue(v.fields[FName], 100);
      var description :- StringValue(v.fields[FDescription], 500);
      if v.fields[FParentKey].Null? then Some(BlueprintSpaces.Space(key, name, description, None))
      else
        var parentKey :- KeyValue(v.fields[FParentKey]);
        Some(BlueprintSpaces.Space(key, name, description, Some(parentKey)))
  }

  function OptionalJson(s: Option<string>): Json {
    if s.Some? then Str(s.value) else Null
  }

  function SpaceJson(s: Space): Json {
    Obj(map[FKey := Str(s.key), FName := Str(s.name), FDescription := Str(s.description),
            FParentKey := OptionalJson(s.parentKey)])
  }

  // ----- memory types, activity types, decision methods -----

  datatype MemoryType = MemoryType(typeName: string, title: string, description: string)

  predicate TypeOk(known: set<string>, s: string) {
    TextOk(s, 70) && IsTypeName(known, s)
  }

  function TypeValue(known: set<string>, v: Json): (r: Option<string>)
    ensures r.Some? ==> TypeOk(known, r.value)
  {
    var name :- StringValue(v, 70);
    if IsTypeName(known, name) then Some(name) else None
  }

  function ParseMemoryType(v: Json): Option<MemoryType> {
    if !HasFields(v, {FType, FLabel, FDescription}, {}) then None
    else
      var typeName :- TypeValue(MEMORY_TYPES, v.fields[FType]);
      var title :- StringValue(v.fields[FLabel], 100);
      var description :- StringValue(v.fields[FDescription], 500);
      Some(MemoryType(typeName, title, description))
  }

  function MemoryTypeJson(m: MemoryType): Json {
    Obj(map[FType := Str(m.typeName), FLabel := Str(m.title), FDescription := Str(m.description)])
  }

  datatype ActivityType = ActivityType(typeName: string, title: string, description: string, states: seq<string>)

  function StatusOf(s: string): Option<Activities.Status> {
    if s == "proposed" then Some(Activities.Proposed)
    else if s == "planned" then Some(Activities.Planned)
    else if s == "ready" then Some(Activities.Ready)
    else if s == "active" then Some(Activities.Active)
    else if s == "paused" then Some(Activities.Paused)
    else if s == "blocked" then Some(Activities.Blocked)
    else if s == "completed" then Some(Activities.Completed)
    else if s == "cancelled" then Some(Activities.Cancelled)
    else if s == "archived" then Some(Activities.Archived)
    else None
  }

  function ParseState(v: Json): (r: Option<string>)
    ensures r.Some? ==> TextOk(r.value, 20) && StatusOf(r.value).Some?
  {
    var s :- StringValue(v, 20);
    if StatusOf(s).Some? then Some(s) else None
  }

  /** Each state may follow the one before it. */
  predicate StatesConnected(states: seq<string>) {
    forall i :: 0 < i < |states| ==>
      var before, after := StatusOf(states[i - 1]), StatusOf(states[i]);
      before.Some? && after.Some? && Activities.MayBecome(before.value, after.value)
  }

  function ParseActivityType(v: Json): Option<ActivityType> {
    if !HasFields(v, {FType, FLabel, FDescription, FStates}, {}) then None
    else
      var typeName :- TypeValue(ACTIVITY_TYPES, v.fields[FType]);
      var states :- ListValue(v.fields[FStates], 2, 9, ParseState);
      var title :- StringValue(v.fields[FLabel], 100);
      var description :- StringValue(v.fields[FDescription], 500);
      if Distinct(states) && StatesConnected(states) then Some(ActivityType(typeName, title, description, states))
      else None
  }

  function ActivityTypeJson(a: ActivityType): Json {
    Obj(map[FType := Str(a.typeName), FLabel := Str(a.title), FDescription := Str(a.description),
            FStates := ListJson(StringJson, a.states)])
  }

  datatype DecisionMethod = DecisionMethod(key: string, title: string, description: string, procedure: string)

  function ParseDecisionMethod(v: Json): Option<DecisionMethod> {
    if !HasFields(v, {FKey, FLabel, FDescription, FMethod}, {}) then None
    else
      var procedure :- ChoiceValue(v.fields[FMethod], 20, DECISION_METHODS);
      var key :- KeyValue(v.fields[FKey]);
      var title :- StringValue(v.fields[FLabel], 100);
      var description :- StringValue(v.fields[FDescription], 500);
      Some(DecisionMethod(key, title, description, procedure))
  }

  function DecisionMethodJson(d: DecisionMethod): Json {
    Obj(map[FKey := Str(d.key), FLabel := Str(d.title), FDescription := Str(d.description),
            FMethod := Str(d.procedure)])
  }

  // ----- workflows -----

  datatype Workflow = Workflow(key: string, name: string, description: string, activityType: Option<string>,
                               memoryType: Option<string>, decisionMethodKey: Option<string>)

  /** A field that may be null; the outer None is a refusal, the inner one the null. */
  function Nullable<T>(parse: Json -> Option<T>, v: Json): Option<Option<T>> {
    if v.Null? then Some(None)
    else
      var value :- parse(v);
      Some(Some(value))
  }

  function TypeParser(known: set<string>): Json -> Option<string> {
    v => TypeValue(known, v)
  }

  function ParseWorkflow(v: Json): Option<Workflow> {
    if !HasFields(v, {FKey, FName, FDescription, FActivityType, FMemoryType, FDecisionMethodKey}, {}) then None
    else
      var activityType :- Nullable(TypeParser(ACTIVITY_TYPES), v.fields[FActivityType]);
      var memoryType :- Nullable(TypeParser(MEMORY_TYPES), v.fields[FMemoryType]);
      var key :- KeyValue(v.fields[FKey]);
      var name :- StringValue(v.fields[FName], 100);
      var description :- StringValue(v.fields[FDescription], 500);
      var decisionMethodKey :- Nullable(KeyValue, v.fields[FDecisionMethodKey]);
      Some(Workflow(key, name, description, activityType, memoryType, decisionMethodKey))
  }

  function WorkflowJson(w: Workflow): Json {
    Obj(map[FKey := Str(w.key), FName := Str(w.name), FDescription := Str(w.description),
            FActivityType := OptionalJson(w.activityType), FMemoryType := OptionalJson(w.memoryType),
            FDecisionMethodKey := OptionalJson(w.decisionMethodKey)])
  }

  // ----- agents -----

  datatype AgentLimits = AgentLimits(budget: int, tokens: int, duration: int, steps: int, retries: int,
                                     delegations: int)

  datatype Agent = Agent(name: string, purpose: string, roleKey: string, permissions: seq<Permission>,
                         toolIds: seq<string>, limits: AgentLimits, approvalPolicyKey: string)

  const DEFAULT_LIMITS := AgentLimits(0, 32_000, 300, 12, 1, 0)
  const EXTERNAL_ACTION := "external-action"

  function ParseAgentLimits(v: Json): Option<AgentLimits> {
    if !HasFields(v, {FMaximumBudgetUsdCents, FMaximumTokens, FMaximumDurationSeconds, FMaximumSteps,
                      FMaximumRetries, FMaximumDelegations}, {}) then None
    else
      var budget :- IntegerValue(v.fields[FMaximumBudgetUsdCents], 0, 100_000_000);
      var tokens :- IntegerValue(v.fields[FMaximumTokens], 1_000, 10_000_000);
      var duration :- IntegerValue(v.fields[FMaximumDurationSeconds], 1, 86_400);
      var steps :- IntegerValue(v.fields[FMaximumSteps], 1, 1_000);
      var retries :- IntegerValue(v.fields[FMaximumRetries], 0, 20);
      var delegations :- IntegerValue(v.fields[FMaximumDelegations], 0, 20);
      Some(AgentLimits(budget, tokens, duration, steps, retries, delegations))
  }

  function AgentLimitsJson(l: AgentLimits): Json {
    Obj(map[FMaximumBudgetUsdCents := Int(l.budget), FMaximumTokens := Int(l.tokens),
            FMaximumDurationSeconds := Int(l.duration), FMaximumSteps := Int(l.steps),
            FMaximumRetries := Int(l.retries), FMaximumDelegations := Int(l.delegations)])
  }

  function FindRole(roles: seq<Role>, key: string): (r: Option<Role>)
    ensures r.Some? ==> r.value in roles && r.value.key == key
  {
    if roles == [] then None
    else if roles[0].key == key then Some(roles[0])
    else FindRole(roles[1..], key)
  }

  /** `assertAgentPermissions`: distinct, safe, not human-only, and held by the agent's role. */
  predicate AgentPermissionsOk(t: Tables, role: Role, permissions: seq<Permission>) {
    && 1 <= |permissions| <= |t.safeAgent| && Distinct(permissions)
    && forall p :: p in permissions ==> p in t.safeAgent && p !in t.humanOnly && p in role.capabilities
  }

  /** In schema 1 the limits and the approval policy may be missing. */
  function ParseAgent(t: Tables, roles: seq<Role>, legacy: bool, v: Json): Option<Agent> {
    var later := {FLimits, FApprovalPolicyKey};
    if !HasFields(v, {FName, FPurpose, FRoleKey, FPermissions, FToolIds}, later) then None
    else if !legacy && !(later <= v.fields.Keys) then None
    else
      var roleKey :- KeyValue(v.fields[FRoleKey]);
      var role :- FindRole(roles, roleKey);
      var permissions :- StringList(v.fields[FPermissions]);
      var toolIds :- StringList(v.fields[FToolIds]);
      var name :- StringValue(v.fields[FName], 100);
      var purpose :- StringValue(v.fields[FPurpose], 1_000);
      var limits :- if FLimits in v.fields then ParseAgentLimits(v.fields[FLimits]) else Some(DEFAULT_LIMITS);
      var policy :-
        if FApprovalPolicyKey in v.fields then KeyValue(v.fields[FApprovalPolicyKey]) else Some(EXTERNAL_ACTION);
      if AgentPermissionsOk(t, role, permissions) && 1 <= |toolIds| <= 2 && Distinct(toolIds) &&
         (forall tool :: tool in toolIds ==> tool in TOOLS)
      then Some(Agent(name, purpose, roleKey, permissions, toolIds, limits, policy)) else None
  }

  function AgentJson(a: Agent): Json {
    Obj(map[FName := Str(a.name), FPurpose := Str(a.purpose), FRoleKey := Str(a.roleKey),
            FPermissions := ListJson(StringJson, a.permissions), FToolIds := ListJson(StringJson, a.toolIds),
            FLimits := AgentLimitsJson(a.limits), FApprovalPolicyKey := Str(a.approvalPolicyKey)])
  }

  // ----- theme, approval policies, connections -----

  datatype Theme = Theme(preset: string, accent: string, description: string)

  function ParseTheme(v: Json): Option<Theme> {
    if !HasFields(v, {FPreset, FAccent, FDescription}, {}) then None
    else
      var preset :- ChoiceValue(v.fields[FPreset], 20, PRESETS);
      var accent :- ChoiceValue(v.fields[FAccent], 20, ACCENTS);
      var description :- StringValue(v.fields[FDescription], 500);
      Some(Theme(preset, accent, description))
  }

  function ThemeJson(x: Theme): Json {
    Obj(map[FPreset := Str(x.preset), FAccent := Str(x.accent), FDescription := Str(x.description)])
  }

  datatype Policy = Policy(key: string, name: string, description: string, riskLevel: int, decisionMethodKey: string,
                           minimumApprovals: int, humanRequired: bool)

  function ParsePolicy(v: Json): Option<Policy> {
    if !HasFields(v, {FKey, FName, FDescription, FRiskLevel, FDecisionMethodKey, FMinimumApprovals, FHumanRequired}, {})
    then None
    else
      var key :- KeyValue(v.fields[FKey]);
      var name :- StringValue(v.fields[FName], 100);
      var description :- StringValue(v.fields[FDescription], 500);
      var riskLevel :- IntegerValue(v.fields[FRiskLevel], 0, 3);
      var decisionMethodKey :- KeyValue(v.fields[FDecisionMethodKey]);
      var minimumApprovals :- IntegerValue(v.fields[FMinimumApprovals], 0, 20);
      var humanRequired :- BooleanValue(v.fields[FHumanRequired]);
      Some(Policy(key, name, description, riskLevel, decisionMethodKey, minimumApprovals, humanRequired))
  }

  function PolicyJson(x: Policy): Json {
    Obj(map[FKey := Str(x.key), FName := Str(x.name), FDescription := Str(x.description),
            FRiskLevel := Int(x.riskLevel), FDecisionMethodKey := Str(x.decisionMethodKey),
            FMinimumApprovals := Int(x.minimumApprovals), FHumanRequired := Bool(x.humanRequired)])
  }

  datatype Connection = Connection(key: string, name: string, description: string, kind: string,
                                   allowlist: seq<Permission>, approvalRequired: bool)

  predicate AllowlistOk(t: Tables, allowlist: seq<Permission>) {
    |allowlist| <= |t.permissions| && Distinct(allowlist) && forall p :: p in allowlist ==> p in t.permissions
  }

  function ParseConnection(t: Tables, v: Json): Option<Connection> {
    if !HasFields(v, {FKey, FName, FDescription, FKind, FCapabilityAllowlist, FHumanApprovalRequired}, {}) then None
    else
      var kind :- ChoiceValue(v.fields[FKind], 30, CONNECTION_KINDS);
      var allowlist :- StringList(v.fields[FCapabilityAllowlist]);
      var key :- KeyValue(v.fields[FKey]);
      var name :- StringValue(v.fields[FName], 100);
      var description :- StringValue(v.fields[FDescription], 500);
      var approvalRequired :- BooleanValue(v.fields[FHumanApprovalRequired]);
      if AllowlistOk(t, allowlist) then Some(Connection(key, name, description, kind, allowlist, approvalRequired))
      else None
  }

  function ConnectionJson(x: Connection): Json {
    Obj(map[FKey := Str(x.key), FName := Str(x.name), FDescription := Str(x.description), FKind := Str(x.kind),
            FCapabilityAllowlist := ListJson(StringJson, x.allowlist),
            FHumanApprovalRequired := Bool(x.approvalRequired)])
  }

  function ConnectionParser(t: Tables): Json -> Option<Connection> {
    v => ParseConnection(t, v)
  }

  // ----- lifecycle, retention, export -----

  datatype Lifecycle = Lifecycle(name: string, description: string, steps: seq<string>)

  function ParseLifecycle(v: Json): Option<Lifecycle> {
    if !HasFields(v, {FName, FDescription, FSteps}, {}) then None
    else
      var steps :- ListValue(v.fields[FSteps], 1, 12, TextParser(300));
      var name :- StringValue(v.fields[FName], 100);
      var description :- StringValue(v.fields[FDescription], 500);
      Some(Lifecycle(name, description, steps))
  }

  function LifecycleJson(x: Lifecycle): Json {
    Obj(map[FName := Str(x.name), FDescription := Str(x.description), FSteps := ListJson(StringJson, x.steps)])
  }

  /** The dry run is always required, so the parsed policy does not carry the flag. */
  datatype Retention = Retention(defaultDays: int, description: string)

  function ParseRetention(v: Json): Option<Retention> {
    if !HasFields(v, {FDefaultDays, FDescription, FDryRunRequired}, {}) ||
       v.fields[FDryRunRequired] != Bool(true) then None
    else
      var defaultDays :- IntegerValue(v.fields[FDefaultDays], 1, 36_500);
      var description :- StringValue(v.fields[FDescription], 500);
      Some(Retention(defaultDays, description))
  }

  function RetentionJson(x: Retention): Json {
    Obj(map[FDefaultDays := Int(x.defaultDays), FDescription := Str(x.description), FDryRunRequired := Bool(true)])
  }

  /** Plaintext Secrets are always excluded, so the parsed policy does not carry the flag. */
  datatype Export = Export(formats: seq<string>, includeHistory: bool, personalData: string)

  function ParseExport(v: Json): Option<Export> {
    if !HasFields(v, {FFormats, FIncludeHistory, FIncludePersonalData, FExcludePlaintextSecrets}, {}) ||
       v.fields[FExcludePlaintextSecrets] != Bool(true) then None
    else
      var formats :- ListValue(v.fields[FFormats], 1, 4, ChoiceParser(20, EXPORT_FORMATS));
      var personalData :- PlainString(v.fields[FIncludePersonalData]);
      var includeHistory :- BooleanValue(v.fields[FIncludeHistory]);
      if Distinct(formats) && personalData in PERSONAL_DATA then Some(Export(formats, includeHistory, personalData))
      else None
  }

  function ExportJson(x: Export): Json {
    Obj(map[FFormats := ListJson(StringJson, x.formats), FIncludeHistory := Bool(x.includeHistory),
            FIncludePersonalData := Str(x.personalData), FExcludePlaintextSecrets := Bool(true)])
  }

  // ----- the core, common to both schemas -----

  type Labels = map<Field, string>

  datatype Core = Core(name: string, purpose: string, description: string, labels: Labels, roles: seq<Role>,
                       spaces: seq<Space>, memoryTypes: seq<MemoryType>, activityTypes: seq<ActivityType>,
                       decisionMethods: seq<DecisionMethod>, intents: seq<string>, workflows: seq<Workflow>)

  const CORE_FIELDS: set<Field> := {
    FName, FPurpose, FDescription, FLabels, FRoles, FSpaces, FMemoryTypes, FActivityTypes, FDecisionMethods,
    FDashboardIntents, FWorkflows}

  /** `assertVocabularyOverrides`, then the count: labels are kept as they are, untrimmed. */
  function ParseLabels(t: Tables, v: Json): Option<Labels> {
    if v.Obj? && v.fields.Keys <= t.labels && |v.fields| == 19 &&
       forall f :: f in v.fields ==> v.fields[f].Str? && Trim(v.fields[f].s) != "" && |v.fields[f].s| <= 200
    then Some(map f | f in v.fields :: v.fields[f].s) else None
  }

  function LabelsJson(labels: Labels): Json {
    Obj(map f | f in labels :: Str(labels[f]))
  }

  // ----- the parsers of the parts -----

  function LabelsCodec(t: Tables): Codec<Labels> {
    Codec(v => ParseLabels(t, v), LabelsJson)
  }

  function AgentCodec(t: Tables, roles: seq<Role>, legacy: bool): Codec<Agent> {
    Codec(v => ParseAgent(t, roles, legacy, v), AgentJson)
  }

  function RolesCodec(t: Tables): Codec<seq<Role>> {
    ListCodec(Codec(RoleParser(t), RoleJson), 2, 8)
  }

  function SpacesCodec(): Codec<seq<Space>> {
    ListCodec(Codec(ParseSpace, SpaceJson), 1, 12)
  }

  function MemoryTypesCodec(): Codec<seq<MemoryType>> {
    ListCodec(Codec(ParseMemoryType, MemoryTypeJson), 1, 12)
  }

  function ActivityTypesCodec(): Codec<seq<ActivityType>> {
    ListCodec(Codec(ParseActivityType, ActivityTypeJson), 1, 12)
  }

  function DecisionMethodsCodec(): Codec<seq<DecisionMethod>> {
    ListCodec(Codec(ParseDecisionMethod, DecisionMethodJson), 1, 8)
  }

  function IntentsCodec(): Codec<seq<string>> {
    ListCodec(Codec(ChoiceParser(20, DASHBOARD_INTENTS), StringJson), 3, 5)
  }

  function WorkflowsCodec(): Codec<seq<Workflow>> {
    ListCodec(Codec(ParseWorkflow, WorkflowJson), 1, 12)
  }

  function PoliciesCodec(): Codec<seq<Policy>> {
    ListCodec(Codec(ParsePolicy, PolicyJson), 1, 8)
  }

  function ConnectionsCodec(t: Tables): Codec<seq<Connection>> {
    ListCodec(Codec(ConnectionParser(t), ConnectionJson), 0, 12)
  }

  function AgentsCodec(t: Tables, roles: seq<Role>): Codec<seq<Agent>> {
    ListCodec(AgentCodec(t, roles, false), 0, 6)
  }
}
