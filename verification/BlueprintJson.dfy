/** Untyped blueprint input and the primitive parsers that every part of a blueprint goes through. */
module BlueprintJson {
  import opened Options
  import opened Text

  /** The property names of the blueprint schema; any other name is FOther. */
  datatype Field =
    | FSchemaVersion | FName | FPurpose | FDescription | FLabels | FRoles | FSpaces | FMemoryTypes
    | FActivityTypes | FDecisionMethods | FDashboardIntents | FWorkflows | FSuggestedAgent | FVisualTheme
    | FApprovalPolicies | FConnectionSuggestions | FOnboarding | FOffboarding | FRetentionPolicy | FExportPolicy
    | FRecommendedAgents | FKey | FCapabilityBundle | FCapabilities | FParentKey | FType | FLabel | FStates
    | FMethod | FActivityType | FMemoryType | FDecisionMethodKey | FRoleKey | FPermissions | FToolIds | FLimits
    | FApprovalPolicyKey | FMaximumBudgetUsdCents | FMaximumTokens | FMaximumDurationSeconds | FMaximumSteps
    | FMaximumRetries | FMaximumDelegations | FPreset | FAccent | FRiskLevel | FMinimumApprovals | FHumanRequired
    | FKind | FCapabilityAllowlist | FHumanApprovalRequired | FSteps | FDefaultDays | FDryRunRequired | FFormats
    | FIncludeHistory | FIncludePersonalData | FExcludePlaintextSecrets | FOther(text: string)

  /** `OtherNumber` is a number that is not a safe integer. */
  datatype Json =
    | Null
    | Bool(b: bool)
    | Int(n: int)
    | OtherNumber
    | Str(s: string)
    | Arr(items: seq<Json>)
    | Obj(fields: map<Field, Json>)

  /** `assertRecord` and `assertExactKeys`: every required field, and none beyond the optional ones. */
  predicate HasFields(v: Json, required: set<Field>, optional: set<Field>) {
    v.Obj? && required <= v.fields.Keys <= required + optional
  }

  /** A text as the parser returns it. */
  predicate TextOk(s: string, max: nat) {
    IsTrimmed(s) && 1 <= |s| <= max
  }

  function StringValue(v: Json, max: nat): (r: Option<string>)
    ensures r.Some? ==> TextOk(r.value, max)
  {
    if v.Str? && Trim(v.s) != "" && |v.s| <= max then Some(Trim(v.s)) else None
  }

  predicate IsLower(c: char) { 'a' <= c <= 'z' }

  predicate IsDigit(c: char) { '0' <= c <= '9' }

  /** The key pattern: a lower-case letter, then 1 to 62 lower-case letters, digits or hyphens. */
  predicate IsKey(s: string) {
    2 <= |s| <= 63 && IsLower(s[0]) && forall c :: c in s ==> IsLower(c) || IsDigit(c) || c == '-'
  }

  /** A built-in type or a custom one: `custom:`, then 2 to 63 letters, digits, hyphens or underscores. */
  predicate IsTypeName(known: set<string>, s: string) {
    s in known ||
    (9 <= |s| <= 70 && s[..7] == "custom:" && (IsLower(s[7]) || IsDigit(s[7])) &&
     forall c :: c in s[7..] ==> IsLower(c) || IsDigit(c) || c == '-' || c == '_')
  }

  function KeyValue(v: Json): (r: Option<string>)
    ensures r.Some? ==> IsKey(r.value)
  {
    var key :- StringValue(v, 63);
    if IsKey(key) then Some(key) else None
  }

  function IntegerValue(v: Json, min: int, max: int): Option<int> {
    if v.Int? && min <= v.n <= max then Some(v.n) else None
  }

  function BooleanValue(v: Json): Option<bool> {
    if v.Bool? then Some(v.b) else None
  }

  /** A string of at most `max` characters from a fixed set. */
  function ChoiceValue(v: Json, max: nat, choices: set<string>): (r: Option<string>)
    ensures r.Some? ==> TextOk(r.value, max) && r.value in choices
  {
    var s :- StringValue(v, max);
    if s in choices then Some(s) else None
  }

  function ArrayValue(v: Json, min: nat, max: nat): (r: Option<seq<Json>>)
    ensures r.Some? ==> min <= |r.value| <= max
  {
    if v.Arr? && min <= |v.items| <= max then Some(v.items) else None
  }

  // Exactly the normal strings are parsed to themselves.

  lemma TextAgain(s: string, max: nat)
    ensures StringValue(Str(s), max) == Some(s) <==> TextOk(s, max)
  {
  }

  lemma ChoiceAgain(s: string, max: nat, choices: set<string>)
    ensures ChoiceValue(Str(s), max, choices) == Some(s) <==> TextOk(s, max) && s in choices
  {
  }

  lemma KeyAgain(s: string)
    ensures KeyValue(Str(s)) == Some(s) <==> IsKey(s)
  {
    if IsKey(s) {
      assert s[0] in s && s[|s| - 1] in s;
    }
  }

  // ----- lists of parsed items -----

  function Each<T>(parse: Json -> Option<T>, items: seq<Json>): (r: Option<seq<T>>)
    ensures r.Some? ==> |r.value| == |items|
  {
    if items == [] then Some([])
    else
      var first :- parse(items[0]);
      var rest :- Each(parse, items[1..]);
      Some([first] + rest)
  }

  function ListValue<T>(v: Json, min: nat, max: nat, parse: Json -> Option<T>): (r: Option<seq<T>>)
    ensures r.Some? ==> min <= |r.value| <= max
  {
    var items :- ArrayValue(v, min, max);
    Each(parse, items)
  }

  function Render<T>(render: T -> Json, values: seq<T>): seq<Json> {
    if values == [] then [] else [render(values[0])] + Render(render, values[1..])
  }

  function ListJson<T>(render: T -> Json, values: seq<T>): Json {
    Arr(Render(render, values))
  }

  lemma {:induction false} EachAgain<T(!new)>(parse: Json -> Option<T>, render: T -> Json, values: seq<T>)
    ensures |Render(render, values)| == |values|
    ensures Each(parse, Render(render, values)) == Some(values) <==>
            forall x :: x in values ==> parse(render(x)) == Some(x)
  {
    if values != [] {
      EachAgain(parse, render, values[1..]);
      var items := Render(render, values);
      assert items[0] == render(values[0]) && items[1..] == Render(render, values[1..]);
      assert [values[0]] + values[1..] == values;
      if Each(parse, items) == Some(values) {
        assert parse(items[0]) == Some(values[0]) && Each(parse, items[1..]) == Some(values[1..]);
      }
    }
  }

  predicate Distinct<T(==)>(values: seq<T>) {
    forall i, j :: 0 <= i < j < |values| ==> values[i] != values[j]
  }

  /** A list of strings that are copied as they are. */
  function PlainString(v: Json): Option<string> {
    if v.Str? then Some(v.s) else None
  }

  function StringJson(s: string): Json {
    Str(s)
  }

  function TextParser(max: nat): Json -> Option<string> {
    v => StringValue(v, max)
  }

  function ChoiceParser(max: nat, choices: set<string>): Json -> Option<string> {
    v => ChoiceValue(v, max, choices)
  }

  /** A parser for one part of a blueprint together with the JSON that the parsed part stands for. */
  datatype Codec<!T> = Codec(parse: Json -> Option<T>, render: T -> Json)

  /** The value stands for JSON that is parsed to it. */
  ghost predicate Survives<T(!new)>(c: Codec<T>, value: T) {
    c.parse(c.render(value)) == Some(value)
  }

  /** Whatever is parsed survives. */
  ghost predicate Good<T(!new)>(c: Codec<T>) {
    forall v :: c.parse(v).Some? ==> Survives(c, c.parse(v).value)
  }

  /** What is parsed is as described, and exactly what is as described survives. */
  ghost predicate Exact<T(!new)>(c: Codec<T>, ok: T -> bool) {
    && (forall v :: c.parse(v).Some? ==> ok(c.parse(v).value))
    && forall x :: Survives(c, x) <==> ok(x)
  }

  function TextCodec(max: nat): Codec<string> {
    Codec(TextParser(max), StringJson)
  }

  function ListParser<T>(parse: Json -> Option<T>, min: nat, max: nat): Json -> Option<seq<T>> {
    v => ListValue(v, min, max, parse)
  }

  function ListRenderer<T>(render: T -> Json): seq<T> -> Json {
    values => ListJson(render, values)
  }

  function ListCodec<T>(c: Codec<T>, min: nat, max: nat): Codec<seq<T>> {
    Codec(ListParser(c.parse, min, max), ListRenderer(c.render))
  }

  lemma {:induction false} EachParsed<T(!new)>(c: Codec<T>, ok: T -> bool, items: seq<Json>)
    requires Exact(c, ok) && Each(c.parse, items).Some?
    ensures forall x :: x in Each(c.parse, items).value ==> ok(x)
  {
    if items != [] {
      EachParsed(c, ok, items[1..]);
    }
  }

  /** A description of the items describes the lists: their length fits, and every item is as described. */
  lemma ListExact<T(!new)>(c: Codec<T>, ok: T -> bool, min: nat, max: nat)
    requires Exact(c, ok)
    ensures forall v :: ListValue(v, min, max, c.parse).Some? ==>
              forall x :: x in ListValue(v, min, max, c.parse).value ==> ok(x)
    ensures forall values :: ListValue(ListJson(c.render, values), min, max, c.parse) == Some(values) <==>
              min <= |values| <= max && forall x :: x in values ==> ok(x)
    ensures Good(ListCodec(c, min, max))
  {
    forall v | ListValue(v, min, max, c.parse).Some? {
      EachParsed(c, ok, v.items);
    }
    forall values
      ensures ListValue(ListJson(c.render, values), min, max, c.parse) == Some(values) <==>
                min <= |values| <= max && forall x :: x in values ==> ok(x)
    {
      EachAgain(c.parse, c.render, values);
      assert forall x :: x in values ==> (c.parse(c.render(x)) == Some(x) <==> Survives(c, x));
    }
  }
}
