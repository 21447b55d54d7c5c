/**
 The form of every part of a blueprint, described without its parser, and the proof that the
 parser of the part returns exactly the values of that form.
 */
module BlueprintForms {
  import opened Options
  import opened Text
  import opened BlueprintJson
  import opened Blueprints
  import Activities

  // ----- how a part is read -----

  /** The value is the text, apart from white space at its two ends, and was not too long as written. */
  ghost predicate TextReads(v: Json, s: string, max: nat) {
    v.Str? && |v.s| <= max && Stripped(v.s, s)
  }

  lemma TextMeans(v: Json, s: string, max: nat)
    ensures StringValue(v, max) == Some(s) <==> TextReads(v, s, max) && s != ""
  {
    if v.Str? {
      StrippedIsTrim(v.s, s);
    }
  }

  const LETTERS: set<char> := {
    'a', 'b', 'c', 'd', 'e', 'f', 'g', 'h', 'i', 'j', 'k', 'l', 'm', 'n', 'o', 'p', 'q', 'r', 's', 't', 'u', 'v', 'w',
    'x', 'y', 'z'}
  const DIGITS: set<char> := {'0', '1', '2', '3', '4', '5', '6', '7', '8', '9'}

  predicate Over(s: string, alphabet: set<char>) {
    forall c :: c in s ==> c in alphabet
  }

  lemma AlphabetMeans(c: char)
    ensures IsLower(c) <==> c in LETTERS
    ensures IsDigit(c) <==> c in DIGITS
  {
  }

  /** A key is a letter and then up to 62 letters, digits or hyphens. */
  ghost predicate KeyShaped(s: string, first: char, rest: string) {
    s == [first] + rest && first in LETTERS && 1 <= |rest| <= 62 && Over(rest, LETTERS + DIGITS + {'-'})
  }

  lemma KeyIff(s: string)
    ensures IsKey(s) <==> exists first, rest :: KeyShaped(s, first, rest)
  {
    forall c {
      AlphabetMeans(c);
    }
    if IsKey(s) {
      assert KeyShaped(s, s[0], s[1..]);
    }
  }

  /** A custom type is the prefix, a letter or digit, and then up to 62 more characters. */
  ghost predicate CustomShaped(s: string, first: char, rest: string) {
    && s == "custom:" + [first] + rest && first in LETTERS + DIGITS
    && 1 <= |rest| <= 62 && Over(rest, LETTERS + DIGITS + {'-', '_'})
  }

  lemma TypeNameIff(known: set<string>, s: string)
    ensures IsTypeName(known, s) <==> s in known || exists first, rest :: CustomShaped(s, first, rest)
  {
    forall c {
      AlphabetMeans(c);
    }
    if 9 <= |s| && s[..7] == "custom:" {
      var first, rest := s[7], s[8..];
      assert s[7..] == [first] + rest;
      assert s == "custom:" + [first] + rest;
      if IsTypeName(known, s) && s !in known {
        assert CustomShaped(s, first, rest);
      }
    }
    forall first, rest | CustomShaped(s, first, rest)
      ensures IsTypeName(known, s)
    {
      assert s[7..] == [first] + rest;
    }
  }

  lemma KeyMeans(v: Json, s: string)
    ensures KeyValue(v) == Some(s) <==> TextReads(v, s, 63) && IsKey(s)
  {
    TextMeans(v, s, 63);
  }

  lemma ChoiceMeans(v: Json, s: string, max: nat, choices: set<string>)
    ensures ChoiceValue(v, max, choices) == Some(s) <==> TextReads(v, s, max) && s != "" && s in choices
  {
    TextMeans(v, s, max);
  }

  /** The value is a list of exactly these strings, none of them stripped. */
  ghost predicate StringsRead(v: Json, values: seq<string>) {
    v.Arr? && |v.items| == |values| && forall i :: 0 <= i < |values| ==> v.items[i] == Str(values[i])
  }

  lemma {:induction false} EachMeans<T(!new)>(parse: Json -> Option<T>, items: seq<Json>, values: seq<T>)
    ensures Each(parse, items) == Some(values) <==>
            |items| == |values| && forall i :: 0 <= i < |values| ==> parse(items[i]) == Some(values[i])
  {
    if items != [] && values != [] {
      EachMeans(parse, items[1..], values[1..]);
      assert values == [values[0]] + values[1..];
      if Each(parse, items) == Some(values) {
        assert Each(parse, items[1..]) == Some(values[1..]);
        forall i | 0 <= i < |values|
          ensures parse(items[i]) == Some(values[i])
        {
          if i > 0 {
            assert items[i] == items[1..][i - 1] && values[i] == values[1..][i - 1];
          }
        }
      }
      if |items| == |values| && forall i :: 0 <= i < |values| ==> parse(items[i]) == Some(values[i]) {
        forall i | 0 <= i < |values| - 1
          ensures parse(items[1..][i]) == Some(values[1..][i])
        {
          assert items[i + 1] == items[1..][i] && values[i + 1] == values[1..][i];
        }
      }
    }
  }

  /** A list is parsed item by item. */
  lemma ItemsMean<T(!new)>(parse: Json -> Option<T>, rel: (Json, T) -> bool, ok: T -> bool, items: seq<Json>,
                           values: seq<T>)
    requires |items| == |values|
    requires forall i :: 0 <= i < |values| ==>
               (parse(items[i]) == Some(values[i]) <==> rel(items[i], values[i]) && ok(values[i]))
    ensures Each(parse, items) == Some(values) <==>
            (forall i :: 0 <= i < |values| ==> rel(items[i], values[i])) && forall x :: x in values ==> ok(x)
  {
    EachMeans(parse, items, values);
  }

  lemma StringsMean(v: Json, values: seq<string>)
    ensures StringList(v) == Some(values) <==> StringsRead(v, values)
  {
    if v.Arr? {
      EachMeans(PlainString, v.items, values);
    }
  }

  /** The value is the list of these texts, in order. */
  ghost predicate TextsRead(v: Json, values: seq<string>, max: nat) {
    v.Arr? && |v.items| == |values| && forall i :: 0 <= i < |values| ==> TextReads(v.items[i], values[i], max)
  }

  /** The value is null or the text. */
  ghost predicate OptionReads(v: Json, s: Option<string>, max: nat) {
    if v.Null? then s == None else s.Some? && TextReads(v, s.value, max)
  }

  // ----- lists without repetition -----

  function Elements(values: seq<string>): set<string> {
    set s | s in values
  }

  lemma {:induction false} CountBound(values: seq<string>)
    ensures |Elements(values)| <= |values|
    ensures Distinct(values) <==> |Elements(values)| == |values|
  {
    if values != [] {
      var rest := values[1..];
      CountBound(rest);
      assert Elements(values) == Elements(rest) + {values[0]};
      if Distinct(values) {
        assert Distinct(rest) && values[0] !in rest;
      } else if Distinct(rest) {
        assert values[0] in rest;
      }
    }
  }

  lemma Within<T>(a: set<T>, b: set<T>)
    requires a <= b
    ensures |a| <= |b| && (|a| == |b| ==> a == b)
  {
    assert |b - a| == |b| - |a|;
  }

  /** A list without repetition is no longer than what it is drawn from. */
  lemma DistinctWithin(values: seq<string>, source: set<string>)
    requires Distinct(values) && forall s :: s in values ==> s in source
    ensures |values| <= |source|
  {
    CountBound(values);
    Within(Elements(values), source);
  }

  /** A list of plain strings is always parsed to itself. */
  lemma StringsAgain(values: seq<string>)
    ensures StringList(ListJson(StringJson, values)) == Some(values)
  {
    EachAgain(PlainString, StringJson, values);
  }

  // ----- roles -----

  /** The bundle is a list of known permissions, none of them twice. */
  predicate Reviewed(t: Tables, bundle: string) {
    && bundle in t.bundles && t.bundles[bundle] != [] && Distinct(t.bundles[bundle])
    && forall p :: p in t.bundles[bundle] ==> p in t.permissions
  }

  /** The parser compares counts; that makes a role hold exactly the permissions of its bundle, in any order. */
  lemma BundleIsExact(t: Tables, bundle: string, permissions: seq<Permission>)
    requires bundle in t.bundles
    ensures MatchesBundle(t, bundle, permissions) <==>
            Reviewed(t, bundle) && Distinct(permissions) && Elements(permissions) == Elements(t.bundles[bundle])
  {
    var reviewed := t.bundles[bundle];
    CountBound(permissions);
    CountBound(reviewed);
    CountBound(t.permissions);
    if MatchesBundle(t, bundle, permissions) {
      Within(Elements(permissions), Elements(reviewed));
      assert forall p :: p in reviewed ==> p in Elements(permissions);
    }
    if Reviewed(t, bundle) && Distinct(permissions) && Elements(permissions) == Elements(reviewed) {
      assert forall p :: p in permissions ==> p in Elements(reviewed);
      Within(Elements(permissions), Elements(t.permissions));
    }
  }

  predicate RoleOk(t: Tables, r: Role) {
    && IsKey(r.key) && TextOk(r.name, 100) && TextOk(r.description, 500) && TextOk(r.bundle, 20)
    && Reviewed(t, r.bundle) && Distinct(r.capabilities) && Elements(r.capabilities) == Elements(t.bundles[r.bundle])
  }

  ghost predicate RoleReads(v: Json, r: Role) {
    && v.Obj? && v.fields.Keys == {FKey, FName, FDescription, FCapabilityBundle, FCapabilities}
    && TextReads(v.fields[FKey], r.key, 63)
    && TextReads(v.fields[FName], r.name, 100)
    && TextReads(v.fields[FDescription], r.description, 500)
    && TextReads(v.fields[FCapabilityBundle], r.bundle, 20)
    && StringsRead(v.fields[FCapabilities], r.capabilities)
  }

  lemma RoleMeans(t: Tables, v: Json, r: Role)
    ensures ParseRole(t, v) == Some(r) <==> RoleReads(v, r) && RoleOk(t, r)
  {
    if v.Obj? && v.fields.Keys == {FKey, FName, FDescription, FCapabilityBundle, FCapabilities} {
      KeyMeans(v.fields[FKey], r.key);
      TextMeans(v.fields[FName], r.name, 100);
      TextMeans(v.fields[FDescription], r.description, 500);
      ChoiceMeans(v.fields[FCapabilityBundle], r.bundle, 20, t.bundles.Keys);
      StringsMean(v.fields[FCapabilities], r.capabilities);
      if r.bundle in t.bundles {
        BundleIsExact(t, r.bundle, r.capabilities);
      }
    }
  }

  lemma RoleAgain(t: Tables, r: Role)
    ensures ParseRole(t, RoleJson(r)) == Some(r) <==> RoleOk(t, r)
  {
    KeyAgain(r.key);
    TextAgain(r.name, 100);
    TextAgain(r.description, 500);
    ChoiceAgain(r.bundle, 20, t.bundles.Keys);
    StringsAgain(r.capabilities);
    if r.bundle in t.bundles {
      BundleIsExact(t, r.bundle, r.capabilities);
    }
  }

  lemma RolesExact(t: Tables, xs: seq<Role>)
    ensures Good(RolesCodec(t))
    ensures Survives(RolesCodec(t), xs) <==> 2 <= |xs| <= 8 && forall x :: x in xs ==> RoleOk(t, x)
  {
    var c, ok := Codec(RoleParser(t), RoleJson), (x: Role) => RoleOk(t, x);
    forall v | c.parse(v).Some?
      ensures ok(c.parse(v).value)
    {
      RoleMeans(t, v, ParseRole(t, v).value);
    }
    forall x
      ensures Survives(c, x) <==> ok(x)
    {
      RoleAgain(t, x);
    }
    ListExact(c, ok, 2, 8);
  }

  ghost predicate RolesRead(v: Json, xs: seq<Role>) {
    v.Arr? && |v.items| == |xs| && forall i :: 0 <= i < |xs| ==> RoleReads(v.items[i], xs[i])
  }

  lemma RolesMean(t: Tables, v: Json, xs: seq<Role>)
    ensures RolesCodec(t).parse(v) == Some(xs) <==>
            RolesRead(v, xs) && 2 <= |xs| <= 8 && forall x :: x in xs ==> RoleOk(t, x)
  {
    if v.Arr? && |v.items| == |xs| {
      forall i | 0 <= i < |xs|
        ensures RoleParser(t)(v.items[i]) == Some(xs[i]) <==> RoleReads(v.items[i], xs[i]) && RoleOk(t, xs[i])
      {
        RoleMeans(t, v.items[i], xs[i]);
      }
      ItemsMean(RoleParser(t), (v: Json, x: Role) => RoleReads(v, x), (x: Role) => RoleOk(t, x), v.items, xs);
    }
  }

  // ----- Spaces -----

  predicate SpaceOk(s: Space) {
    && IsKey(s.key) && TextOk(s.name, 100) && TextOk(s.description, 500)
    && (s.parentKey.Some? ==> IsKey(s.parentKey.value))
  }

  ghost predicate SpaceReads(v: Json, s: Space) {
    && v.Obj? && v.fields.Keys == {FKey, FName, FDescription, FParentKey}
    && TextReads(v.fields[FKey], s.key, 63)
    && TextReads(v.fields[FName], s.name, 100)
    && TextReads(v.fields[FDescription], s.description, 500)
    && (if v.fields[FParentKey].Null? then s.parentKey == None
        else s.parentKey.Some? && TextReads(v.fields[FParentKey], s.parentKey.value, 63))
  }

  lemma SpaceMeans(v: Json, s: Space)
    ensures ParseSpace(v) == Some(s) <==> SpaceReads(v, s) && SpaceOk(s)
  {
    if v.Obj? && v.fields.Keys == {FKey, FName, FDescription, FParentKey} {
      KeyMeans(v.fields[FKey], s.key);
      TextMeans(v.fields[FName], s.name, 100);
      TextMeans(v.fields[FDescription], s.description, 500);
      if s.parentKey.Some? {
        KeyMeans(v.fields[FParentKey], s.parentKey.value);
      }
    }
  }

  lemma SpaceAgain(s: Space)
    ensures ParseSpace(SpaceJson(s)) == Some(s) <==> SpaceOk(s)
  {
    KeyAgain(s.key);
    TextAgain(s.name, 100);
    TextAgain(s.description, 500);
    if s.parentKey.Some? {
      KeyAgain(s.parentKey.value);
    }
  }

  lemma SpacesExact(xs: seq<Space>)
    ensures Good(SpacesCodec())
    ensures Survives(SpacesCodec(), xs) <==> 1 <= |xs| <= 12 && forall x :: x in xs ==> SpaceOk(x)
  {
    var c, ok := Codec(ParseSpace, SpaceJson), (x: Space) => SpaceOk(x);
    forall v | c.parse(v).Some?
      ensures ok(c.parse(v).value)
    {
      SpaceMeans(v, ParseSpace(v).value);
    }
    forall x
      ensures Survives(c, x) <==> ok(x)
    {
      SpaceAgain(x);
    }
    ListExact(c, ok, 1, 12);
  }

  ghost predicate SpacesRead(v: Json, xs: seq<Space>) {
    v.Arr? && |v.items| == |xs| && forall i :: 0 <= i < |xs| ==> SpaceReads(v.items[i], xs[i])
  }

  lemma SpacesMean(v: Json, xs: seq<Space>)
    ensures SpacesCodec().parse(v) == Some(xs) <==>
            SpacesRead(v, xs) && 1 <= |xs| <= 12 && forall x :: x in xs ==> SpaceOk(x)
  {
    if v.Arr? && |v.items| == |xs| {
      forall i | 0 <= i < |xs|
        ensures ParseSpace(v.items[i]) == Some(xs[i]) <==> SpaceReads(v.items[i], xs[i]) && SpaceOk(xs[i])
      {
        SpaceMeans(v.items[i], xs[i]);
      }
      ItemsMean(ParseSpace, (v: Json, x: Space) => SpaceReads(v, x), (x: Space) => SpaceOk(x), v.items, xs);
    }
  }

  // ----- memory types, activity types, decision methods -----

  predicate MemoryTypeOk(m: MemoryType) {
    TypeOk(MEMORY_TYPES, m.typeName) && TextOk(m.title, 100) && TextOk(m.description, 500)
  }

  lemma TypeAgain(known: set<string>, s: string)
    ensures TypeValue(known, Str(s)) == Some(s) <==> TypeOk(known, s)
  {
  }

  ghost predicate MemoryTypeReads(v: Json, m: MemoryType) {
    && v.Obj? && v.fields.Keys == {FType, FLabel, FDescription}
    && TextReads(v.fields[FType], m.typeName, 70)
    && TextReads(v.fields[FLabel], m.title, 100)
    && TextReads(v.fields[FDescription], m.description, 500)
  }

  lemma MemoryTypeMeans(v: Json, m: MemoryType)
    ensures ParseMemoryType(v) == Some(m) <==> MemoryTypeReads(v, m) && MemoryTypeOk(m)
  {
    if v.Obj? && v.fields.Keys == {FType, FLabel, FDescription} {
      TextMeans(v.fields[FType], m.typeName, 70);
      TextMeans(v.fields[FLabel], m.title, 100);
      TextMeans(v.fields[FDescription], m.description, 500);
    }
  }

  lemma MemoryTypeAgain(m: MemoryType)
    ensures ParseMemoryType(MemoryTypeJson(m)) == Some(m) <==> MemoryTypeOk(m)
  {
    TypeAgain(MEMORY_TYPES, m.typeName);
    TextAgain(m.title, 100);
    TextAgain(m.description, 500);
  }

  lemma MemoryTypesExact(xs: seq<MemoryType>)
    ensures Good(MemoryTypesCodec())
    ensures Survives(MemoryTypesCodec(), xs) <==> 1 <= |xs| <= 12 && forall x :: x in xs ==> MemoryTypeOk(x)
  {
    var c, ok := Codec(ParseMemoryType, MemoryTypeJson), (x: MemoryType) => MemoryTypeOk(x);
    forall v | c.parse(v).Some?
      ensures ok(c.parse(v).value)
    {
      MemoryTypeMeans(v, ParseMemoryType(v).value);
    }
    forall x
      ensures Survives(c, x) <==> ok(x)
    {
      MemoryTypeAgain(x);
    }
    ListExact(c, ok, 1, 12);
  }

  ghost predicate MemoryTypesRead(v: Json, xs: seq<MemoryType>) {
    v.Arr? && |v.items| == |xs| && forall i :: 0 <= i < |xs| ==> MemoryTypeReads(v.items[i], xs[i])
  }

  lemma MemoryTypesMean(v: Json, xs: seq<MemoryType>)
    ensures MemoryTypesCodec().parse(v) == Some(xs) <==>
            MemoryTypesRead(v, xs) && 1 <= |xs| <= 12 && forall x :: x in xs ==> MemoryTypeOk(x)
  {
    if v.Arr? && |v.items| == |xs| {
      forall i | 0 <= i < |xs|
        ensures ParseMemoryType(v.items[i]) == Some(xs[i]) <==>
                MemoryTypeReads(v.items[i], xs[i]) && MemoryTypeOk(xs[i])
      {
        MemoryTypeMeans(v.items[i], xs[i]);
      }
      ItemsMean(ParseMemoryType, (v: Json, x: MemoryType) => MemoryTypeReads(v, x),
                (x: MemoryType) => MemoryTypeOk(x), v.items, xs);
    }
  }

  /** The two names are of statuses with a transition from the first to the second. */
  predicate Leads(before: string, after: string) {
    && StatusOf(before).Some? && StatusOf(after).Some?
    && StatusOf(after).value in Activities.Successors(StatusOf(before).value)
  }

  /** The names of a path through the transition table, never standing still. */
  predicate IsTransitionPath(states: seq<string>) {
    && (forall s :: s in states ==> StatusOf(s).Some?)
    && forall i :: 0 < i < |states| ==> Leads(states[i - 1], states[i])
  }

  function NameOf(status: Activities.Status): string {
    match status
    case Proposed => "proposed"
    case Planned => "planned"
    case Ready => "ready"
    case Active => "active"
    case Paused => "paused"
    case Blocked => "blocked"
    case Completed => "completed"
    case Cancelled => "cancelled"
    case Archived => "archived"
  }

  /** A status is named by its own name and no other. */
  lemma StatusMeans(s: string, status: Activities.Status)
    ensures StatusOf(s) == Some(status) <==> s == NameOf(status)
  {
  }

  lemma StateNames(s: string)
    ensures StatusOf(s).Some? ==> TextOk(s, 20)
  {
  }

  /** Among distinct states the transition guard leaves only proper transitions. */
  lemma PathIff(states: seq<string>)
    requires Distinct(states) && forall s :: s in states ==> StatusOf(s).Some?
    ensures StatesConnected(states) <==> IsTransitionPath(states)
  {
  }

  lemma StatesExact()
    ensures forall v :: ListValue(v, 2, 9, ParseState).Some? ==>
              forall s :: s in ListValue(v, 2, 9, ParseState).value ==> StatusOf(s).Some?
    ensures forall states :: ListValue(ListJson(StringJson, states), 2, 9, ParseState) == Some(states) <==>
              2 <= |states| <= 9 && forall s :: s in states ==> StatusOf(s).Some?
  {
    var c, ok := Codec(ParseState, StringJson), (s: string) => StatusOf(s).Some?;
    forall s
      ensures Survives(c, s) <==> ok(s)
    {
      StateNames(s);
    }
    ListExact(c, ok, 2, 9);
  }

  lemma StatesMean(list: Json, values: seq<string>)
    ensures ListValue(list, 2, 9, ParseState) == Some(values) <==>
            && TextsRead(list, values, 20) && 2 <= |values| <= 9
            && forall s :: s in values ==> StatusOf(s).Some?
  {
    if list.Arr? && |list.items| == |values| {
      forall i | 0 <= i < |values|
        ensures ParseState(list.items[i]) == Some(values[i]) <==>
                TextReads(list.items[i], values[i], 20) && StatusOf(values[i]).Some?
      {
        TextMeans(list.items[i], values[i], 20);
        StateNames(values[i]);
      }
      ItemsMean(ParseState, (v: Json, x: string) => TextReads(v, x, 20),
                (x: string) => StatusOf(x).Some?, list.items, values);
    }
  }

  lemma StatesAgain(values: seq<string>)
    ensures ListValue(ListJson(StringJson, values), 2, 9, ParseState) == Some(values) <==>
            2 <= |values| <= 9 && forall s :: s in values ==> StatusOf(s).Some?
  {
    StatesExact();
  }

  predicate ActivityTypeOk(a: ActivityType) {
    && TypeOk(ACTIVITY_TYPES, a.typeName) && TextOk(a.title, 100) && TextOk(a.description, 500)
    && 2 <= |a.states| <= 9 && Distinct(a.states) && IsTransitionPath(a.states)
  }

  ghost predicate ActivityTypeReads(v: Json, a: ActivityType) {
    && v.Obj? && v.fields.Keys == {FType, FLabel, FDescription, FStates}
    && TextReads(v.fields[FType], a.typeName, 70)
    && TextReads(v.fields[FLabel], a.title, 100)
    && TextReads(v.fields[FDescription], a.description, 500)
    && TextsRead(v.fields[FStates], a.states, 20)
  }

  lemma ActivityTypeFieldsMean(v: Json, a: ActivityType)
    requires v.Obj? && v.fields.Keys == {FType, FLabel, FDescription, FStates}
    ensures ParseActivityType(v) == Some(a) <==>
            && TypeValue(ACTIVITY_TYPES, v.fields[FType]) == Some(a.typeName)
            && StringValue(v.fields[FLabel], 100) == Some(a.title)
            && StringValue(v.fields[FDescription], 500) == Some(a.description)
            && ListValue(v.fields[FStates], 2, 9, ParseState) == Some(a.states)
            && Distinct(a.states) && StatesConnected(a.states)
  {
  }

  lemma ActivityTypeMeans(v: Json, a: ActivityType)
    ensures ParseActivityType(v) == Some(a) <==> ActivityTypeReads(v, a) && ActivityTypeOk(a)
  {
    if v.Obj? && v.fields.Keys == {FType, FLabel, FDescription, FStates} {
      ActivityTypeFieldsMean(v, a);
      TextMeans(v.fields[FType], a.typeName, 70);
      TextMeans(v.fields[FLabel], a.title, 100);
      TextMeans(v.fields[FDescription], a.description, 500);
      StatesMean(v.fields[FStates], a.states);
      if Distinct(a.states) && forall s :: s in a.states ==> StatusOf(s).Some? {
        PathIff(a.states);
      }
    }
  }

  lemma ActivityTypeAgain(a: ActivityType)
    ensures ParseActivityType(ActivityTypeJson(a)) == Some(a) <==> ActivityTypeOk(a)
  {
    ActivityTypeFieldsMean(ActivityTypeJson(a), a);
    TypeAgain(ACTIVITY_TYPES, a.typeName);
    TextAgain(a.title, 100);
    TextAgain(a.description, 500);
    StatesAgain(a.states);
    if Distinct(a.states) && forall s :: s in a.states ==> StatusOf(s).Some? {
      PathIff(a.states);
    }
  }

  lemma ActivityTypesExact(xs: seq<ActivityType>)
    ensures Good(ActivityTypesCodec())
    ensures Survives(ActivityTypesCodec(), xs) <==> 1 <= |xs| <= 12 && forall x :: x in xs ==> ActivityTypeOk(x)
  {
    var c, ok := Codec(ParseActivityType, ActivityTypeJson), (x: ActivityType) => ActivityTypeOk(x);
    forall v | c.parse(v).Some?
      ensures ok(c.parse(v).value)
    {
      ActivityTypeMeans(v, ParseActivityType(v).value);
    }
    forall x
      ensures Survives(c, x) <==> ok(x)
    {
      ActivityTypeAgain(x);
    }
    ListExact(c, ok, 1, 12);
  }

  ghost predicate ActivityTypesRead(v: Json, xs: seq<ActivityType>) {
    v.Arr? && |v.items| == |xs| && forall i :: 0 <= i < |xs| ==> ActivityTypeReads(v.items[i], xs[i])
  }

  lemma ActivityTypesMean(v: Json, xs: seq<ActivityType>)
    ensures ActivityTypesCodec().parse(v) == Some(xs) <==>
            ActivityTypesRead(v, xs) && 1 <= |xs| <= 12 && forall x :: x in xs ==> ActivityTypeOk(x)
  {
    if v.Arr? && |v.items| == |xs| {
      forall i | 0 <= i < |xs|
        ensures ParseActivityType(v.items[i]) == Some(xs[i]) <==>
                ActivityTypeReads(v.items[i], xs[i]) && ActivityTypeOk(xs[i])
      {
        ActivityTypeMeans(v.items[i], xs[i]);
      }
      ItemsMean(ParseActivityType, (v: Json, x: ActivityType) => ActivityTypeReads(v, x),
                (x: ActivityType) => ActivityTypeOk(x), v.items, xs);
    }
  }

  /** The one Decision method whose name is longer than the 20 characters that a blueprint allows for it. */
  const LONG_METHOD := "agent_proposal_human_approval"

  lemma MethodNames(s: string)
    ensures s in DECISION_METHODS ==> IsTrimmed(s) && s != "" && (|s| <= 20 <==> s != LONG_METHOD)
    ensures LONG_METHOD in DECISION_METHODS
  {
  }

  /** Of the Decision methods all but one can be chosen. */
  predicate DecisionMethodOk(d: DecisionMethod) {
    && IsKey(d.key) && TextOk(d.title, 100) && TextOk(d.description, 500)
    && d.procedure in DECISION_METHODS && d.procedure != LONG_METHOD
  }

  lemma LongMethodIsRefused(v: Json)
    requires v.Obj? && FMethod in v.fields && v.fields[FMethod] == Str(LONG_METHOD)
    ensures ParseDecisionMethod(v).None?
  {
  }

  ghost predicate DecisionMethodReads(v: Json, d: DecisionMethod) {
    && v.Obj? && v.fields.Keys == {FKey, FLabel, FDescription, FMethod}
    && TextReads(v.fields[FKey], d.key, 63)
    && TextReads(v.fields[FLabel], d.title, 100)
    && TextReads(v.fields[FDescription], d.description, 500)
    && TextReads(v.fields[FMethod], d.procedure, 20)
  }

  lemma DecisionMethodMeans(v: Json, d: DecisionMethod)
    ensures ParseDecisionMethod(v) == Some(d) <==> DecisionMethodReads(v, d) && DecisionMethodOk(d)
  {
    if v.Obj? && v.fields.Keys == {FKey, FLabel, FDescription, FMethod} {
      KeyMeans(v.fields[FKey], d.key);
      TextMeans(v.fields[FLabel], d.title, 100);
      TextMeans(v.fields[FDescription], d.description, 500);
      ChoiceMeans(v.fields[FMethod], d.procedure, 20, DECISION_METHODS);
      MethodNames(d.procedure);
    }
  }

  lemma DecisionMethodAgain(d: DecisionMethod)
    ensures ParseDecisionMethod(DecisionMethodJson(d)) == Some(d) <==> DecisionMethodOk(d)
  {
    KeyAgain(d.key);
    TextAgain(d.title, 100);
    TextAgain(d.description, 500);
    ChoiceAgain(d.procedure, 20, DECISION_METHODS);
    MethodNames(d.procedure);
  }

  lemma DecisionMethodsExact(xs: seq<DecisionMethod>)
    ensures Good(DecisionMethodsCodec())
    ensures Survives(DecisionMethodsCodec(), xs) <==> 1 <= |xs| <= 8 && forall x :: x in xs ==> DecisionMethodOk(x)
  {
    var c, ok := Codec(ParseDecisionMethod, DecisionMethodJson), (x: DecisionMethod) => DecisionMethodOk(x);
    forall v | c.parse(v).Some?
      ensures ok(c.parse(v).value)
    {
      DecisionMethodMeans(v, ParseDecisionMethod(v).value);
    }
    forall x
      ensures Survives(c, x) <==> ok(x)
    {
      DecisionMethodAgain(x);
    }
    ListExact(c, ok, 1, 8);
  }

  ghost predicate DecisionMethodsRead(v: Json, xs: seq<DecisionMethod>) {
    v.Arr? && |v.items| == |xs| && forall i :: 0 <= i < |xs| ==> DecisionMethodReads(v.items[i], xs[i])
  }

  lemma DecisionMethodsMean(v: Json, xs: seq<DecisionMethod>)
    ensures DecisionMethodsCodec().parse(v) == Some(xs) <==>
            DecisionMethodsRead(v, xs) && 1 <= |xs| <= 8 && forall x :: x in xs ==> DecisionMethodOk(x)
  {
    if v.Arr? && |v.items| == |xs| {
      forall i | 0 <= i < |xs|
        ensures ParseDecisionMethod(v.items[i]) == Some(xs[i]) <==>
                DecisionMethodReads(v.items[i], xs[i]) && DecisionMethodOk(xs[i])
      {
        DecisionMethodMeans(v.items[i], xs[i]);
      }
      ItemsMean(ParseDecisionMethod, (v: Json, x: DecisionMethod) => DecisionMethodReads(v, x),
                (x: DecisionMethod) => DecisionMethodOk(x), v.items, xs);
    }
  }

  // ----- Home layout -----

  lemma IntentNames(s: string)
    ensures s in DASHBOARD_INTENTS ==> TextOk(s, 20)
  {
  }

  lemma IntentsExact(xs: seq<string>)
    ensures Good(IntentsCodec())
    ensures Survives(IntentsCodec(), xs) <==> 3 <= |xs| <= 5 && forall x :: x in xs ==> x in DASHBOARD_INTENTS
  {
    var c, ok := Codec(ChoiceParser(20, DASHBOARD_INTENTS), StringJson), (s: string) => s in DASHBOARD_INTENTS;
    forall s
      ensures Survives(c, s) <==> ok(s)
    {
      ChoiceAgain(s, 20, DASHBOARD_INTENTS);
      IntentNames(s);
    }
    ListExact(c, ok, 3, 5);
  }

  lemma IntentsMean(v: Json, xs: seq<string>)
    ensures IntentsCodec().parse(v) == Some(xs) <==>
            TextsRead(v, xs, 20) && 3 <= |xs| <= 5 && forall x :: x in xs ==> x in DASHBOARD_INTENTS
  {
    if v.Arr? && |v.items| == |xs| {
      forall i | 0 <= i < |xs|
        ensures ChoiceParser(20, DASHBOARD_INTENTS)(v.items[i]) == Some(xs[i]) <==>
                TextReads(v.items[i], xs[i], 20) && xs[i] in DASHBOARD_INTENTS
      {
        ChoiceMeans(v.items[i], xs[i], 20, DASHBOARD_INTENTS);
        IntentNames(xs[i]);
      }
      ItemsMean(ChoiceParser(20, DASHBOARD_INTENTS), (v: Json, x: string) => TextReads(v, x, 20),
                (x: string) => x in DASHBOARD_INTENTS, v.items, xs);
    }
  }

  // ----- workflows -----

  predicate WorkflowOk(w: Workflow) {
    && IsKey(w.key) && TextOk(w.name, 100) && TextOk(w.description, 500)
    && (w.activityType.Some? ==> TypeOk(ACTIVITY_TYPES, w.activityType.value))
    && (w.memoryType.Some? ==> TypeOk(MEMORY_TYPES, w.memoryType.value))
    && (w.decisionMethodKey.Some? ==> IsKey(w.decisionMethodKey.value))
  }

  lemma NullableTypeAgain(known: set<string>, s: Option<string>)
    ensures Nullable(TypeParser(known), OptionalJson(s)) == Some(s) <==> (s.Some? ==> TypeOk(known, s.value))
  {
    if s.Some? {
      TypeAgain(known, s.value);
    }
  }

  lemma NullableKeyAgain(s: Option<string>)
    ensures Nullable(KeyValue, OptionalJson(s)) == Some(s) <==> (s.Some? ==> IsKey(s.value))
  {
    if s.Some? {
      KeyAgain(s.value);
    }
  }

  lemma NullableTypeMeans(known: set<string>, v: Json, s: Option<string>)
    ensures Nullable(TypeParser(known), v) == Some(s) <==>
            OptionReads(v, s, 70) && (s.Some? ==> TypeOk(known, s.value))
  {
    if s.Some? {
      TextMeans(v, s.value, 70);
    }
  }

  lemma NullableKeyMeans(v: Json, s: Option<string>)
    ensures Nullable(KeyValue, v) == Some(s) <==> OptionReads(v, s, 63) && (s.Some? ==> IsKey(s.value))
  {
    if s.Some? {
      KeyMeans(v, s.value);
    }
  }

  lemma WorkflowByFields(w: Workflow)
    ensures ParseWorkflow(WorkflowJson(w)) == Some(w) <==>
            && KeyValue(Str(w.key)) == Some(w.key)
            && StringValue(Str(w.name), 100) == Some(w.name)
            && StringValue(Str(w.description), 500) == Some(w.description)
            && Nullable(TypeParser(ACTIVITY_TYPES), OptionalJson(w.activityType)) == Some(w.activityType)
            && Nullable(TypeParser(MEMORY_TYPES), OptionalJson(w.memoryType)) == Some(w.memoryType)
            && Nullable(KeyValue, OptionalJson(w.decisionMethodKey)) == Some(w.decisionMethodKey)
  {
  }

  ghost predicate WorkflowReads(v: Json, w: Workflow) {
    && v.Obj? && v.fields.Keys == {FKey, FName, FDescription, FActivityType, FMemoryType, FDecisionMethodKey}
    && TextReads(v.fields[FKey], w.key, 63)
    && TextReads(v.fields[FName], w.name, 100)
    && TextReads(v.fields[FDescription], w.description, 500)
    && OptionReads(v.fields[FActivityType], w.activityType, 70)
    && OptionReads(v.fields[FMemoryType], w.memoryType, 70)
    && OptionReads(v.fields[FDecisionMethodKey], w.decisionMethodKey, 63)
  }

  lemma WorkflowMeans(v: Json, w: Workflow)
    ensures ParseWorkflow(v) == Some(w) <==> WorkflowReads(v, w) && WorkflowOk(w)
  {
    if v.Obj? && v.fields.Keys == {FKey, FName, FDescription, FActivityType, FMemoryType, FDecisionMethodKey} {
      KeyMeans(v.fields[FKey], w.key);
      TextMeans(v.fields[FName], w.name, 100);
      TextMeans(v.fields[FDescription], w.description, 500);
      NullableTypeMeans(ACTIVITY_TYPES, v.fields[FActivityType], w.activityType);
      NullableTypeMeans(MEMORY_TYPES, v.fields[FMemoryType], w.memoryType);
      NullableKeyMeans(v.fields[FDecisionMethodKey], w.decisionMethodKey);
    }
  }

  lemma WorkflowAgain(w: Workflow)
    ensures ParseWorkflow(WorkflowJson(w)) == Some(w) <==> WorkflowOk(w)
  {
    WorkflowByFields(w);
    KeyAgain(w.key);
    TextAgain(w.name, 100);
    TextAgain(w.description, 500);
    NullableTypeAgain(ACTIVITY_TYPES, w.activityType);
    NullableTypeAgain(MEMORY_TYPES, w.memoryType);
    NullableKeyAgain(w.decisionMethodKey);
  }

  lemma WorkflowsExact(xs: seq<Workflow>)
    ensures Good(WorkflowsCodec())
    ensures Survives(WorkflowsCodec(), xs) <==> 1 <= |xs| <= 12 && forall x :: x in xs ==> WorkflowOk(x)
  {
    var c, ok := Codec(ParseWorkflow, WorkflowJson), (x: Workflow) => WorkflowOk(x);
    forall v | c.parse(v).Some?
      ensures ok(c.parse(v).value)
    {
      WorkflowMeans(v, ParseWorkflow(v).value);
    }
    forall x
      ensures Survives(c, x) <==> ok(x)
    {
      WorkflowAgain(x);
    }
    ListExact(c, ok, 1, 12);
  }

  ghost predicate WorkflowsRead(v: Json, xs: seq<Workflow>) {
    v.Arr? && |v.items| == |xs| && forall i :: 0 <= i < |xs| ==> WorkflowReads(v.items[i], xs[i])
  }

  lemma WorkflowsMean(v: Json, xs: seq<Workflow>)
    ensures WorkflowsCodec().parse(v) == Some(xs) <==>
            WorkflowsRead(v, xs) && 1 <= |xs| <= 12 && forall x :: x in xs ==> WorkflowOk(x)
  {
    if v.Arr? && |v.items| == |xs| {
      forall i | 0 <= i < |xs|
        ensures ParseWorkflow(v.items[i]) == Some(xs[i]) <==> WorkflowReads(v.items[i], xs[i]) && WorkflowOk(xs[i])
      {
        WorkflowMeans(v.items[i], xs[i]);
      }
      ItemsMean(ParseWorkflow, (v: Json, x: Workflow) => WorkflowReads(v, x),
                (x: Workflow) => WorkflowOk(x), v.items, xs);
    }
  }

  // ----- agents -----

  predicate AgentLimitsOk(l: AgentLimits) {
    && 0 <= l.budget <= 100_000_000 && 1_000 <= l.tokens <= 10_000_000 && 1 <= l.duration <= 86_400
    && 1 <= l.steps <= 1_000 && 0 <= l.retries <= 20 && 0 <= l.delegations <= 20
  }

  /** What an agent must be apart from its role. */
  predicate AgentShapeOk(a: Agent) {
    && TextOk(a.name, 100) && TextOk(a.purpose, 1_000) && AgentLimitsOk(a.limits) && IsKey(a.approvalPolicyKey)
    && a.permissions != [] && Distinct(a.permissions)
    && a.toolIds != [] && Distinct(a.toolIds) && forall tool :: tool in a.toolIds ==> tool in TOOLS
  }

  /** The agent's permissions are safe, not reserved to Humans, and held by the role. */
  predicate Backs(t: Tables, r: Role, a: Agent) {
    && r.key == a.roleKey
    && forall p :: p in a.permissions ==> p in t.safeAgent && p !in t.humanOnly && p in r.capabilities
  }

  /** The first role of the agent's key backs it. */
  predicate AgentOk(t: Tables, roles: seq<Role>, a: Agent) {
    && AgentShapeOk(a) && IsKey(a.roleKey)
    && FindRole(roles, a.roleKey).Some? && Backs(t, FindRole(roles, a.roleKey).value, a)
  }

  lemma PermissionsOkIff(t: Tables, r: Role, a: Agent)
    requires r.key == a.roleKey
    ensures AgentPermissionsOk(t, r, a.permissions) <==>
            a.permissions != [] && Distinct(a.permissions) && Backs(t, r, a)
  {
    if Distinct(a.permissions) && Backs(t, r, a) {
      DistinctWithin(a.permissions, t.safeAgent);
    }
  }

  lemma ToolsOkIff(toolIds: seq<string>)
    ensures (1 <= |toolIds| <= 2 && Distinct(toolIds) && forall tool :: tool in toolIds ==> tool in TOOLS) <==>
            (toolIds != [] && Distinct(toolIds) && forall tool :: tool in toolIds ==> tool in TOOLS)
  {
    assert |TOOLS| == 2;
    if Distinct(toolIds) && forall tool :: tool in toolIds ==> tool in TOOLS {
      DistinctWithin(toolIds, TOOLS);
    }
  }

  lemma AgentLimitsAgain(l: AgentLimits)
    ensures ParseAgentLimits(AgentLimitsJson(l)) == Some(l) <==> AgentLimitsOk(l)
  {
  }

  lemma ExternalActionIsKey()
    ensures IsTrimmed(EXTERNAL_ACTION) && IsKey(EXTERNAL_ACTION)
  {
  }

  ghost predicate LimitsRead(v: Json, l: AgentLimits) {
    && v.Obj?
    && v.fields.Keys == {FMaximumBudgetUsdCents, FMaximumTokens, FMaximumDurationSeconds, FMaximumSteps,
                         FMaximumRetries, FMaximumDelegations}
    && v.fields[FMaximumBudgetUsdCents] == Int(l.budget) && v.fields[FMaximumTokens] == Int(l.tokens)
    && v.fields[FMaximumDurationSeconds] == Int(l.duration) && v.fields[FMaximumSteps] == Int(l.steps)
    && v.fields[FMaximumRetries] == Int(l.retries) && v.fields[FMaximumDelegations] == Int(l.delegations)
  }

  lemma LimitsMean(v: Json, l: AgentLimits)
    ensures ParseAgentLimits(v) == Some(l) <==> LimitsRead(v, l) && AgentLimitsOk(l)
  {
  }

  /** Limits and approval policy are as written; only schema 1 may leave them out, and gets the defaults. */
  ghost predicate AgentReads(legacy: bool, v: Json, a: Agent) {
    && v.Obj? && {FName, FPurpose, FRoleKey, FPermissions, FToolIds} <= v.fields.Keys
    && v.fields.Keys <= {FName, FPurpose, FRoleKey, FPermissions, FToolIds, FLimits, FApprovalPolicyKey}
    && (!legacy ==> FLimits in v.fields && FApprovalPolicyKey in v.fields)
    && TextReads(v.fields[FName], a.name, 100) && TextReads(v.fields[FPurpose], a.purpose, 1_000)
    && TextReads(v.fields[FRoleKey], a.roleKey, 63)
    && StringsRead(v.fields[FPermissions], a.permissions) && StringsRead(v.fields[FToolIds], a.toolIds)
    && (if FLimits in v.fields then LimitsRead(v.fields[FLimits], a.limits)
        else a.limits == AgentLimits(0, 32_000, 300, 12, 1, 0))
    && if FApprovalPolicyKey in v.fields then TextReads(v.fields[FApprovalPolicyKey], a.approvalPolicyKey, 63)
       else a.approvalPolicyKey == "external-action"
  }

  ghost predicate AgentLaterFields(v: Json, a: Agent)
    requires v.Obj?
  {
    && (if FLimits in v.fields then ParseAgentLimits(v.fields[FLimits]) == Some(a.limits)
        else a.limits == DEFAULT_LIMITS)
    && if FApprovalPolicyKey in v.fields then KeyValue(v.fields[FApprovalPolicyKey]) == Some(a.approvalPolicyKey)
       else a.approvalPolicyKey == EXTERNAL_ACTION
  }

  lemma AgentFieldsMean(t: Tables, roles: seq<Role>, legacy: bool, v: Json, a: Agent)
    requires v.Obj? && {FName, FPurpose, FRoleKey, FPermissions, FToolIds} <= v.fields.Keys
    requires v.fields.Keys <= {FName, FPurpose, FRoleKey, FPermissions, FToolIds, FLimits, FApprovalPolicyKey}
    requires !legacy ==> FLimits in v.fields && FApprovalPolicyKey in v.fields
    ensures ParseAgent(t, roles, legacy, v) == Some(a) <==>
            && KeyValue(v.fields[FRoleKey]) == Some(a.roleKey)
            && StringValue(v.fields[FName], 100) == Some(a.name)
            && StringValue(v.fields[FPurpose], 1_000) == Some(a.purpose)
            && StringList(v.fields[FPermissions]) == Some(a.permissions)
            && StringList(v.fields[FToolIds]) == Some(a.toolIds)
            && AgentLaterFields(v, a)
            && FindRole(roles, a.roleKey).Some?
            && AgentPermissionsOk(t, FindRole(roles, a.roleKey).value, a.permissions)
            && 1 <= |a.toolIds| <= 2 && Distinct(a.toolIds) && forall tool :: tool in a.toolIds ==> tool in TOOLS
  {
  }

  lemma AgentLaterFieldsMean(v: Json, a: Agent)
    requires v.Obj?
    ensures AgentLaterFields(v, a) <==>
            && (if FLimits in v.fields then LimitsRead(v.fields[FLimits], a.limits) && AgentLimitsOk(a.limits)
                else a.limits == AgentLimits(0, 32_000, 300, 12, 1, 0))
            && if FApprovalPolicyKey in v.fields
               then TextReads(v.fields[FApprovalPolicyKey], a.approvalPolicyKey, 63) && IsKey(a.approvalPolicyKey)
               else a.approvalPolicyKey == "external-action"
    ensures AgentLaterFields(v, a) ==> AgentLimitsOk(a.limits) && IsKey(a.approvalPolicyKey)
  {
    ExternalActionIsKey();
    if FLimits in v.fields {
      LimitsMean(v.fields[FLimits], a.limits);
    }
    if FApprovalPolicyKey in v.fields {
      KeyMeans(v.fields[FApprovalPolicyKey], a.approvalPolicyKey);
    }
  }

  /** An agent of either schema: what it reads as, with the defaults of schema 1, has the form of an agent. */
  lemma AgentMeans(t: Tables, roles: seq<Role>, legacy: bool, v: Json, a: Agent)
    ensures ParseAgent(t, roles, legacy, v) == Some(a) <==> AgentReads(legacy, v, a) && AgentOk(t, roles, a)
  {
    if && v.Obj? && {FName, FPurpose, FRoleKey, FPermissions, FToolIds} <= v.fields.Keys
       && v.fields.Keys <= {FName, FPurpose, FRoleKey, FPermissions, FToolIds, FLimits, FApprovalPolicyKey}
       && (!legacy ==> FLimits in v.fields && FApprovalPolicyKey in v.fields) {
      AgentFieldsMean(t, roles, legacy, v, a);
      AgentLaterFieldsMean(v, a);
      KeyMeans(v.fields[FRoleKey], a.roleKey);
      TextMeans(v.fields[FName], a.name, 100);
      TextMeans(v.fields[FPurpose], a.purpose, 1_000);
      StringsMean(v.fields[FPermissions], a.permissions);
      StringsMean(v.fields[FToolIds], a.toolIds);
      ToolsOkIff(a.toolIds);
      if FindRole(roles, a.roleKey).Some? {
        PermissionsOkIff(t, FindRole(roles, a.roleKey).value, a);
      }
    }
  }

  predicate AgentSpelled(v: Json, a: Agent) {
    && v.Obj?
    && v.fields.Keys == {FName, FPurpose, FRoleKey, FPermissions, FToolIds, FLimits, FApprovalPolicyKey}
    && v.fields[FName] == Str(a.name) && v.fields[FPurpose] == Str(a.purpose) && v.fields[FRoleKey] == Str(a.roleKey)
    && v.fields[FPermissions] == ListJson(StringJson, a.permissions)
    && v.fields[FToolIds] == ListJson(StringJson, a.toolIds) && v.fields[FLimits] == AgentLimitsJson(a.limits)
    && v.fields[FApprovalPolicyKey] == Str(a.approvalPolicyKey)
  }

  lemma AgentJsonSpells(a: Agent)
    ensures AgentSpelled(AgentJson(a), a)
  {
  }

  lemma AgentByFields(t: Tables, roles: seq<Role>, v: Json, a: Agent)
    requires AgentSpelled(v, a)
    ensures ParseAgent(t, roles, false, v) == Some(a) <==>
            && KeyValue(Str(a.roleKey)) == Some(a.roleKey)
            && KeyValue(Str(a.approvalPolicyKey)) == Some(a.approvalPolicyKey)
            && StringValue(Str(a.name), 100) == Some(a.name)
            && StringValue(Str(a.purpose), 1_000) == Some(a.purpose)
            && ParseAgentLimits(AgentLimitsJson(a.limits)) == Some(a.limits)
            && FindRole(roles, a.roleKey).Some?
            && AgentPermissionsOk(t, FindRole(roles, a.roleKey).value, a.permissions)
            && 1 <= |a.toolIds| <= 2 && Distinct(a.toolIds) && forall tool :: tool in a.toolIds ==> tool in TOOLS
  {
    AgentFieldsMean(t, roles, false, v, a);
    StringsAgain(a.permissions);
    StringsAgain(a.toolIds);
  }

  lemma AgentAgain(t: Tables, roles: seq<Role>, a: Agent)
    ensures ParseAgent(t, roles, false, AgentJson(a)) == Some(a) <==> AgentOk(t, roles, a)
  {
    AgentJsonSpells(a);
    AgentByFields(t, roles, AgentJson(a), a);
    KeyAgain(a.roleKey);
    KeyAgain(a.approvalPolicyKey);
    TextAgain(a.name, 100);
    TextAgain(a.purpose, 1_000);
    AgentLimitsAgain(a.limits);
    ToolsOkIff(a.toolIds);
    if FindRole(roles, a.roleKey).Some? {
      PermissionsOkIff(t, FindRole(roles, a.roleKey).value, a);
    }
  }

  lemma AgentsExact(t: Tables, roles: seq<Role>, xs: seq<Agent>)
    ensures Good(AgentsCodec(t, roles))
    ensures Survives(AgentsCodec(t, roles), xs) <==> |xs| <= 6 && forall x :: x in xs ==> AgentOk(t, roles, x)
  {
    var c, ok := AgentCodec(t, roles, false), (a: Agent) => AgentOk(t, roles, a);
    forall v | c.parse(v).Some?
      ensures ok(c.parse(v).value)
    {
      AgentMeans(t, roles, false, v, ParseAgent(t, roles, false, v).value);
    }
    forall a
      ensures Survives(c, a) <==> ok(a)
    {
      AgentAgain(t, roles, a);
    }
    ListExact(c, ok, 0, 6);
  }

  ghost predicate AgentsRead(v: Json, xs: seq<Agent>) {
    v.Arr? && |v.items| == |xs| && forall i :: 0 <= i < |xs| ==> AgentReads(false, v.items[i], xs[i])
  }

  lemma AgentsMean(t: Tables, roles: seq<Role>, v: Json, xs: seq<Agent>)
    ensures AgentsCodec(t, roles).parse(v) == Some(xs) <==>
            AgentsRead(v, xs) && |xs| <= 6 && forall x :: x in xs ==> AgentOk(t, roles, x)
  {
    if v.Arr? && |v.items| == |xs| {
      forall i | 0 <= i < |xs|
        ensures AgentCodec(t, roles, false).parse(v.items[i]) == Some(xs[i]) <==>
                AgentReads(false, v.items[i], xs[i]) && AgentOk(t, roles, xs[i])
      {
        AgentMeans(t, roles, false, v.items[i], xs[i]);
      }
      ItemsMean(AgentCodec(t, roles, false).parse, (v: Json, x: Agent) => AgentReads(false, v, x),
                (x: Agent) => AgentOk(t, roles, x), v.items, xs);
    }
  }

  // ----- theme, approval policies, connections -----

  lemma ThemeNames(s: string)
    ensures s in PRESETS || s in ACCENTS ==> TextOk(s, 20)
  {
  }

  predicate ThemeOk(x: Theme) {
    x.preset in PRESETS && x.accent in ACCENTS && TextOk(x.description, 500)
  }

  ghost predicate ThemeReads(v: Json, x: Theme) {
    && v.Obj? && v.fields.Keys == {FPreset, FAccent, FDescription}
    && TextReads(v.fields[FPreset], x.preset, 20)
    && TextReads(v.fields[FAccent], x.accent, 20)
    && TextReads(v.fields[FDescription], x.description, 500)
  }

  lemma ThemeMeans(v: Json, x: Theme)
    ensures ParseTheme(v) == Some(x) <==> ThemeReads(v, x) && ThemeOk(x)
  {
    if v.Obj? && v.fields.Keys == {FPreset, FAccent, FDescription} {
      ChoiceMeans(v.fields[FPreset], x.preset, 20, PRESETS);
      ChoiceMeans(v.fields[FAccent], x.accent, 20, ACCENTS);
      TextMeans(v.fields[FDescription], x.description, 500);
      ThemeNames(x.preset);
      ThemeNames(x.accent);
    }
  }

  lemma ThemeAgain(x: Theme)
    ensures ParseTheme(ThemeJson(x)) == Some(x) <==> ThemeOk(x)
  {
    ChoiceAgain(x.preset, 20, PRESETS);
    ChoiceAgain(x.accent, 20, ACCENTS);
    TextAgain(x.description, 500);
    ThemeNames(x.preset);
    ThemeNames(x.accent);
  }

  predicate PolicyOk(p: Policy) {
    && IsKey(p.key) && TextOk(p.name, 100) && TextOk(p.description, 500) && 0 <= p.riskLevel <= 3
    && IsKey(p.decisionMethodKey) && 0 <= p.minimumApprovals <= 20
  }

  ghost predicate PolicyReads(v: Json, p: Policy) {
    && v.Obj?
    && v.fields.Keys == {FKey, FName, FDescription, FRiskLevel, FDecisionMethodKey, FMinimumApprovals, FHumanRequired}
    && TextReads(v.fields[FKey], p.key, 63)
    && TextReads(v.fields[FName], p.name, 100)
    && TextReads(v.fields[FDescription], p.description, 500)
    && v.fields[FRiskLevel] == Int(p.riskLevel)
    && TextReads(v.fields[FDecisionMethodKey], p.decisionMethodKey, 63)
    && v.fields[FMinimumApprovals] == Int(p.minimumApprovals)
    && v.fields[FHumanRequired] == Bool(p.humanRequired)
  }

  lemma PolicyFieldsMean(v: Json, p: Policy)
    requires v.Obj? && v.fields.Keys == {FKey, FName, FDescription, FRiskLevel, FDecisionMethodKey, FMinimumApprovals,
                                         FHumanRequired}
    ensures ParsePolicy(v) == Some(p) <==>
            && KeyValue(v.fields[FKey]) == Some(p.key) && StringValue(v.fields[FName], 100) == Some(p.name)
            && StringValue(v.fields[FDescription], 500) == Some(p.description)
            && KeyValue(v.fields[FDecisionMethodKey]) == Some(p.decisionMethodKey)
            && v.fields[FRiskLevel] == Int(p.riskLevel) && 0 <= p.riskLevel <= 3
            && v.fields[FMinimumApprovals] == Int(p.minimumApprovals) && 0 <= p.minimumApprovals <= 20
            && v.fields[FHumanRequired] == Bool(p.humanRequired)
  {
  }

  lemma PolicyMeans(v: Json, p: Policy)
    ensures ParsePolicy(v) == Some(p) <==> PolicyReads(v, p) && PolicyOk(p)
  {
    if v.Obj? && v.fields.Keys == {FKey, FName, FDescription, FRiskLevel, FDecisionMethodKey, FMinimumApprovals,
                                   FHumanRequired} {
      PolicyFieldsMean(v, p);
      KeyMeans(v.fields[FKey], p.key);
      TextMeans(v.fields[FName], p.name, 100);
      TextMeans(v.fields[FDescription], p.description, 500);
      KeyMeans(v.fields[FDecisionMethodKey], p.decisionMethodKey);
    }
  }

  lemma PolicyAgain(p: Policy)
    ensures ParsePolicy(PolicyJson(p)) == Some(p) <==> PolicyOk(p)
  {
    PolicyFieldsMean(PolicyJson(p), p);
    KeyAgain(p.key);
    KeyAgain(p.decisionMethodKey);
    TextAgain(p.name, 100);
    TextAgain(p.description, 500);
  }

  lemma PoliciesExact(xs: seq<Policy>)
    ensures Good(PoliciesCodec())
    ensures Survives(PoliciesCodec(), xs) <==> 1 <= |xs| <= 8 && forall x :: x in xs ==> PolicyOk(x)
  {
    var c, ok := Codec(ParsePolicy, PolicyJson), (x: Policy) => PolicyOk(x);
    forall v | c.parse(v).Some?
      ensures ok(c.parse(v).value)
    {
      PolicyMeans(v, ParsePolicy(v).value);
    }
    forall x
      ensures Survives(c, x) <==> ok(x)
    {
      PolicyAgain(x);
    }
    ListExact(c, ok, 1, 8);
  }

  ghost predicate PoliciesRead(v: Json, xs: seq<Policy>) {
    v.Arr? && |v.items| == |xs| && forall i :: 0 <= i < |xs| ==> PolicyReads(v.items[i], xs[i])
  }

  lemma PoliciesMean(v: Json, xs: seq<Policy>)
    ensures PoliciesCodec().parse(v) == Some(xs) <==>
            PoliciesRead(v, xs) && 1 <= |xs| <= 8 && forall x :: x in xs ==> PolicyOk(x)
  {
    if v.Arr? && |v.items| == |xs| {
      forall i | 0 <= i < |xs|
        ensures ParsePolicy(v.items[i]) == Some(xs[i]) <==> PolicyReads(v.items[i], xs[i]) && PolicyOk(xs[i])
      {
        PolicyMeans(v.items[i], xs[i]);
      }
      ItemsMean(ParsePolicy, (v: Json, x: Policy) => PolicyReads(v, x), (x: Policy) => PolicyOk(x), v.items, xs);
    }
  }

  lemma AllowlistOkIff(t: Tables, allowlist: seq<Permission>)
    ensures AllowlistOk(t, allowlist) <==> Distinct(allowlist) && forall p :: p in allowlist ==> p in t.permissions
  {
    if Distinct(allowlist) && forall p :: p in allowlist ==> p in t.permissions {
      DistinctWithin(allowlist, Elements(t.permissions));
      CountBound(t.permissions);
    }
  }

  lemma KindNames(s: string)
    ensures s in CONNECTION_KINDS ==> TextOk(s, 30)
  {
  }

  predicate ConnectionOk(t: Tables, k: Connection) {
    && IsKey(k.key) && TextOk(k.name, 100) && TextOk(k.description, 500) && k.kind in CONNECTION_KINDS
    && Distinct(k.allowlist) && forall p :: p in k.allowlist ==> p in t.permissions
  }

  ghost predicate ConnectionReads(v: Json, k: Connection) {
    && v.Obj? && v.fields.Keys == {FKey, FName, FDescription, FKind, FCapabilityAllowlist, FHumanApprovalRequired}
    && TextReads(v.fields[FKey], k.key, 63)
    && TextReads(v.fields[FName], k.name, 100)
    && TextReads(v.fields[FDescription], k.description, 500)
    && TextReads(v.fields[FKind], k.kind, 30)
    && StringsRead(v.fields[FCapabilityAllowlist], k.allowlist)
    && v.fields[FHumanApprovalRequired] == Bool(k.approvalRequired)
  }

  lemma ConnectionMeans(t: Tables, v: Json, k: Connection)
    ensures ParseConnection(t, v) == Some(k) <==> ConnectionReads(v, k) && ConnectionOk(t, k)
  {
    if v.Obj? && v.fields.Keys == {FKey, FName, FDescription, FKind, FCapabilityAllowlist, FHumanApprovalRequired} {
      KeyMeans(v.fields[FKey], k.key);
      TextMeans(v.fields[FName], k.name, 100);
      TextMeans(v.fields[FDescription], k.description, 500);
      ChoiceMeans(v.fields[FKind], k.kind, 30, CONNECTION_KINDS);
      KindNames(k.kind);
      StringsMean(v.fields[FCapabilityAllowlist], k.allowlist);
      AllowlistOkIff(t, k.allowlist);
    }
  }

  lemma ConnectionByFields(t: Tables, k: Connection)
    ensures ParseConnection(t, ConnectionJson(k)) == Some(k) <==>
            && KeyValue(Str(k.key)) == Some(k.key) && StringValue(Str(k.name), 100) == Some(k.name)
            && StringValue(Str(k.description), 500) == Some(k.description)
            && ChoiceValue(Str(k.kind), 30, CONNECTION_KINDS) == Some(k.kind) && AllowlistOk(t, k.allowlist)
  {
    StringsAgain(k.allowlist);
  }

  lemma ConnectionAgain(t: Tables, k: Connection)
    ensures ParseConnection(t, ConnectionJson(k)) == Some(k) <==> ConnectionOk(t, k)
  {
    ConnectionByFields(t, k);
    KeyAgain(k.key);
    TextAgain(k.name, 100);
    TextAgain(k.description, 500);
    ChoiceAgain(k.kind, 30, CONNECTION_KINDS);
    KindNames(k.kind);
    AllowlistOkIff(t, k.allowlist);
  }

  lemma ConnectionsExact(t: Tables, xs: seq<Connection>)
    ensures Good(ConnectionsCodec(t))
    ensures Survives(ConnectionsCodec(t), xs) <==> |xs| <= 12 && forall x :: x in xs ==> ConnectionOk(t, x)
  {
    var c, ok := Codec(ConnectionParser(t), ConnectionJson), (x: Connection) => ConnectionOk(t, x);
    forall v | c.parse(v).Some?
      ensures ok(c.parse(v).value)
    {
      ConnectionMeans(t, v, ParseConnection(t, v).value);
    }
    forall x
      ensures Survives(c, x) <==> ok(x)
    {
      ConnectionAgain(t, x);
    }
    ListExact(c, ok, 0, 12);
  }

  ghost predicate ConnectionsRead(v: Json, xs: seq<Connection>) {
    v.Arr? && |v.items| == |xs| && forall i :: 0 <= i < |xs| ==> ConnectionReads(v.items[i], xs[i])
  }

  lemma ConnectionsMean(t: Tables, v: Json, xs: seq<Connection>)
    ensures ConnectionsCodec(t).parse(v) == Some(xs) <==>
            ConnectionsRead(v, xs) && |xs| <= 12 && forall x :: x in xs ==> ConnectionOk(t, x)
  {
    if v.Arr? && |v.items| == |xs| {
      forall i | 0 <= i < |xs|
        ensures ConnectionParser(t)(v.items[i]) == Some(xs[i]) <==>
                ConnectionReads(v.items[i], xs[i]) && ConnectionOk(t, xs[i])
      {
        ConnectionMeans(t, v.items[i], xs[i]);
      }
      ItemsMean(ConnectionParser(t), (v: Json, x: Connection) => ConnectionReads(v, x),
                (x: Connection) => ConnectionOk(t, x), v.items, xs);
    }
  }

  // ----- lifecycle, retention, export -----

  lemma StepsExact()
    ensures forall v :: ListValue(v, 1, 12, TextParser(300)).Some? ==>
              forall s :: s in ListValue(v, 1, 12, TextParser(300)).value ==> TextOk(s, 300)
    ensures forall steps :: ListValue(ListJson(StringJson, steps), 1, 12, TextParser(300)) == Some(steps) <==>
              1 <= |steps| <= 12 && forall s :: s in steps ==> TextOk(s, 300)
  {
    var c, ok := TextCodec(300), (s: string) => TextOk(s, 300);
    forall s
      ensures Survives(c, s) <==> ok(s)
    {
      TextAgain(s, 300);
    }
    ListExact(c, ok, 1, 12);
  }

  lemma StepsMean(list: Json, values: seq<string>)
    ensures ListValue(list, 1, 12, TextParser(300)) == Some(values) <==>
            && TextsRead(list, values, 300) && 1 <= |values| <= 12
            && forall s :: s in values ==> TextOk(s, 300)
  {
    if list.Arr? && |list.items| == |values| {
      forall i | 0 <= i < |values|
        ensures TextParser(300)(list.items[i]) == Some(values[i]) <==>
                TextReads(list.items[i], values[i], 300) && TextOk(values[i], 300)
      {
        TextMeans(list.items[i], values[i], 300);
      }
      ItemsMean(TextParser(300), (v: Json, x: string) => TextReads(v, x, 300),
                (x: string) => TextOk(x, 300), list.items, values);
    }
  }

  lemma StepsAgain(values: seq<string>)
    ensures ListValue(ListJson(StringJson, values), 1, 12, TextParser(300)) == Some(values) <==>
            1 <= |values| <= 12 && forall s :: s in values ==> TextOk(s, 300)
  {
    StepsExact();
  }

  predicate LifecycleOk(x: Lifecycle) {
    && TextOk(x.name, 100) && TextOk(x.description, 500)
    && 1 <= |x.steps| <= 12 && forall s :: s in x.steps ==> TextOk(s, 300)
  }

  ghost predicate LifecycleReads(v: Json, x: Lifecycle) {
    && v.Obj? && v.fields.Keys == {FName, FDescription, FSteps}
    && TextReads(v.fields[FName], x.name, 100)
    && TextReads(v.fields[FDescription], x.description, 500)
    && TextsRead(v.fields[FSteps], x.steps, 300)
  }

  lemma LifecycleMeans(v: Json, x: Lifecycle)
    ensures ParseLifecycle(v) == Some(x) <==> LifecycleReads(v, x) && LifecycleOk(x)
  {
    if v.Obj? && v.fields.Keys == {FName, FDescription, FSteps} {
      TextMeans(v.fields[FName], x.name, 100);
      TextMeans(v.fields[FDescription], x.description, 500);
      StepsMean(v.fields[FSteps], x.steps);
    }
  }

  lemma LifecycleAgain(x: Lifecycle)
    ensures ParseLifecycle(LifecycleJson(x)) == Some(x) <==> LifecycleOk(x)
  {
    TextAgain(x.name, 100);
    TextAgain(x.description, 500);
    StepsAgain(x.steps);
  }

  predicate RetentionOk(x: Retention) {
    1 <= x.defaultDays <= 36_500 && TextOk(x.description, 500)
  }

  ghost predicate RetentionReads(v: Json, x: Retention) {
    && v.Obj? && v.fields.Keys == {FDefaultDays, FDescription, FDryRunRequired}
    && v.fields[FDefaultDays] == Int(x.defaultDays)
    && TextReads(v.fields[FDescription], x.description, 500)
    && v.fields[FDryRunRequired] == Bool(true)
  }

  lemma RetentionMeans(v: Json, x: Retention)
    ensures ParseRetention(v) == Some(x) <==> RetentionReads(v, x) && RetentionOk(x)
  {
    if v.Obj? && v.fields.Keys == {FDefaultDays, FDescription, FDryRunRequired} {
      TextMeans(v.fields[FDescription], x.description, 500);
    }
  }

  lemma RetentionAgain(x: Retention)
    ensures ParseRetention(RetentionJson(x)) == Some(x) <==> RetentionOk(x)
  {
    TextAgain(x.description, 500);
  }

  lemma FormatNames(s: string)
    ensures s in EXPORT_FORMATS ==> TextOk(s, 20)
  {
  }

  lemma FormatsExact()
    ensures forall v :: ListValue(v, 1, 4, ChoiceParser(20, EXPORT_FORMATS)).Some? ==>
              forall s :: s in ListValue(v, 1, 4, ChoiceParser(20, EXPORT_FORMATS)).value ==> s in EXPORT_FORMATS
    ensures forall xs :: ListValue(ListJson(StringJson, xs), 1, 4, ChoiceParser(20, EXPORT_FORMATS)) == Some(xs) <==>
              1 <= |xs| <= 4 && forall s :: s in xs ==> s in EXPORT_FORMATS
  {
    var c, ok := Codec(ChoiceParser(20, EXPORT_FORMATS), StringJson), (s: string) => s in EXPORT_FORMATS;
    forall s
      ensures Survives(c, s) <==> ok(s)
    {
      ChoiceAgain(s, 20, EXPORT_FORMATS);
      FormatNames(s);
    }
    ListExact(c, ok, 1, 4);
  }

  lemma FormatsMean(list: Json, values: seq<string>)
    ensures ListValue(list, 1, 4, ChoiceParser(20, EXPORT_FORMATS)) == Some(values) <==>
            && TextsRead(list, values, 20) && 1 <= |values| <= 4
            && forall s :: s in values ==> s in EXPORT_FORMATS
  {
    if list.Arr? && |list.items| == |values| {
      forall i | 0 <= i < |values|
        ensures ChoiceParser(20, EXPORT_FORMATS)(list.items[i]) == Some(values[i]) <==>
                TextReads(list.items[i], values[i], 20) && values[i] in EXPORT_FORMATS
      {
        ChoiceMeans(list.items[i], values[i], 20, EXPORT_FORMATS);
        FormatNames(values[i]);
      }
      ItemsMean(ChoiceParser(20, EXPORT_FORMATS), (v: Json, x: string) => TextReads(v, x, 20),
                (x: string) => x in EXPORT_FORMATS, list.items, values);
    }
  }

  lemma FormatsAgain(values: seq<string>)
    ensures ListValue(ListJson(StringJson, values), 1, 4, ChoiceParser(20, EXPORT_FORMATS)) == Some(values) <==>
            1 <= |values| <= 4 && forall s :: s in values ==> s in EXPORT_FORMATS
  {
    FormatsExact();
  }

  lemma FormatCountIff(formats: seq<string>)
    ensures (1 <= |formats| <= 4 && Distinct(formats) && forall s :: s in formats ==> s in EXPORT_FORMATS) <==>
            (formats != [] && Distinct(formats) && forall s :: s in formats ==> s in EXPORT_FORMATS)
  {
    assert |EXPORT_FORMATS| == 4;
    if Distinct(formats) && forall s :: s in formats ==> s in EXPORT_FORMATS {
      DistinctWithin(formats, EXPORT_FORMATS);
    }
  }

  predicate ExportOk(x: Export) {
    && x.formats != [] && Distinct(x.formats) && (forall s :: s in x.formats ==> s in EXPORT_FORMATS)
    && x.personalData in PERSONAL_DATA
  }

  ghost predicate ExportReads(v: Json, x: Export) {
    && v.Obj? && v.fields.Keys == {FFormats, FIncludeHistory, FIncludePersonalData, FExcludePlaintextSecrets}
    && TextsRead(v.fields[FFormats], x.formats, 20)
    && v.fields[FIncludeHistory] == Bool(x.includeHistory)
    && v.fields[FIncludePersonalData] == Str(x.personalData)
    && v.fields[FExcludePlaintextSecrets] == Bool(true)
  }

  lemma ExportFieldsMean(v: Json, x: Export)
    requires v.Obj? && v.fields.Keys == {FFormats, FIncludeHistory, FIncludePersonalData, FExcludePlaintextSecrets}
    ensures ParseExport(v) == Some(x) <==>
            && ListValue(v.fields[FFormats], 1, 4, ChoiceParser(20, EXPORT_FORMATS)) == Some(x.formats)
            && v.fields[FIncludeHistory] == Bool(x.includeHistory)
            && v.fields[FIncludePersonalData] == Str(x.personalData)
            && v.fields[FExcludePlaintextSecrets] == Bool(true)
            && Distinct(x.formats) && x.personalData in PERSONAL_DATA
  {
  }

  lemma ExportMeans(v: Json, x: Export)
    ensures ParseExport(v) == Some(x) <==> ExportReads(v, x) && ExportOk(x)
  {
    if v.Obj? && v.fields.Keys == {FFormats, FIncludeHistory, FIncludePersonalData, FExcludePlaintextSecrets} {
      ExportFieldsMean(v, x);
      FormatsMean(v.fields[FFormats], x.formats);
      FormatCountIff(x.formats);
    }
  }

  lemma ExportAgain(x: Export)
    ensures ParseExport(ExportJson(x)) == Some(x) <==> ExportOk(x)
  {
    FormatsAgain(x.formats);
    FormatCountIff(x.formats);
  }

  /** The parts that occur once: whatever is parsed survives. */
  lemma FixedPartsGood()
    ensures Good(Codec(ParseTheme, ThemeJson)) && Good(Codec(ParseLifecycle, LifecycleJson))
    ensures Good(Codec(ParseRetention, RetentionJson)) && Good(Codec(ParseExport, ExportJson))
  {
    forall v | ParseTheme(v).Some?
      ensures Survives(Codec(ParseTheme, ThemeJson), ParseTheme(v).value)
    {
      ThemeMeans(v, ParseTheme(v).value);
      ThemeAgain(ParseTheme(v).value);
    }
    forall v | ParseLifecycle(v).Some?
      ensures Survives(Codec(ParseLifecycle, LifecycleJson), ParseLifecycle(v).value)
    {
      LifecycleMeans(v, ParseLifecycle(v).value);
      LifecycleAgain(ParseLifecycle(v).value);
    }
    forall v | ParseRetention(v).Some?
      ensures Survives(Codec(ParseRetention, RetentionJson), ParseRetention(v).value)
    {
      RetentionMeans(v, ParseRetention(v).value);
      RetentionAgain(ParseRetention(v).value);
    }
    forall v | ParseExport(v).Some?
      ensures Survives(Codec(ParseExport, ExportJson), ParseExport(v).value)
    {
      ExportMeans(v, ParseExport(v).value);
      ExportAgain(ParseExport(v).value);
    }
  }

  // ----- vocabulary -----

  predicate LabelsOk(t: Tables, labels: Labels) {
    && labels.Keys <= t.labels && |labels| == 19
    && forall f :: f in labels ==> Trim(labels[f]) != "" && |labels[f]| <= 200
  }

  lemma LabelsAgain(t: Tables, labels: Labels)
    ensures ParseLabels(t, LabelsJson(labels)) == Some(labels) <==> LabelsOk(t, labels)
  {
    var fields := LabelsJson(labels).fields;
    assert fields.Keys == labels.Keys;
    assert |fields| == |fields.Keys| && |labels| == |labels.Keys|;
    assert forall f :: f in labels ==> fields[f] == Str(labels[f]);
    assert (map f | f in fields :: fields[f].s) == labels;
  }

  lemma LabelsGood(t: Tables)
    ensures Good(LabelsCodec(t))
  {
    forall v | ParseLabels(t, v).Some?
      ensures ParseLabels(t, LabelsJson(ParseLabels(t, v).value)) == ParseLabels(t, v)
    {
      assert LabelsJson(ParseLabels(t, v).value).fields == v.fields;
    }
  }

  /** Labels are taken as written, with nothing stripped. */
  ghost predicate LabelsRead(v: Json, labels: Labels) {
    v.Obj? && v.fields.Keys == labels.Keys && forall f :: f in labels ==> v.fields[f] == Str(labels[f])
  }

  lemma LabelsMean(t: Tables, v: Json, labels: Labels)
    ensures ParseLabels(t, v) == Some(labels) <==> LabelsRead(v, labels) && LabelsOk(t, labels)
  {
    if v.Obj? && v.fields.Keys == labels.Keys {
      assert |v.fields| == |v.fields.Keys| && |labels| == |labels.Keys|;
      if LabelsRead(v, labels) {
        assert (map f | f in v.fields :: v.fields[f].s) == labels;
      }
    }
  }
}
