/** Concrete blueprints that the parser accepts, and where accepting them leads. */
module BlueprintSamples {
  import opened Options
  import opened Text
  import opened BlueprintJson
  import opened Blueprints
  import opened BlueprintForms
  import opened BlueprintGrammar
  import opened BlueprintParser
  import BlueprintSpaces
  import AuthorityMigration

  /** The bundle may be chosen for a role, and the vocabulary has its 19 labels. */
  predicate Usable(t: Tables, bundle: string) {
    Reviewed(t, bundle) && TextOk(bundle, 20) && |t.labels| == 19
  }

  const FACT := MemoryType("fact", "Fact", "A fact.")
  const TASK := ActivityType("task", "Task", "A task.", ["planned", "ready"])
  const CONSENT := DecisionMethod("consent", "Consent", "All agree.", "consent")
  const REVIEW := Workflow("review", "Review", "A review.", None, None, None)

  /** A small blueprint with two roles, over the given bundles and names. */
  function Sample(t: Tables, first: string, second: string, firstName: string, secondName: string): Definition
    requires first in t.bundles && second in t.bundles
  {
    var core := Core(
      "Pottery", "Make pots.", "A pottery.", map f | f in t.labels :: "Label",
      [Role("lead", firstName, "Leads.", first, t.bundles[first]),
       Role("crew", secondName, "Helps.", second, t.bundles[second])],
      [BlueprintSpaces.Space("lab", "Room", "A room.", None),
       BlueprintSpaces.Space("kiln", "Room", "A room.", Some("lab"))],
      [FACT], [TASK], [CONSENT], ["ask", "remember", "start"], [REVIEW]);
    Definition(core, Upgrade(core, None))
  }

  // ----- the sample is well formed -----

  lemma SampleRolesOk(t: Tables, first: string, second: string, firstName: string, secondName: string)
    requires Usable(t, first) && Usable(t, second) && TextOk(firstName, 100) && TextOk(secondName, 100)
    ensures var roles := Sample(t, first, second, firstName, secondName).core.roles;
            RoleOk(t, roles[0]) && RoleOk(t, roles[1]) && roles[0].key != roles[1].key
  {
    assert "lead"[0] != "crew"[0];
  }

  lemma SampleSpacesOk(t: Tables, first: string, second: string, firstName: string, secondName: string)
    requires first in t.bundles && second in t.bundles
    ensures var spaces := Sample(t, first, second, firstName, secondName).core.spaces;
            && SpaceOk(spaces[0]) && SpaceOk(spaces[1])
            && BlueprintSpaces.UniqueKeys(spaces) && BlueprintSpaces.Hierarchy(spaces)
  {
    var spaces := Sample(t, first, second, firstName, secondName).core.spaces;
    assert |"lab"| != |"kiln"|;
    BlueprintSpaces.PairIsHierarchy(spaces[0], spaces[1]);
    assert spaces == [spaces[0], spaces[1]];
  }

  lemma FactOk()
    ensures MemoryTypeOk(FACT)
  {
  }

  lemma TaskOk()
    ensures ActivityTypeOk(TASK)
  {
    assert |"planned"| != |"ready"|;
    assert Leads(TASK.states[0], TASK.states[1]);
  }

  lemma ConsentOk()
    ensures DecisionMethodOk(CONSENT)
  {
    assert |LONG_METHOD| != |"consent"|;
  }

  lemma ReviewOk()
    ensures WorkflowOk(REVIEW)
  {
  }

  lemma SampleTextsOk(t: Tables, first: string, second: string, firstName: string, secondName: string)
    requires first in t.bundles && second in t.bundles && |t.labels| == 19
    ensures var c := Sample(t, first, second, firstName, secondName).core;
            && TextOk(c.name, 100) && TextOk(c.purpose, 2_000) && TextOk(c.description, 2_000)
            && LabelsOk(t, c.labels) && Distinct(c.intents)
  {
    var c := Sample(t, first, second, firstName, secondName).core;
    assert c.labels.Keys == t.labels;
    assert |c.labels| == |c.labels.Keys|;
    assert |"ask"| != |"remember"| && |"remember"| != |"start"| && |"ask"| != |"start"|;
  }

  lemma SampleExtensionOk(t: Tables, first: string, second: string, firstName: string, secondName: string)
    requires first in t.bundles && second in t.bundles
    ensures ExtensionOk(t, Sample(t, first, second, firstName, secondName).extension)
  {
    DefaultThemeOk();
    DefaultLifecyclesOk();
    DefaultPoliciesOk();
    ExternalActionOk("consent");
  }

  lemma SampleCoreOk(t: Tables, first: string, second: string, firstName: string, secondName: string)
    requires Usable(t, first) && Usable(t, second) && TextOk(firstName, 100) && TextOk(secondName, 100)
    ensures CoreOk(t, Sample(t, first, second, firstName, secondName).core)
  {
    SampleRolesOk(t, first, second, firstName, secondName);
    SampleSpacesOk(t, first, second, firstName, secondName);
    FactOk();
    TaskOk();
    ConsentOk();
    ReviewOk();
    SampleTextsOk(t, first, second, firstName, secondName);
  }

  /** With one policy, one of everything that is referred to, and no agent there is little to check. */
  lemma SmallIsConsistent(t: Tables, d: Definition)
    requires |d.core.roles| == 2 && d.core.roles[0].key != d.core.roles[1].key
    requires |d.core.memoryTypes| == |d.core.activityTypes| == |d.core.decisionMethods| == |d.core.workflows| == 1
    requires d.core.workflows[0].memoryType == d.core.workflows[0].activityType == None
    requires d.core.workflows[0].decisionMethodKey == None && Distinct(d.core.intents)
    requires BlueprintSpaces.UniqueKeys(d.core.spaces) && BlueprintSpaces.Hierarchy(d.core.spaces)
    requires d.extension == Upgrade(d.core, None)
    ensures NamesAreUnique(d) && ReferencesResolve(t, d) && HumansDecide(d.extension)
  {
    SpaceReferences(d);
    assert d.core.decisionMethods[0] in d.core.decisionMethods;
  }

  /** Whatever the tables are, as long as they have a reviewed bundle: there is a blueprint that is accepted. */
  lemma SampleIsAccepted(t: Tables, first: string, second: string, firstName: string, secondName: string)
    requires Usable(t, first) && Usable(t, second) && TextOk(firstName, 100) && TextOk(secondName, 100)
    ensures var d := Sample(t, first, second, firstName, secondName);
            WellFormed(t, d) && Parse(t, ValueOf(t, d)) == Some(d)
  {
    var d := Sample(t, first, second, firstName, secondName);
    SampleCoreOk(t, first, second, firstName, secondName);
    SampleExtensionOk(t, first, second, firstName, secondName);
    SampleRolesOk(t, first, second, firstName, secondName);
    SampleSpacesOk(t, first, second, firstName, secondName);
    SampleTextsOk(t, first, second, firstName, secondName);
    SmallIsConsistent(t, d);
    NormalFormsAreWellFormed(t, d);
  }

  // ----- a padded key -----

  /** The sample's Spaces as a sender may write them: one key has a space behind it. */
  function PaddedSpaces(): seq<Space> {
    [BlueprintSpaces.Space("lab ", "Room", "A room.", None),
     BlueprintSpaces.Space("kiln", "Room", "A room.", Some("lab"))]
  }

  function PaddedBlueprint(t: Tables, bundle: string): Json
    requires bundle in t.bundles
  {
    WithSpaces(ValueOf(t, Sample(t, bundle, bundle, "Lead", "Crew")), ListJson(SpaceJson, PaddedSpaces()))
  }

  lemma PaddedSpaceIsParsed(s: Space)
    requires |s.key| <= 63 && IsKey(Trim(s.key)) && TextOk(s.name, 100) && TextOk(s.description, 500)
    requires s.parentKey.Some? ==> IsKey(s.parentKey.value)
    ensures ParseSpace(SpaceJson(s)) == Some(s.(key := Trim(s.key)))
  {
    TextAgain(s.name, 100);
    TextAgain(s.description, 500);
    if s.parentKey.Some? {
      KeyAgain(s.parentKey.value);
    }
  }

  lemma EachPair<T>(parse: Json -> Option<T>, a: Json, b: Json, x: T, y: T)
    requires parse(a) == Some(x) && parse(b) == Some(y)
    ensures Each(parse, [a, b]) == Some([x, y])
  {
    assert [a, b][1..] == [b] && [b][1..] == [];
    assert Each(parse, [b]) == Some([y] + []) && [y] + [] == [y];
    assert Each(parse, [a, b]) == Some([x] + [y]);
    assert [x] + [y] == [x, y];
  }

  lemma RenderPair<T>(render: T -> Json, x: T, y: T)
    ensures Render(render, [x, y]) == [render(x), render(y)]
  {
    assert [x, y][1..] == [y] && [y][1..] == [];
    assert Render(render, [y]) == [render(y)] + [];
  }

  lemma PaddedSpacesAreParsed(t: Tables, bundle: string)
    requires bundle in t.bundles
    ensures SpacesCodec().parse(ListJson(SpaceJson, PaddedSpaces())) ==
            Some(Sample(t, bundle, bundle, "Lead", "Crew").core.spaces)
  {
    var a, b := PaddedSpaces()[0], PaddedSpaces()[1];
    BlueprintSpaces.TrimLiterals();
    PaddedSpaceIsParsed(a);
    PaddedSpaceIsParsed(b);
    RenderPair(SpaceJson, a, b);
    EachPair(ParseSpace, SpaceJson(a), SpaceJson(b), a.(key := "lab"), b);
  }

  lemma SpaceIsWritten(s: Space)
    ensures WrittenSpace(SpaceJson(s)) == s
  {
  }

  lemma PairIsWritten(v: Json, a: Space, b: Space)
    requires v.Obj?
    ensures WrittenSpaces(WithSpaces(v, ListJson(SpaceJson, [a, b]))) == [a, b]
  {
    RenderPair(SpaceJson, a, b);
    SpaceIsWritten(a);
    SpaceIsWritten(b);
  }

  lemma PaddedBlueprintIsAccepted(t: Tables, bundle: string)
    requires Usable(t, bundle)
    ensures Parse(t, PaddedBlueprint(t, bundle)).Some?
  {
    var d := Sample(t, bundle, bundle, "Lead", "Crew");
    SampleIsAccepted(t, bundle, bundle, "Lead", "Crew");
    PaddedSpacesAreParsed(t, bundle);
    SpacesRespelled(GrammarOf(t), d, ListJson(SpaceJson, PaddedSpaces()));
  }

  lemma PaddedSpacesAreWritten(t: Tables, bundle: string)
    requires Usable(t, bundle)
    ensures WrittenSpaces(PaddedBlueprint(t, bundle)) == PaddedSpaces()
  {
    PairIsWritten(ValueOf(t, Sample(t, bundle, bundle, "Lead", "Crew")), PaddedSpaces()[0], PaddedSpaces()[1]);
  }

  /** The padded blueprint is accepted, and then its Spaces make the sweep throw. */
  lemma PaddedBlueprintIsAcceptedThenThrows(t: Tables, bundle: string)
    requires Usable(t, bundle)
    ensures Parse(t, PaddedBlueprint(t, bundle)).Some?
    ensures !BlueprintSpaces.Hierarchy(WrittenSpaces(PaddedBlueprint(t, bundle)))
  {
    PaddedBlueprintIsAccepted(t, bundle);
    PaddedSpacesAreWritten(t, bundle);
    BlueprintSpaces.PaddedKeyIsValidatedThenThrows("Room", "A room.");
  }

  // ----- namesakes -----

  /** The roles of a definition as the authority proposal compares them. */
  function AuthorityRoles(roles: seq<Role>): seq<AuthorityMigration.Role> {
    seq(|roles|, i requires 0 <= i < |roles| => AuthorityMigration.Role(roles[i].name, roles[i].capabilities))
  }

  /** The proposal for the sample with two roles of one name, in a Guild with the given roles. */
  function NamesakeComparison(t: Tables, first: string, second: string, name: string, lower: string -> string,
                              currentRoles: seq<AuthorityMigration.Role>): AuthorityMigration.Comparison
    requires first in t.bundles && second in t.bundles
  {
    AuthorityMigration.Comparison(AuthorityMigration.Tables(t.permissions, lower),
                                  AuthorityRoles(Sample(t, first, second, name, name).core.roles), currentRoles)
  }

  lemma NamesakeRoles(t: Tables, first: string, second: string, name: string, lower: string -> string,
                      currentRoles: seq<AuthorityMigration.Role>)
    requires Usable(t, first) && Usable(t, second)
    requires AuthorityMigration.Known(AuthorityMigration.Tables(t.permissions, lower), currentRoles)
    ensures var c := NamesakeComparison(t, first, second, name, lower, currentRoles);
            && c.WellTyped() && |c.definitionRoles| == 2
            && c.definitionRoles[0].name == c.definitionRoles[1].name == name
            && AuthorityMigration.Held(c.definitionRoles[0]) == Elements(t.bundles[first])
            && AuthorityMigration.Held(c.definitionRoles[1]) == Elements(t.bundles[second])
  {
    var c := NamesakeComparison(t, first, second, name, lower, currentRoles);
    assert c.definitionRoles == [AuthorityMigration.Role(name, t.bundles[first]),
                                 AuthorityMigration.Role(name, t.bundles[second])];
  }

  /**
   Two reviewed bundles with different permissions suffice: a blueprint whose two roles share a name
   is accepted, and unless the Guild has a role of that name, some order of its impacts misses the
   proposed roles.
   */
  lemma AcceptedNamesakesConflict(t: Tables, first: string, second: string, name: string, lower: string -> string,
                                  currentRoles: seq<AuthorityMigration.Role>)
    returns (q: seq<AuthorityMigration.Impact>)
    requires Usable(t, first) && Usable(t, second) && TextOk(name, 100)
    requires Elements(t.bundles[first]) != Elements(t.bundles[second])
    requires AuthorityMigration.Known(AuthorityMigration.Tables(t.permissions, lower), currentRoles)
    requires forall role :: role in currentRoles ==> lower(Trim(role.name)) != lower(Trim(name))
    ensures var d := Sample(t, first, second, name, name); Parse(t, ValueOf(t, d)) == Some(d)
    ensures var c := NamesakeComparison(t, first, second, name, lower, currentRoles);
            && !AuthorityMigration.Consistent(c) && multiset(q) == multiset(c.Impacts())
            && AuthorityMigration.ApplyAll(c.t, c.Current(), q) != c.Proposed()
  {
    var c := NamesakeComparison(t, first, second, name, lower, currentRoles);
    SampleIsAccepted(t, first, second, name, name);
    NamesakeRoles(t, first, second, name, lower, currentRoles);
    q := AuthorityMigration.NamesakesConflict(c, c.definitionRoles[0], c.definitionRoles[1]);
  }
}
