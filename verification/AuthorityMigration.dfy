/** The authority proposal: the difference between a Guild's roles and those of a blueprint. */
module AuthorityMigration {
  import opened Text

  type Permission = string

  datatype Role = Role(name: string, permissions: seq<Permission>)

  datatype Kind = RoleAddition | RoleRetirement | CapabilityAddition | CapabilityRemoval

  datatype Impact = Impact(kind: Kind, roleName: string, capabilities: seq<Permission>)

  /** All permissions in their fixed order, and the locale's lower-casing of names. */
  datatype Tables = Tables(permissions: seq<Permission>, lower: string -> string)

  /** Who holds what: from normalised role names to permissions. */
  type Authority = map<string, set<Permission>>

  function Key(t: Tables, name: string): string {
    t.lower(Trim(name))
  }

  function Held(role: Role): set<Permission> {
    set p | p in role.permissions
  }

  function KeepListed(table: seq<Permission>, values: set<Permission>): (r: seq<Permission>)
    ensures forall p :: p in r <==> p in table && p in values
  {
    if table == [] then []
    else if table[0] in values then [table[0]] + KeepListed(table[1..], values)
    else KeepListed(table[1..], values)
  }

  /** `orderedPermissions`: the values, in the order of the table and each once. */
  function Ordered(t: Tables, values: set<Permission>): seq<Permission> {
    KeepListed(t.permissions, values)
  }

  /** `new Map(roles.map(...))`: of two roles with one key the later one wins. */
  function AuthorityOf(t: Tables, roles: seq<Role>): Authority {
    if roles == [] then map[]
    else
      var last := roles[|roles| - 1];
      AuthorityOf(t, roles[..|roles| - 1])[Key(t, last.name) := Held(last)]
  }

  // ----- the proposal -----

  function ImpactsOfRole(t: Tables, current: Authority, role: Role): seq<Impact> {
    var key, proposed := Key(t, role.name), Held(role);
    if key !in current then [Impact(RoleAddition, role.name, Ordered(t, proposed))]
    else
      var additions := Ordered(t, proposed - current[key]);
      var removals := Ordered(t, current[key] - proposed);
      (if additions != [] then [Impact(CapabilityAddition, role.name, additions)] else []) +
      (if removals != [] then [Impact(CapabilityRemoval, role.name, removals)] else [])
  }

  function Retirement(t: Tables, proposed: Authority, role: Role): seq<Impact> {
    if Key(t, role.name) in proposed then [] else [Impact(RoleRetirement, role.name, Ordered(t, Held(role)))]
  }

  function Changes(t: Tables, current: Authority, roles: seq<Role>): seq<Impact> {
    if roles == [] then []
    else Changes(t, current, roles[..|roles| - 1]) + ImpactsOfRole(t, current, roles[|roles| - 1])
  }

  function Retirements(t: Tables, proposed: Authority, roles: seq<Role>): seq<Impact> {
    if roles == [] then []
    else Retirements(t, proposed, roles[..|roles| - 1]) + Retirement(t, proposed, roles[|roles| - 1])
  }

  lemma ChangesNext(t: Tables, current: Authority, roles: seq<Role>, i: nat)
    requires i < |roles|
    ensures Changes(t, current, roles[..i + 1]) == Changes(t, current, roles[..i]) + ImpactsOfRole(t, current, roles[i])
  {
    assert roles[..i + 1][..i] == roles[..i];
  }

  lemma RetirementsNext(t: Tables, proposed: Authority, roles: seq<Role>, i: nat)
    requires i < |roles|
    ensures Retirements(t, proposed, roles[..i + 1]) ==
            Retirements(t, proposed, roles[..i]) + Retirement(t, proposed, roles[i])
  {
    assert roles[..i + 1][..i] == roles[..i];
  }

  /** The loop over the blueprint's roles. */
  method CollectChanges(t: Tables, current: Authority, roles: seq<Role>) returns (impacts: seq<Impact>)
    ensures impacts == Changes(t, current, roles)
  {
    impacts := [];
    for i := 0 to |roles|
      invariant impacts == Changes(t, current, roles[..i])
    {
      ChangesNext(t, current, roles, i);
      var role := roles[i];
      var key, wanted := Key(t, role.name), Held(role);
      var found: seq<Impact> := [];
      if key !in current {
        found := [Impact(RoleAddition, role.name, Ordered(t, wanted))];
      } else {
        var additions := Ordered(t, wanted - current[key]);
        var removals := Ordered(t, current[key] - wanted);
        if |additions| > 0 {
          found := found + [Impact(CapabilityAddition, role.name, additions)];
        }
        if |removals| > 0 {
          found := found + [Impact(CapabilityRemoval, role.name, removals)];
        }
      }
      assert found == ImpactsOfRole(t, current, role);
      impacts := impacts + found;
    }
    assert roles[..|roles|] == roles;
  }

  /** The two loops of `createBlueprintAuthorityMigrationProposal`. */
  method CreateProposal(t: Tables, definitionRoles: seq<Role>, currentRoles: seq<Role>) returns (impacts: seq<Impact>)
    ensures impacts == Proposal(t, definitionRoles, currentRoles)
  {
    var current, proposed := AuthorityOf(t, currentRoles), AuthorityOf(t, definitionRoles);
    impacts := CollectChanges(t, current, definitionRoles);
    ghost var changes := impacts;
    for i := 0 to |currentRoles|
      invariant impacts == changes + Retirements(t, proposed, currentRoles[..i])
    {
      RetirementsNext(t, proposed, currentRoles, i);
      var role := currentRoles[i];
      if Key(t, role.name) !in proposed {
        impacts := impacts + [Impact(RoleRetirement, role.name, Ordered(t, Held(role)))];
      }
    }
    assert currentRoles[..|currentRoles|] == currentRoles;
  }

  function Proposal(t: Tables, definitionRoles: seq<Role>, currentRoles: seq<Role>): seq<Impact> {
    Changes(t, AuthorityOf(t, currentRoles), definitionRoles) +
    Retirements(t, AuthorityOf(t, definitionRoles), currentRoles)
  }

  // ----- applying impacts -----

  function Capabilities(e: Impact): set<Permission> {
    set p | p in e.capabilities
  }

  function Apply(t: Tables, a: Authority, e: Impact): Authority {
    var key := Key(t, e.roleName);
    match e.kind
    case RoleAddition => a[key := Capabilities(e)]
    case RoleRetirement => a - {key}
    case CapabilityAddition => if key in a then a[key := a[key] + Capabilities(e)] else a
    case CapabilityRemoval => if key in a then a[key := a[key] - Capabilities(e)] else a
  }

  function ApplyAll(t: Tables, a: Authority, impacts: seq<Impact>): Authority {
    if impacts == [] then a
    else Apply(t, ApplyAll(t, a, impacts[..|impacts| - 1]), impacts[|impacts| - 1])
  }

  // ----- when the proposal is a patch -----

  ghost predicate Known(t: Tables, roles: seq<Role>) {
    forall role, p :: role in roles && p in role.permissions ==> p in t.permissions
  }

  lemma {:induction false} AuthorityKeys(t: Tables, roles: seq<Role>, key: string)
    ensures key in AuthorityOf(t, roles) <==> exists role :: role in roles && Key(t, role.name) == key
    ensures key in AuthorityOf(t, roles) ==>
              exists role :: role in roles && Key(t, role.name) == key && AuthorityOf(t, roles)[key] == Held(role)
  {
    if roles != [] {
      var before, last := roles[..|roles| - 1], roles[|roles| - 1];
      AuthorityKeys(t, before, key);
      assert forall role :: role in roles <==> role in before || role == last;
    }
  }

  // ----- which impacts there are -----

  lemma {:induction false} ChangesMembers(t: Tables, current: Authority, roles: seq<Role>, e: Impact)
    ensures e in Changes(t, current, roles) <==> exists role :: role in roles && e in ImpactsOfRole(t, current, role)
  {
    if roles != [] {
      var before, last := roles[..|roles| - 1], roles[|roles| - 1];
      ChangesMembers(t, current, before, e);
      assert forall role :: role in roles <==> role in before || role == last;
    }
  }

  lemma {:induction false} RetirementsMembers(t: Tables, proposed: Authority, roles: seq<Role>, e: Impact)
    ensures e in Retirements(t, proposed, roles) <==> exists role :: role in roles && e in Retirement(t, proposed, role)
  {
    if roles != [] {
      var before, last := roles[..|roles| - 1], roles[|roles| - 1];
      RetirementsMembers(t, proposed, before, e);
      assert forall role :: role in roles <==> role in before || role == last;
    }
  }

  /** The proposal's inputs; `current` and `proposed` are the two role maps it compares. */
  datatype Comparison = Comparison(t: Tables, definitionRoles: seq<Role>, currentRoles: seq<Role>) {
    function Current(): Authority { AuthorityOf(t, currentRoles) }
    function Proposed(): Authority { AuthorityOf(t, definitionRoles) }
    function Impacts(): seq<Impact> { Proposal(t, definitionRoles, currentRoles) }

    /** Every permission is one of the table, as the type of the source's roles says. */
    ghost predicate WellTyped() { Known(t, definitionRoles) && Known(t, currentRoles) }
  }

  /** The role asks for no change that the last of its namesakes, which counts, does not ask for as well. */
  ghost predicate Agrees(c: Comparison, role: Role) {
    var key := Key(c.t, role.name);
    key in c.Proposed() &&
    if key in c.Current()
    then Held(role) - c.Current()[key] <= c.Proposed()[key] && c.Current()[key] * c.Proposed()[key] <= Held(role)
    else Held(role) == c.Proposed()[key]
  }

  /** Blueprint roles may share a normalised name; this asks them to pull in one direction. */
  ghost predicate Consistent(c: Comparison) {
    forall role :: role in c.definitionRoles ==> Agrees(c, role)
  }

  /** Roles with distinct normalised names are always consistent. */
  lemma DistinctNamesAreConsistent(c: Comparison)
    requires forall a, b :: a in c.definitionRoles && b in c.definitionRoles && Key(c.t, a.name) == Key(c.t, b.name)
               ==> a == b
    ensures Consistent(c)
  {
    forall role | role in c.definitionRoles
      ensures Agrees(c, role)
    {
      AuthorityKeys(c.t, c.definitionRoles, Key(c.t, role.name));
    }
  }

  lemma {:induction false} KnownAuthority(t: Tables, roles: seq<Role>, key: string, p: Permission)
    requires Known(t, roles) && key in AuthorityOf(t, roles) && p in AuthorityOf(t, roles)[key]
    ensures p in t.permissions
  {
    AuthorityKeys(t, roles, key);
  }

  lemma OrderedKeeps(t: Tables, values: set<Permission>)
    requires forall p :: p in values ==> p in t.permissions
    ensures (set p | p in Ordered(t, values)) == values
  {
  }

  /** What an impact on one role name can be, given where the name occurs. */
  ghost predicate Fits(c: Comparison, key: string, e: Impact) {
    if key !in c.Current() then
      e.kind == RoleAddition &&
      exists role :: role in c.definitionRoles && Key(c.t, role.name) == key && Capabilities(e) == Held(role)
    else if key !in c.Proposed() then e.kind == RoleRetirement
    else
      e.capabilities != [] &&
      exists role :: role in c.definitionRoles && Key(c.t, role.name) == key &&
        if e.kind == CapabilityAddition then Capabilities(e) == Held(role) - c.Current()[key]
        else e.kind == CapabilityRemoval && Capabilities(e) == c.Current()[key] - Held(role)
  }

  lemma ChangeFits(c: Comparison, role: Role, e: Impact)
    requires c.WellTyped() && role in c.definitionRoles && e in ImpactsOfRole(c.t, c.Current(), role)
    ensures e.roleName == role.name && Fits(c, Key(c.t, e.roleName), e)
  {
    var t, current, key := c.t, c.Current(), Key(c.t, role.name);
    AuthorityKeys(t, c.definitionRoles, key);
    OrderedKeeps(t, Held(role));
    if key in current {
      forall p | p in current[key] {
        KnownAuthority(t, c.currentRoles, key, p);
      }
      OrderedKeeps(t, Held(role) - current[key]);
      OrderedKeeps(t, current[key] - Held(role));
    }
  }

  lemma RetirementFits(c: Comparison, role: Role, e: Impact)
    requires role in c.currentRoles && e in Retirement(c.t, c.Proposed(), role)
    ensures e.roleName == role.name && Fits(c, Key(c.t, e.roleName), e)
  {
    AuthorityKeys(c.t, c.currentRoles, Key(c.t, role.name));
  }

  lemma ImpactFits(c: Comparison, e: Impact)
    requires c.WellTyped() && e in c.Impacts()
    ensures Fits(c, Key(c.t, e.roleName), e)
  {
    ChangesMembers(c.t, c.Current(), c.definitionRoles, e);
    RetirementsMembers(c.t, c.Proposed(), c.currentRoles, e);
    if role :| role in c.definitionRoles && e in ImpactsOfRole(c.t, c.Current(), role) {
      ChangeFits(c, role, e);
    } else {
      var role :| role in c.currentRoles && e in Retirement(c.t, c.Proposed(), role);
      RetirementFits(c, role, e);
    }
  }

  /** Every difference is announced by an impact of its own. */
  lemma DifferenceHasImpact(c: Comparison, role: Role)
    requires c.WellTyped() && role in c.definitionRoles
    ensures var key := Key(c.t, role.name);
            if key !in c.Current() then
              exists e :: e in c.Impacts() && Key(c.t, e.roleName) == key && Capabilities(e) == Held(role)
            else
              && (forall p :: p in Held(role) && p !in c.Current()[key] ==>
                    Announced(c, c.Impacts(), key, CapabilityAddition, p))
              && (forall p :: p in c.Current()[key] && p !in Held(role) ==>
                    Announced(c, c.Impacts(), key, CapabilityRemoval, p))
  {
    var t, current, key := c.t, c.Current(), Key(c.t, role.name);
    forall e | e in ImpactsOfRole(t, current, role)
      ensures e in c.Impacts()
    {
      ChangesMembers(t, current, c.definitionRoles, e);
    }
    OrderedKeeps(t, Held(role));
    if key !in current {
      assert Impact(RoleAddition, role.name, Ordered(t, Held(role))) in ImpactsOfRole(t, current, role);
    } else {
      forall p | p in current[key] {
        KnownAuthority(t, c.currentRoles, key, p);
      }
      var added := Impact(CapabilityAddition, role.name, Ordered(t, Held(role) - current[key]));
      var removed := Impact(CapabilityRemoval, role.name, Ordered(t, current[key] - Held(role)));
      assert added.capabilities != [] ==> added in ImpactsOfRole(t, current, role);
      assert removed.capabilities != [] ==> removed in ImpactsOfRole(t, current, role);
    }
  }

  /** An impact of the given kind on this role name carries the permission. */
  ghost predicate Announced(c: Comparison, impacts: seq<Impact>, key: string, kind: Kind, p: Permission) {
    exists e :: e in impacts && e.kind == kind && Key(c.t, e.roleName) == key && p in e.capabilities
  }

  ghost predicate Mentions(c: Comparison, impacts: seq<Impact>, key: string) {
    exists e :: e in impacts && Key(c.t, e.roleName) == key
  }

  // ----- the value at one role name -----

  lemma {:induction false} ValueOfShared(c: Comparison, q: seq<Impact>, key: string)
    requires c.WellTyped() && key in c.Current() && key in c.Proposed()
    requires forall e :: e in q ==> e in c.Impacts()
    ensures var a := ApplyAll(c.t, c.Current(), q);
            key in a && forall p :: p in a[key] <==>
              if p in c.Current()[key] then !Announced(c, q, key, CapabilityRemoval, p)
              else Announced(c, q, key, CapabilityAddition, p)
  {
    if q != [] {
      var before, e := q[..|q| - 1], q[|q| - 1];
      ValueOfShared(c, before, key);
      assert forall x :: x in q <==> x in before || x == e;
      forall kind, p
        ensures Announced(c, q, key, kind, p) <==>
                || Announced(c, before, key, kind, p)
                || (e.kind == kind && Key(c.t, e.roleName) == key && p in e.capabilities)
      {
      }
      ImpactFits(c, e);
    }
  }

  lemma {:induction false} ValueOfOther(c: Comparison, q: seq<Impact>, key: string)
    requires c.WellTyped() && !(key in c.Current() && key in c.Proposed())
    requires forall e :: e in q ==> e in c.Impacts()
    ensures var a := ApplyAll(c.t, c.Current(), q);
            if key in c.Current() then
              (key in a <==> !Mentions(c, q, key)) && (key in a ==> a[key] == c.Current()[key])
            else
              (key in a <==> Mentions(c, q, key)) &&
              (key in a ==>
                 exists role :: role in c.definitionRoles && Key(c.t, role.name) == key && a[key] == Held(role))
  {
    if q != [] {
      var before, e := q[..|q| - 1], q[|q| - 1];
      ValueOfOther(c, before, key);
      assert forall x :: x in q <==> x in before || x == e;
      ImpactFits(c, e);
    }
  }

  // ----- the proposal is a patch -----

  lemma SharedRoleIsPatched(c: Comparison, q: seq<Impact>, key: string)
    requires c.WellTyped() && key in c.Current() && key in c.Proposed()
    requires forall e :: e in q <==> e in c.Impacts()
    requires Consistent(c)
    ensures key in ApplyAll(c.t, c.Current(), q) && ApplyAll(c.t, c.Current(), q)[key] == c.Proposed()[key]
  {
    ValueOfShared(c, q, key);
    AuthorityKeys(c.t, c.definitionRoles, key);
    var role :| role in c.definitionRoles && Key(c.t, role.name) == key && c.Proposed()[key] == Held(role);
    DifferenceHasImpact(c, role);
    forall kind, p
      ensures Announced(c, q, key, kind, p) <==> Announced(c, c.Impacts(), key, kind, p)
    {
    }
    forall kind, p | Announced(c, c.Impacts(), key, kind, p)
      ensures kind == CapabilityAddition ==> p in c.Proposed()[key]
      ensures kind == CapabilityRemoval ==> p !in c.Proposed()[key]
    {
      var e :| e in c.Impacts() && e.kind == kind && Key(c.t, e.roleName) == key && p in e.capabilities;
      ImpactFits(c, e);
      assert p in Capabilities(e);
    }
  }

  lemma OtherRoleIsPatched(c: Comparison, q: seq<Impact>, key: string)
    requires c.WellTyped() && !(key in c.Current() && key in c.Proposed())
    requires forall e :: e in q <==> e in c.Impacts()
    requires Consistent(c)
    ensures key in ApplyAll(c.t, c.Current(), q) <==> key in c.Proposed()
    ensures key in c.Proposed() ==> ApplyAll(c.t, c.Current(), q)[key] == c.Proposed()[key]
  {
    ValueOfOther(c, q, key);
    AuthorityKeys(c.t, c.definitionRoles, key);
    AuthorityKeys(c.t, c.currentRoles, key);
    if key in c.Proposed() {
      var role :| role in c.definitionRoles && Key(c.t, role.name) == key;
      DifferenceHasImpact(c, role);
    } else if key in c.Current() {
      var role :| role in c.currentRoles && Key(c.t, role.name) == key;
      var e := Impact(RoleRetirement, role.name, Ordered(c.t, Held(role)));
      assert e in Retirement(c.t, c.Proposed(), role);
      RetirementsMembers(c.t, c.Proposed(), c.currentRoles, e);
    } else {
      forall e | e in q
        ensures Key(c.t, e.roleName) != key
      {
        ImpactConcernsRole(c, e);
      }
    }
  }

  lemma ImpactConcernsRole(c: Comparison, e: Impact)
    requires c.WellTyped() && e in c.Impacts()
    ensures Key(c.t, e.roleName) in c.Current() || Key(c.t, e.roleName) in c.Proposed()
  {
    ImpactFits(c, e);
    AuthorityKeys(c.t, c.definitionRoles, Key(c.t, e.roleName));
  }

  /** Applying the impacts, in any order, turns the current roles into the proposed ones. */
  lemma ProposalIsPatch(c: Comparison, q: seq<Impact>)
    requires c.WellTyped() && Consistent(c)
    requires multiset(q) == multiset(c.Impacts())
    ensures ApplyAll(c.t, c.Current(), q) == c.Proposed()
  {
    forall e
      ensures e in q <==> e in c.Impacts()
    {
      assert e in q <==> e in multiset(q);
      assert e in c.Impacts() <==> e in multiset(c.Impacts());
    }
    var result := ApplyAll(c.t, c.Current(), q);
    forall key
      ensures key in result <==> key in c.Proposed()
      ensures key in result ==> result[key] == c.Proposed()[key]
    {
      if key in c.Current() && key in c.Proposed() {
        SharedRoleIsPatched(c, q, key);
      } else {
        OtherRoleIsPatched(c, q, key);
      }
    }
  }

  /** Inconsistent namesakes break the patch: some order of the impacts misses the proposed roles. */
  lemma InconsistentNamesakesBreakPatch(c: Comparison) returns (q: seq<Impact>)
    requires c.WellTyped() && !Consistent(c)
    ensures multiset(q) == multiset(c.Impacts()) && ApplyAll(c.t, c.Current(), q) != c.Proposed()
  {
    var role :| role in c.definitionRoles && !Agrees(c, role);
    var key := Key(c.t, role.name);
    AuthorityKeys(c.t, c.definitionRoles, key);
    DifferenceHasImpact(c, role);
    if key in c.Current() {
      q := c.Impacts();
      ValueOfShared(c, q, key);
    } else {
      var e :| e in c.Impacts() && Key(c.t, e.roleName) == key && Capabilities(e) == Held(role);
      ImpactFits(c, e);
      var i :| 0 <= i < |c.Impacts()| && c.Impacts()[i] == e;
      q := MovedLast(c.Impacts(), i);
      assert ApplyAll(c.t, c.Current(), q)[key] == Held(role);
    }
  }

  lemma MovedLast(impacts: seq<Impact>, i: nat) returns (q: seq<Impact>)
    requires i < |impacts|
    ensures multiset(q) == multiset(impacts) && q != [] && q[|q| - 1] == impacts[i]
  {
    assert impacts == impacts[..i] + [impacts[i]] + impacts[i + 1..];
    q := impacts[..i] + impacts[i + 1..] + [impacts[i]];
  }

  /**
   The proposal turns the current roles into the proposed ones, whatever the order in which its
   impacts are applied, if and only if the blueprint's namesakes are consistent.
   */
  lemma ProposalIsPatchIff(c: Comparison)
    requires c.WellTyped()
    ensures Consistent(c) <==>
            forall q :: multiset(q) == multiset(c.Impacts()) ==> ApplyAll(c.t, c.Current(), q) == c.Proposed()
  {
    if Consistent(c) {
      forall q | multiset(q) == multiset(c.Impacts()) {
        ProposalIsPatch(c, q);
      }
    } else {
      var q := InconsistentNamesakesBreakPatch(c);
    }
  }

  /** There is nothing to propose exactly when the two role maps agree and no namesake asks for a change. */
  lemma NothingToProposeIff(c: Comparison)
    requires c.WellTyped()
    ensures c.Impacts() == [] <==>
            c.Current() == c.Proposed() && Consistent(c)
  {
    if c.Impacts() == [] {
      forall role | role in c.definitionRoles
        ensures Agrees(c, role)
      {
        var key := Key(c.t, role.name);
        AuthorityKeys(c.t, c.definitionRoles, key);
        var last :| last in c.definitionRoles && Key(c.t, last.name) == key && c.Proposed()[key] == Held(last);
        DifferenceHasImpact(c, role);
        DifferenceHasImpact(c, last);
      }
      ProposalIsPatch(c, []);
    } else if c.Current() == c.Proposed() && Consistent(c) {
      var e := c.Impacts()[0];
      ImpactFits(c, e);
      AgreementLeavesNoImpact(c, e);
    }
  }

  lemma AgreementLeavesNoImpact(c: Comparison, e: Impact)
    requires c.Current() == c.Proposed() && Consistent(c)
    ensures !Fits(c, Key(c.t, e.roleName), e)
  {
    var key := Key(c.t, e.roleName);
    if key in c.Current() {
      forall role | role in c.definitionRoles && Key(c.t, role.name) == key
        ensures Held(role) - c.Current()[key] == {} && c.Current()[key] - Held(role) == {}
      {
        assert Agrees(c, role);
      }
      assert e.capabilities != [] ==> e.capabilities[0] in Capabilities(e);
    } else {
      forall role | role in c.definitionRoles
        ensures Key(c.t, role.name) != key
      {
        assert Agrees(c, role);
      }
    }
  }

  /**
   Two blueprint roles of one name with different permissions, where the Guild has no role of that
   name: some order of the impacts misses the proposed roles.
   */
  lemma NamesakesConflict(c: Comparison, first: Role, second: Role) returns (q: seq<Impact>)
    requires c.WellTyped() && first in c.definitionRoles && second in c.definitionRoles
    requires Key(c.t, first.name) == Key(c.t, second.name) && Held(first) != Held(second)
    requires forall role :: role in c.currentRoles ==> Key(c.t, role.name) != Key(c.t, first.name)
    ensures !Consistent(c)
    ensures multiset(q) == multiset(c.Impacts()) && ApplyAll(c.t, c.Current(), q) != c.Proposed()
  {
    AuthorityKeys(c.t, c.currentRoles, Key(c.t, first.name));
    assert Agrees(c, first) && Agrees(c, second) ==> Held(first) == Held(second);
    q := InconsistentNamesakesBreakPatch(c);
  }
}
