/** What the authority proposal lists, told from the two lists of roles alone. */
module MigrationLaws {
  import opened Text
  import opened AuthorityMigration

  // ----- role names -----

  /** Names are compared without white ends, in the locale's lower case. */
  lemma KeyMeans(t: Tables, name: string, s: string)
    requires Stripped(name, s)
    ensures Key(t, name) == t.lower(s)
  {
    StrippedIsTrim(name, s);
  }

  ghost predicate Missing(t: Tables, roles: seq<Role>, key: string) {
    forall role :: role in roles ==> Key(t, role.name) != key
  }

  /** The role at `k` has the key, and none after it does. */
  ghost predicate LastNamed(t: Tables, roles: seq<Role>, key: string, k: int) {
    0 <= k < |roles| && Key(t, roles[k].name) == key && Missing(t, roles[k + 1..], key)
  }

  lemma LastOfMore(t: Tables, before: seq<Role>, last: Role, key: string, k: int)
    requires LastNamed(t, before, key, k) && Key(t, last.name) != key
    ensures LastNamed(t, before + [last], key, k)
  {
    assert (before + [last])[k + 1..] == before[k + 1..] + [last];
  }

  /** A role map leaves out the keys that no role has, and of namesakes it holds the last. */
  lemma {:induction false} MapMeans(t: Tables, roles: seq<Role>, key: string)
    ensures key !in AuthorityOf(t, roles) <==> Missing(t, roles, key)
    ensures key in AuthorityOf(t, roles) ==>
              exists k :: LastNamed(t, roles, key, k) &&
                          AuthorityOf(t, roles)[key] == set p | p in roles[k].permissions
  {
    if roles != [] {
      var n := |roles| - 1;
      var before, last := roles[..n], roles[n];
      MapMeans(t, before, key);
      assert roles == before + [last];
      if Key(t, last.name) == key {
        assert last in roles;
        assert LastNamed(t, roles, key, n);
      } else if key in AuthorityOf(t, before) {
        var k :| LastNamed(t, before, key, k) && AuthorityOf(t, before)[key] == set p | p in before[k].permissions;
        LastOfMore(t, before, last, key, k);
        assert before[k] == roles[k] && roles[k] in roles;
      } else {
        assert forall role :: role in roles ==> role in before || role == last;
      }
    }
  }

  // ----- the order of permissions -----

  /** `p` stands before `q` in the table. */
  ghost predicate Before(table: seq<Permission>, p: Permission, q: Permission) {
    exists m, n :: 0 <= m < n < |table| && table[m] == p && table[n] == q
  }

  /** Exactly the values that the table knows, in its order. */
  ghost predicate Listing(table: seq<Permission>, values: set<Permission>, list: seq<Permission>) {
    && (forall p :: p in list <==> p in table && p in values)
    && forall i, j :: 0 <= i < j < |list| ==> Before(table, list[i], list[j])
  }

  lemma BeforeLater(table: seq<Permission>, p: Permission, q: Permission)
    requires table != [] && Before(table[1..], p, q)
    ensures Before(table, p, q)
  {
    var m, n :| 0 <= m < n < |table[1..]| && table[1..][m] == p && table[1..][n] == q;
    assert table[m + 1] == p && table[n + 1] == q;
  }

  lemma BeforeRest(table: seq<Permission>, p: Permission, q: Permission)
    requires table != [] && Before(table, p, q) && p != table[0]
    ensures Before(table[1..], p, q)
  {
    var m, n :| 0 <= m < n < |table| && table[m] == p && table[n] == q;
    assert table[1..][m - 1] == p && table[1..][n - 1] == q;
  }

  lemma {:induction false} OrderedIsListing(table: seq<Permission>, values: set<Permission>)
    ensures Listing(table, values, KeepListed(table, values))
  {
    if table != [] {
      var rest := KeepListed(table[1..], values);
      OrderedIsListing(table[1..], values);
      var list := KeepListed(table, values);
      forall i, j | 0 <= i < j < |list|
        ensures Before(table, list[i], list[j])
      {
        var skipped := if table[0] in values then 1 else 0;
        if i >= skipped {
          assert list[i] == rest[i - skipped] && list[j] == rest[j - skipped];
          BeforeLater(table, list[i], list[j]);
        } else {
          assert list[j] in table[1..];
          var n :| 0 <= n < |table[1..]| && table[1..][n] == list[j];
          assert table[0] == list[i] && table[n + 1] == list[j];
        }
      }
    }
  }

  /** In a table without repetition there is one listing. */
  lemma {:induction false} ListingIsOrdered(table: seq<Permission>, values: set<Permission>, list: seq<Permission>)
    requires forall i, j :: 0 <= i < j < |table| ==> table[i] != table[j]
    requires Listing(table, values, list)
    ensures list == KeepListed(table, values)
  {
    assert list != [] ==> list[0] in table;
    if table != [] {
      var first, rest := table[0], table[1..];
      assert forall p :: p in table <==> p == first || p in rest;
      assert forall i, j :: 0 <= i < j < |rest| ==> rest[i] == table[i + 1] && rest[j] == table[j + 1];
      assert forall p :: !Before(table, p, first);
      var tail := if first in values then list[1..] else list;
      if first in values {
        assert first in list;
        assert list[0] == first;
        assert list == [first] + tail;
      }
      forall p
        ensures p in tail <==> p in rest && p in values
      {
        if p == first {
          assert first !in rest;
        }
      }
      forall i, j | 0 <= i < j < |tail|
        ensures Before(rest, tail[i], tail[j])
      {
        assert tail[i] in tail;
        BeforeRest(table, tail[i], tail[j]);
      }
      ListingIsOrdered(rest, values, tail);
    }
  }

  // ----- what each role contributes -----

  /** What a blueprint role asks for: itself if it is new, else what it adds to and takes from its namesake. */
  ghost predicate Asks(c: Comparison, role: Role, told: seq<Impact>) {
    var key := Key(c.t, role.name);
    if Missing(c.t, c.currentRoles, key) then
      exists all ::
        && Listing(c.t.permissions, (set p | p in role.permissions), all)
        && told == [Impact(RoleAddition, role.name, all)]
    else
      exists k, added, removed :: LastNamed(c.t, c.currentRoles, key, k) &&
        AsksExisting(c, role, c.currentRoles[k], added, removed, told)
  }

  ghost predicate AsksExisting(c: Comparison, role: Role, existing: Role, added: seq<Permission>,
                               removed: seq<Permission>, told: seq<Impact>) {
    && Listing(c.t.permissions, (set p | p in role.permissions && p !in existing.permissions), added)
    && Listing(c.t.permissions, (set p | p in existing.permissions && p !in role.permissions), removed)
    && told == (if added == [] then [] else [Impact(CapabilityAddition, role.name, added)]) +
               (if removed == [] then [] else [Impact(CapabilityRemoval, role.name, removed)])
  }

  /** A role of the Guild is retired, with all it holds, when no blueprint role has its name. */
  ghost predicate Retires(c: Comparison, role: Role, told: seq<Impact>) {
    if Missing(c.t, c.definitionRoles, Key(c.t, role.name)) then
      exists all ::
        && Listing(c.t.permissions, (set p | p in role.permissions), all)
        && told == [Impact(RoleRetirement, role.name, all)]
    else told == []
  }

  lemma RoleAsks(c: Comparison, role: Role)
    ensures Asks(c, role, ImpactsOfRole(c.t, c.Current(), role))
  {
    var table, key, current := c.t.permissions, Key(c.t, role.name), c.Current();
    MapMeans(c.t, c.currentRoles, key);
    if key !in current {
      OrderedIsListing(table, Held(role));
    } else {
      var k :| LastNamed(c.t, c.currentRoles, key, k) && current[key] == set p | p in c.currentRoles[k].permissions;
      var existing := c.currentRoles[k];
      var added, removed := Held(role) - current[key], current[key] - Held(role);
      OrderedIsListing(table, added);
      OrderedIsListing(table, removed);
      assert added == set p | p in role.permissions && p !in existing.permissions;
      assert removed == set p | p in existing.permissions && p !in role.permissions;
      assert AsksExisting(c, role, existing, KeepListed(table, added), KeepListed(table, removed),
                          ImpactsOfRole(c.t, current, role));
    }
  }

  lemma RoleRetires(c: Comparison, role: Role)
    ensures Retires(c, role, Retirement(c.t, c.Proposed(), role))
  {
    MapMeans(c.t, c.definitionRoles, Key(c.t, role.name));
    OrderedIsListing(c.t.permissions, Held(role));
  }

  // ----- the proposal -----

  function Flat(told: seq<seq<Impact>>): seq<Impact> {
    if told == [] then [] else Flat(told[..|told| - 1]) + told[|told| - 1]
  }

  lemma {:induction false} FlatJoins(a: seq<seq<Impact>>, b: seq<seq<Impact>>)
    ensures Flat(a + b) == Flat(a) + Flat(b)
  {
    if b == [] {
      assert a + b == a;
    } else {
      assert (a + b)[..|a + b| - 1] == a + b[..|b| - 1];
      FlatJoins(a, b[..|b| - 1]);
    }
  }

  function AskedBy(c: Comparison, roles: seq<Role>): (told: seq<seq<Impact>>)
    ensures |told| == |roles|
  {
    seq(|roles|, i requires 0 <= i < |roles| => ImpactsOfRole(c.t, c.Current(), roles[i]))
  }

  function RetiredBy(c: Comparison, roles: seq<Role>): (told: seq<seq<Impact>>)
    ensures |told| == |roles|
  {
    seq(|roles|, i requires 0 <= i < |roles| => Retirement(c.t, c.Proposed(), roles[i]))
  }

  lemma {:induction false} ChangesByRole(c: Comparison, roles: seq<Role>)
    ensures Flat(AskedBy(c, roles)) == Changes(c.t, c.Current(), roles)
  {
    if roles != [] {
      var n := |roles| - 1;
      ChangesByRole(c, roles[..n]);
      assert AskedBy(c, roles)[..n] == AskedBy(c, roles[..n]);
    }
  }

  lemma {:induction false} RetirementsByRole(c: Comparison, roles: seq<Role>)
    ensures Flat(RetiredBy(c, roles)) == Retirements(c.t, c.Proposed(), roles)
  {
    if roles != [] {
      var n := |roles| - 1;
      RetirementsByRole(c, roles[..n]);
      assert RetiredBy(c, roles)[..n] == RetiredBy(c, roles[..n]);
    }
  }

  /** The whole proposal: first what each blueprint role asks for, in order, then the retirements, in order. */
  lemma ProposalByRole(c: Comparison) returns (asked: seq<seq<Impact>>, retired: seq<seq<Impact>>)
    ensures |asked| == |c.definitionRoles| && |retired| == |c.currentRoles|
    ensures forall i :: 0 <= i < |asked| ==> Asks(c, c.definitionRoles[i], asked[i])
    ensures forall i :: 0 <= i < |retired| ==> Retires(c, c.currentRoles[i], retired[i])
    ensures c.Impacts() == Flat(asked + retired)
  {
    asked, retired := AskedBy(c, c.definitionRoles), RetiredBy(c, c.currentRoles);
    ChangesByRole(c, c.definitionRoles);
    RetirementsByRole(c, c.currentRoles);
    FlatJoins(asked, retired);
    forall i | 0 <= i < |asked|
      ensures Asks(c, c.definitionRoles[i], asked[i])
    {
      RoleAsks(c, c.definitionRoles[i]);
    }
    forall i | 0 <= i < |retired|
      ensures Retires(c, c.currentRoles[i], retired[i])
    {
      RoleRetires(c, c.currentRoles[i]);
    }
  }
}
