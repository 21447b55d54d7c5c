/** Authorization of human and agent identities over one snapshot of a Guild. */
module Permissions {
  import opened Options
  import opened Chains

  type Id = string
  type Permission = string

  datatype Kind = Human | Agent | Service | GuildActor
  datatype MembershipState = Invited | Preboarding | Active | Suspended | Departed
  datatype Visibility = GuildWide | SpaceWide | Restricted | Private
  datatype Classification = Public | Internal | Confidential | Restricted

  datatype Space = Space(id: Id, guildId: Id, parentSpaceId: Option<Id>)
  datatype Identity = Identity(id: Id, guildId: Id, kind: Kind, active: bool)
  datatype Membership = Membership(identityId: Id, guildId: Id, state: MembershipState, clearance: Classification)
  datatype Role = Role(id: Id, guildId: Id, permissions: seq<Permission>)
  datatype RoleBinding = RoleBinding(guildId: Id, identityId: Id, roleId: Id, spaceId: Option<Id>)
  datatype AgentProfile = AgentProfile(identityId: Id, guildId: Id, active: bool)

  datatype Resource = Resource(id: Id, guildId: Id, spaceId: Option<Id>, ownerId: Id, visibility: Visibility,
                               classification: Classification, allowed: seq<Id>)

  /** `rootOwner` and `guildId` come from the snapshot's Guild record. */
  datatype Snapshot = Snapshot(guildId: Id, rootOwner: Id, spaces: seq<Space>, identities: seq<Identity>,
                               memberships: seq<Membership>, roles: seq<Role>, bindings: seq<RoleBinding>,
                               agents: seq<AgentProfile>)

  /** The constant tables: all permissions in their fixed order, and the two special sets. */
  datatype Tables = Tables(permissions: seq<Permission>, humanOnly: set<Permission>, preboarding: set<Permission>)

  datatype Request = Request(actor: Id, permission: Permission, resource: Option<Resource>)

  datatype AgentRequest = AgentRequest(agent: Id, requester: Id, permission: Permission,
                                       workflow: set<Permission>, connector: set<Permission>,
                                       resource: Option<Resource>)

  datatype Code = InvalidInput | IdentityNotFound | IdentityDisabled | MembershipInactive | PermissionDenied
                | ResourceOutsideGuild | PrivateResource | ClassificationDenied | RootOwnerRequired | AgentStopped

  datatype Verdict = Allowed | Refused(code: Code)

  // ----- lookups -----

  function FindSpace(spaces: seq<Space>, id: Id): (r: Option<Space>)
    ensures r.Some? ==> r.value in spaces && r.value.id == id
  {
    if spaces == [] then None
    else if spaces[0].id == id then Some(spaces[0])
    else FindSpace(spaces[1..], id)
  }

  function FindIdentity(identities: seq<Identity>, id: Id): (r: Option<Identity>)
    ensures r.Some? ==> r.value in identities && r.value.id == id
  {
    if identities == [] then None
    else if identities[0].id == id then Some(identities[0])
    else FindIdentity(identities[1..], id)
  }

  function FindMembership(memberships: seq<Membership>, id: Id): (r: Option<Membership>)
    ensures r.Some? ==> r.value in memberships && r.value.identityId == id
  {
    if memberships == [] then None
    else if memberships[0].identityId == id then Some(memberships[0])
    else FindMembership(memberships[1..], id)
  }

  function FindAgent(agents: seq<AgentProfile>, id: Id): (r: Option<AgentProfile>)
    ensures r.Some? ==> r.value in agents && r.value.identityId == id
  {
    if agents == [] then None
    else if agents[0].identityId == id then Some(agents[0])
    else FindAgent(agents[1..], id)
  }

  // ----- the walk up the Spaces -----

  function SpaceIds(spaces: seq<Space>): set<Id> {
    set s | s in spaces :: s.id
  }

  function ParentSpaces(spaces: seq<Space>): map<Id, Id> {
    map id | id in SpaceIds(spaces) && FindSpace(spaces, id).Some? && FindSpace(spaces, id).value.parentSpaceId.Some?
      :: FindSpace(spaces, id).value.parentSpaceId.value
  }

  /** The thrown cycle error is Endless. */
  datatype Walk = Inside | Outside | Endless

  /** The recursion behind the loop of `isSpaceWithin`. */
  function WalkUp(next: map<Id, Id>, current: Option<Id>, target: Id, visited: set<Id>): Walk
    requires visited <= next.Keys
    decreases next.Keys - visited
  {
    if current.None? then Outside
    else if current.value == target then Inside
    else if current.value in visited then Endless
    else if current.value !in next then Outside
    else WalkUp(next, Some(next[current.value]), target, visited + {current.value})
  }

  function SpaceWithin(spaces: seq<Space>, resourceSpace: Id, bindingSpace: Id): Walk {
    WalkUp(ParentSpaces(spaces), Some(resourceSpace), bindingSpace, {})
  }

  /** The loop of `isSpaceWithin`. */
  method IsSpaceWithin(spaces: seq<Space>, resourceSpace: Id, bindingSpace: Id) returns (walk: Walk)
    ensures walk == SpaceWithin(spaces, resourceSpace, bindingSpace)
  {
    ghost var next := ParentSpaces(spaces);
    var current := Some(resourceSpace);
    var visited: set<Id> := {};
    while current.Some?
      invariant current.Some? ==> visited <= next.Keys
      invariant SpaceWithin(spaces, resourceSpace, bindingSpace) ==
                if current.Some? then WalkUp(next, current, bindingSpace, visited) else Outside
      decreases next.Keys - visited, current.Some?
    {
      if current.value == bindingSpace {
        return Inside;
      }
      if current.value in visited {
        return Endless;
      }
      var found := FindSpace(spaces, current.value);
      assert current.value in next <==> found.Some? && found.value.parentSpaceId.Some?;
      visited := visited + {current.value};
      current := if found.Some? then found.value.parentSpaceId else None;
    }
    return Outside;
  }

  lemma {:induction false} WalkUpDecides(next: map<Id, Id>, x: Id, target: Id, visited: set<Id>)
    requires visited <= next.Keys && target !in visited
    requires forall v :: v in visited ==> next[v] in visited || next[v] == x
    ensures WalkUp(next, Some(x), target, visited) == Inside <==> Chains.Reaches(next, x, target)
    ensures WalkUp(next, Some(x), target, visited) == Outside <==> !Chains.Reaches(next, x, target) && Ends(next, x)
    decreases next.Keys - visited
  {
    if x == target {
      assert Follow(next, x, 0) == Some(target);
    } else if x in visited {
      forall n: nat
        ensures Follow(next, x, n).Some? && Follow(next, x, n) != Some(target)
      {
        ClosedNeverEnds(next, visited, x, n);
      }
    } else if x in next {
      WalkUpDecides(next, next[x], target, visited + {x});
      ReachesStep(next, x, target);
      EndsStep(next, x);
    } else {
      assert Follow(next, x, 1) == None;
      forall n: nat
        ensures Follow(next, x, n) != Some(target)
      {
      }
    }
  }

  /**
   The walk terminates on every snapshot; it says Inside exactly when the binding's Space is the
   resource's Space or one of its ancestors, and it throws only on an endless chain of parents.
   */
  lemma SpaceWithinDecides(spaces: seq<Space>, resourceSpace: Id, bindingSpace: Id)
    ensures SpaceWithin(spaces, resourceSpace, bindingSpace) == Inside <==>
            Chains.Reaches(ParentSpaces(spaces), resourceSpace, bindingSpace)
    ensures SpaceWithin(spaces, resourceSpace, bindingSpace) == Outside <==>
            && !Chains.Reaches(ParentSpaces(spaces), resourceSpace, bindingSpace)
            && Ends(ParentSpaces(spaces), resourceSpace)
  {
    WalkUpDecides(ParentSpaces(spaces), resourceSpace, bindingSpace, {});
  }

  // ----- authorization -----

  /** The guard `assertSnapshotIntegrity`. */
  predicate Integrity(s: Snapshot) {
    OneGuild(s) && HasRootOwner(s) && forall b :: b in s.bindings ==> Resolves(s, b)
  }

  predicate OneGuild(s: Snapshot) {
    && (forall x :: x in s.spaces ==> x.guildId == s.guildId)
    && (forall x :: x in s.identities ==> x.guildId == s.guildId)
    && (forall x :: x in s.memberships ==> x.guildId == s.guildId)
    && (forall x :: x in s.roles ==> x.guildId == s.guildId)
    && (forall x :: x in s.bindings ==> x.guildId == s.guildId)
    && (forall x :: x in s.agents ==> x.guildId == s.guildId)
  }

  predicate HasRootOwner(s: Snapshot) {
    exists x :: x in s.identities && x.id == s.rootOwner
  }

  predicate Resolves(s: Snapshot, b: RoleBinding) {
    && (exists x :: x in s.identities && x.id == b.identityId)
    && (exists x :: x in s.roles && x.id == b.roleId)
    && (b.spaceId.Some? ==> b.spaceId.value in SpaceIds(s.spaces))
  }

  predicate Live(membership: Option<Membership>) {
    membership.Some? && (membership.value.state == Preboarding || membership.value.state == Active)
  }

  function Rank(c: Classification): nat {
    match c case Public => 0 case Internal => 1 case Confidential => 2 case Restricted => 3
  }

  /** `bindingApplies`: an unscoped binding always applies, a scoped one only to a resource inside its Space. */
  function Scope(s: Snapshot, b: RoleBinding, resource: Option<Resource>): Walk {
    if b.spaceId.None? then Inside
    else if resource.None? || resource.value.spaceId.None? || resource.value.spaceId.value == "" then Outside
    else SpaceWithin(s.spaces, resource.value.spaceId.value, b.spaceId.value)
  }

  /** `hasRolePermission`; None is the error that an endless chain raises for any binding of the identity. */
  function HasRolePermission(s: Snapshot, actor: Id, permission: Permission, resource: Option<Resource>): Option<bool> {
    if exists b :: b in s.bindings && b.identityId == actor && Scope(s, b, resource) == Endless then None
    else Some(exists role, b ::
                role in s.roles && b in s.bindings && b.identityId == actor && Scope(s, b, resource) == Inside &&
                b.roleId == role.id && permission in role.permissions)
  }

  /** `assertResourceVisibility`. */
  function VisibilityVerdict(s: Snapshot, actor: Id, r: Resource): Verdict {
    var shared := r.ownerId == actor || actor in r.allowed;
    var membership := FindMembership(s.memberships, actor);
    if r.guildId != s.guildId then Refused(ResourceOutsideGuild)
    else if r.visibility == Private && !shared then Refused(PrivateResource)
    else if r.visibility == Visibility.Restricted && !shared then Refused(PermissionDenied)
    else if !Live(membership) then Refused(MembershipInactive)
    else if Rank(membership.value.clearance) < Rank(r.classification) then Refused(ClassificationDenied)
    else Allowed
  }

  function Authorize(t: Tables, s: Snapshot, q: Request): Verdict {
    var identity := FindIdentity(s.identities, q.actor);
    var membership := FindMembership(s.memberships, q.actor);
    if !Integrity(s) then Refused(if OneGuild(s) && !HasRootOwner(s) then RootOwnerRequired else InvalidInput)
    else if identity.None? then Refused(IdentityNotFound)
    else if !identity.value.active then Refused(IdentityDisabled)
    else if !Live(membership) then Refused(MembershipInactive)
    else if identity.value.kind != Human && q.permission in t.humanOnly then Refused(PermissionDenied)
    else if q.resource.Some? && VisibilityVerdict(s, q.actor, q.resource.value) != Allowed then
      VisibilityVerdict(s, q.actor, q.resource.value)
    else
      var held := if q.actor == s.rootOwner then Some(true)
                  else HasRolePermission(s, q.actor, q.permission, q.resource);
      if held.None? then Refused(InvalidInput)
      else if !held.value || (membership.value.state == Preboarding && q.permission !in t.preboarding) then
        Refused(PermissionDenied)
      else Allowed
  }

  // ----- what authorization means -----

  /** The identity takes part in the Guild and may in principle use the permission. */
  ghost predicate MayAct(t: Tables, s: Snapshot, actor: Id, permission: Permission) {
    var identity, membership := FindIdentity(s.identities, actor), FindMembership(s.memberships, actor);
    && identity.Some? && identity.value.active && Live(membership)
    && (permission in t.humanOnly ==> identity.value.kind == Human)
    && (membership.value.state == Active || permission in t.preboarding)
  }

  ghost predicate CanSee(s: Snapshot, actor: Id, r: Resource) {
    var membership := FindMembership(s.memberships, actor);
    && r.guildId == s.guildId
    && (r.visibility == Private || r.visibility == Visibility.Restricted ==> r.ownerId == actor || actor in r.allowed)
    && Live(membership) && Rank(r.classification) <= Rank(membership.value.clearance)
  }

  /** The binding is unscoped, or the resource lies in the binding's Space or below it. */
  ghost predicate Covers(s: Snapshot, b: RoleBinding, resource: Option<Resource>) {
    b.spaceId.Some? ==>
      && Placed(resource)
      && Chains.Reaches(ParentSpaces(s.spaces), resource.value.spaceId.value, b.spaceId.value)
  }

  ghost predicate Placed(resource: Option<Resource>) {
    resource.Some? && resource.value.spaceId.Some? && resource.value.spaceId.value != ""
  }

  /** No binding of the actor sends the walk up an endless chain of parents. */
  ghost predicate WalksEnd(s: Snapshot, actor: Id, resource: Option<Resource>) {
    forall b :: b in s.bindings && b.identityId == actor ==> WalkEnds(s, b, resource)
  }

  ghost predicate WalkEnds(s: Snapshot, b: RoleBinding, resource: Option<Resource>) {
    Covers(s, b, resource) || !Placed(resource) || Ends(ParentSpaces(s.spaces), resource.value.spaceId.value)
  }

  ghost predicate Holds(s: Snapshot, actor: Id, permission: Permission, resource: Option<Resource>) {
    exists b, role :: b in s.bindings && b.identityId == actor && Covers(s, b, resource) &&
                      role in s.roles && role.id == b.roleId && permission in role.permissions
  }

  /** The whole policy for one identity, one permission and, possibly, one resource. */
  ghost predicate Entitled(t: Tables, s: Snapshot, actor: Id, permission: Permission, resource: Option<Resource>) {
    && Integrity(s)
    && MayAct(t, s, actor, permission)
    && (resource.Some? ==> CanSee(s, actor, resource.value))
    && (actor == s.rootOwner || (WalksEnd(s, actor, resource) && Holds(s, actor, permission, resource)))
  }

  lemma ScopeMeans(s: Snapshot, b: RoleBinding, resource: Option<Resource>)
    ensures Scope(s, b, resource) == Inside <==> Covers(s, b, resource)
    ensures Scope(s, b, resource) != Endless <==> WalkEnds(s, b, resource)
  {
    if b.spaceId.Some? && Placed(resource) {
      SpaceWithinDecides(s.spaces, resource.value.spaceId.value, b.spaceId.value);
    }
  }

  /** `authorize` lets a request through exactly when every clause of the policy holds, on any snapshot. */
  lemma AuthorizeMeans(t: Tables, s: Snapshot, q: Request)
    ensures Authorize(t, s, q) == Allowed <==> Entitled(t, s, q.actor, q.permission, q.resource)
  {
    forall b {
      ScopeMeans(s, b, q.resource);
    }
  }

  lemma ForestWalksEnd(s: Snapshot, actor: Id, resource: Option<Resource>)
    requires IsForest(ParentSpaces(s.spaces))
    ensures WalksEnd(s, actor, resource)
  {
  }

  // ----- authorization follows the Space hierarchy -----

  /**
   An authorization on a resource survives moving the resource down to any Space below its own,
   as long as the chain of parents from the new Space ends; on forest snapshots it always does.
   */
  lemma MovingDownKeepsAuthorization(t: Tables, s: Snapshot, q: Request, space: Id)
    requires q.resource.Some? && Authorize(t, s, q) == Allowed
    requires space != "" && Ends(ParentSpaces(s.spaces), space)
    requires var from := q.resource.value.spaceId;
             from.Some? ==> Chains.Reaches(ParentSpaces(s.spaces), space, from.value)
    ensures Authorize(t, s, q.(resource := Some(q.resource.value.(spaceId := Some(space))))) == Allowed
  {
    var moved := Some(q.resource.value.(spaceId := Some(space)));
    AuthorizeMeans(t, s, q);
    AuthorizeMeans(t, s, q.(resource := moved));
    forall b | Covers(s, b, q.resource)
      ensures Covers(s, b, moved)
    {
      if b.spaceId.Some? {
        ReachesTransitive(ParentSpaces(s.spaces), space, q.resource.value.spaceId.value, b.spaceId.value);
      }
    }
  }

  // ----- adding a role binding -----

  /**
   A further role binding leaves an authorization standing exactly when it resolves, belongs to
   this Guild, and does not send its own identity's walk up an endless chain of Spaces.
   */
  lemma AddingBindingKeepsAuthorizationIff(t: Tables, s: Snapshot, q: Request, b: RoleBinding)
    requires Authorize(t, s, q) == Allowed
    ensures Authorize(t, s.(bindings := s.bindings + [b]), q) == Allowed <==>
            && b.guildId == s.guildId && Resolves(s, b)
            && (q.actor == s.rootOwner || b.identityId != q.actor || WalkEnds(s, b, q.resource))
  {
    var s' := s.(bindings := s.bindings + [b]);
    AuthorizeMeans(t, s, q);
    AuthorizeMeans(t, s', q);
    assert forall x :: x in s'.bindings <==> x in s.bindings || x == b;
    assert forall x :: Covers(s', x, q.resource) == Covers(s, x, q.resource);
    assert forall x :: WalkEnds(s', x, q.resource) == WalkEnds(s, x, q.resource);
    assert forall x :: Resolves(s', x) == Resolves(s, x);
    if WalksEnd(s', q.actor, q.resource) && b.identityId == q.actor {
      assert WalkEnds(s', b, q.resource);
    }
    if Integrity(s') {
      assert Resolves(s', b);
    }
  }

  /** On forest snapshots a well-formed binding never takes an authorization away. */
  lemma AddingBindingOnForest(t: Tables, s: Snapshot, q: Request, b: RoleBinding)
    requires IsForest(ParentSpaces(s.spaces)) && Authorize(t, s, q) == Allowed
    requires b.guildId == s.guildId && Resolves(s, b)
    ensures Authorize(t, s.(bindings := s.bindings + [b]), q) == Allowed
  {
    AddingBindingKeepsAuthorizationIff(t, s, q, b);
    if Placed(q.resource) {
      assert Ends(ParentSpaces(s.spaces), q.resource.value.spaceId.value);
    }
  }

  /** A member holds `p` everywhere in the Guild; the Space of the request is on a loop of two Spaces. */
  function LoopSnapshot(p: Permission): Snapshot {
    Snapshot("guild", "owner",
             [Space("a", "guild", Some("b")), Space("b", "guild", Some("a")), Space("c", "guild", None)],
             [Identity("owner", "guild", Human, true), Identity("member", "guild", Human, true)],
             [Membership("member", "guild", Active, Public)],
             [Role("role", "guild", [p])], [RoleBinding("guild", "member", "role", None)], [])
  }

  function LoopRequest(p: Permission): Request {
    Request("member", p, Some(Resource("page", "guild", Some("a"), "owner", GuildWide, Public, [])))
  }

  lemma LoopNeverEnds(p: Permission)
    ensures var next := ParentSpaces(LoopSnapshot(p).spaces);
            !Ends(next, "a") && !Chains.Reaches(next, "a", "c")
  {
    var spaces := LoopSnapshot(p).spaces;
    var next := ParentSpaces(spaces);
    assert FindSpace(spaces, "a") == Some(spaces[0]) && FindSpace(spaces, "b") == Some(spaces[1]);
    assert spaces[0].id in SpaceIds(spaces) && spaces[1].id in SpaceIds(spaces);
    assert next["a"] == "b" && next["b"] == "a";
    forall n: nat
      ensures Follow(next, "a", n).Some? && Follow(next, "a", n).value in {"a", "b"}
    {
      ClosedNeverEnds(next, {"a", "b"}, "a", n);
    }
  }

  lemma LoopIsAllowed(t: Tables, p: Permission)
    ensures Authorize(t, LoopSnapshot(p), LoopRequest(p)) == Allowed
  {
    var s := LoopSnapshot(p);
    assert s.identities[0] in s.identities && s.identities[1] in s.identities && s.roles[0] in s.roles;
    assert s.bindings[0] in s.bindings && Scope(s, s.bindings[0], LoopRequest(p).resource) == Inside;
    assert FindIdentity(s.identities, "member") == Some(s.identities[1]);
  }

  /** A further, well-formed binding, to a Space off the loop, takes that authorization away. */
  lemma BindingTakesAuthorizationAway(t: Tables, p: Permission)
    ensures var s, b := LoopSnapshot(p), RoleBinding("guild", "member", "role", Some("c"));
            && Integrity(s) && Authorize(t, s, LoopRequest(p)) == Allowed
            && b.guildId == s.guildId && Resolves(s, b)
            && Authorize(t, s.(bindings := s.bindings + [b]), LoopRequest(p)) != Allowed
  {
    var s, b := LoopSnapshot(p), RoleBinding("guild", "member", "role", Some("c"));
    LoopIsAllowed(t, p);
    LoopNeverEnds(p);
    assert s.identities[1] in s.identities && s.roles[0] in s.roles && s.spaces[2] in s.spaces;
    AddingBindingKeepsAuthorizationIff(t, s, LoopRequest(p), b);
  }

  // ----- delegation -----

  /** The loop of `assertCanDelegatePermissions`: one request without a resource for each permission. */
  method CanDelegate(t: Tables, s: Snapshot, actor: Id, permissions: seq<Permission>) returns (verdict: Verdict)
    ensures verdict == Allowed <==> Delegable(t, s, actor, permissions)
  {
    for i := 0 to |permissions|
      invariant forall j :: 0 <= j < i ==> Authorize(t, s, Request(actor, permissions[j], None)) == Allowed
    {
      verdict := Authorize(t, s, Request(actor, permissions[i], None));
      if verdict != Allowed {
        assert permissions[i] in permissions;
        return;
      }
    }
    return Allowed;
  }

  predicate Delegable(t: Tables, s: Snapshot, actor: Id, permissions: seq<Permission>) {
    forall p :: p in permissions ==> Authorize(t, s, Request(actor, p, None)) == Allowed
  }

  /** Without a resource only root ownership and unscoped bindings count. */
  lemma WithoutResourceOnlyUnscopedBindings(t: Tables, s: Snapshot, actor: Id, p: Permission)
    ensures Authorize(t, s, Request(actor, p, None)) == Allowed <==>
            && Integrity(s) && MayAct(t, s, actor, p)
            && (actor == s.rootOwner ||
                exists b, role :: b in s.bindings && b.identityId == actor && b.spaceId == None &&
                                  role in s.roles && role.id == b.roleId && p in role.permissions)
  {
  }

  /**
   What an actor may delegate it can use itself: on a forest snapshot, on exactly the resources
   it can see, in every Space.
   */
  lemma DelegablePermissionIsUsable(t: Tables, s: Snapshot, actor: Id, permissions: seq<Permission>,
                                    p: Permission, r: Resource)
    requires IsForest(ParentSpaces(s.spaces))
    requires Delegable(t, s, actor, permissions) && p in permissions
    ensures Authorize(t, s, Request(actor, p, Some(r))) == Allowed <==> CanSee(s, actor, r)
  {
    AuthorizeMeans(t, s, Request(actor, p, Some(r)));
    WithoutResourceOnlyUnscopedBindings(t, s, actor, p);
    ForestWalksEnd(s, actor, Some(r));
    assert forall b: RoleBinding :: b.spaceId == None ==> Covers(s, b, Some(r));
  }

  // ----- agents -----

  function AuthorizeAgent(t: Tables, s: Snapshot, q: AgentRequest): Verdict {
    var agent, requester := FindIdentity(s.identities, q.agent), FindIdentity(s.identities, q.requester);
    var profile, requesterProfile := FindAgent(s.agents, q.agent), FindAgent(s.agents, q.requester);
    var own := Authorize(t, s, Request(q.agent, q.permission, q.resource));
    var asked := Authorize(t, s, Request(q.requester, q.permission, q.resource));
    if agent.None? then Refused(IdentityNotFound)
    else if !agent.value.active then Refused(IdentityDisabled)
    else if agent.value.kind != Agent then Refused(InvalidInput)
    else if profile.None? || !profile.value.active then Refused(AgentStopped)
    else if requester.None? then Refused(IdentityNotFound)
    else if !requester.value.active then Refused(IdentityDisabled)
    else if requester.value.kind == Agent && (requesterProfile.None? || !requesterProfile.value.active) then
      Refused(AgentStopped)
    else if requester.value.kind != Agent && requester.value.kind != Human then Refused(PermissionDenied)
    else if own != Allowed then own
    else if asked != Allowed then asked
    else if q.permission !in q.workflow || q.permission !in q.connector then Refused(PermissionDenied)
    else Allowed
  }

  /** An enabled agent identity whose profile is running. */
  ghost predicate RunningAgent(s: Snapshot, id: Id) {
    var identity, profile := FindIdentity(s.identities, id), FindAgent(s.agents, id);
    && identity.Some? && identity.value.active && identity.value.kind == Agent
    && profile.Some? && profile.value.active
  }

  ghost predicate MayRequest(s: Snapshot, id: Id) {
    var identity := FindIdentity(s.identities, id);
    RunningAgent(s, id) || (identity.Some? && identity.value.active && identity.value.kind == Human)
  }

  /** `effectiveAgentPermissions`. */
  function Effective(t: Tables, s: Snapshot, agent: Id, requester: Id, workflow: set<Permission>,
                     connector: set<Permission>, resource: Option<Resource>): set<Permission>
  {
    set p | p in t.permissions &&
            AuthorizeAgent(t, s, AgentRequest(agent, requester, p, workflow, connector, resource)) == Allowed
  }

  /**
   An agent's effective authority is an intersection, none of it while the agent is stopped or
   the requester may not ask, and none of it human-only.
   */
  lemma EffectiveIsIntersection(t: Tables, s: Snapshot, agent: Id, requester: Id, workflow: set<Permission>,
                                connector: set<Permission>, resource: Option<Resource>, p: Permission)
    ensures p in Effective(t, s, agent, requester, workflow, connector, resource) <==>
            && p in t.permissions
            && RunningAgent(s, agent) && MayRequest(s, requester)
            && Entitled(t, s, agent, p, resource) && Entitled(t, s, requester, p, resource)
            && p in workflow && p in connector
    ensures p in t.humanOnly ==> p !in Effective(t, s, agent, requester, workflow, connector, resource)
  {
    AuthorizeMeans(t, s, Request(agent, p, resource));
    AuthorizeMeans(t, s, Request(requester, p, resource));
  }

  lemma EffectiveIsMonotone(t: Tables, s: Snapshot, agent: Id, requester: Id, workflow: set<Permission>,
                            connector: set<Permission>, resource: Option<Resource>,
                            workflow': set<Permission>, connector': set<Permission>)
    requires workflow <= workflow' && connector <= connector'
    ensures Effective(t, s, agent, requester, workflow, connector, resource) <=
            Effective(t, s, agent, requester, workflow', connector', resource)
  {
  }

  function WithResource(q: AgentRequest, r: Resource): AgentRequest {
    q.(resource := Some(r))
  }

  /** `filterAgentAuthorizedResources`; the request's own resource is replaced by each record. */
  function FilterAgentResources(t: Tables, s: Snapshot, q: AgentRequest, records: seq<Resource>): seq<Resource> {
    if records == [] then []
    else
      var rest := FilterAgentResources(t, s, q, records[1..]);
      if AuthorizeAgent(t, s, WithResource(q, records[0])) == Allowed then [records[0]] + rest else rest
  }

  /**
   The filter keeps the order of the records, and of each of them it keeps what its effective set
   says: the record if the set has the permission, nothing otherwise.
   */
  lemma {:induction false} FilterAgreesWithEffective(t: Tables, s: Snapshot, q: AgentRequest, before: seq<Resource>,
                                                     r: Resource, after: seq<Resource>)
    requires q.permission in t.permissions
    ensures FilterAgentResources(t, s, q, before + [r] + after) ==
            FilterAgentResources(t, s, q, before) +
            (if q.permission in Effective(t, s, q.agent, q.requester, q.workflow, q.connector, Some(r))
             then [r] else []) +
            FilterAgentResources(t, s, q, after)
  {
    var records := before + [r] + after;
    if before == [] {
      assert records[0] == r && records[1..] == after;
      assert WithResource(q, r) == AgentRequest(q.agent, q.requester, q.permission, q.workflow, q.connector, Some(r));
    } else {
      FilterAgreesWithEffective(t, s, q, before[1..], r, after);
      assert records[0] == before[0] && records[1..] == before[1..] + [r] + after;
    }
  }

}
