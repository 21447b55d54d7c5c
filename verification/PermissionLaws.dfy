/** The authorization policy written out in full, and the proof that `authorize` is exactly that policy. */
module PermissionLaws {
  import opened Options
  import opened Lookups
  import opened Permissions
  import Chains

  // ----- lookups -----

  function OfIdentity(id: Id): Identity -> bool {
    (x: Identity) => x.id == id
  }

  function OfMember(id: Id): Membership -> bool {
    (x: Membership) => x.identityId == id
  }

  function OfAgent(id: Id): AgentProfile -> bool {
    (x: AgentProfile) => x.identityId == id
  }

  function OfSpace(id: Id): Space -> bool {
    (x: Space) => x.id == id
  }

  lemma {:induction false} FindIdentityFinds(identities: seq<Identity>, id: Id)
    ensures Finds(identities, OfIdentity(id), FindIdentity(identities, id))
  {
    if identities != [] {
      if identities[0].id == id {
        FindsHere(identities, OfIdentity(id));
      } else {
        FindIdentityFinds(identities[1..], id);
        FindsLater(identities, OfIdentity(id), FindIdentity(identities[1..], id));
      }
    }
  }

  lemma {:induction false} FindMembershipFinds(memberships: seq<Membership>, id: Id)
    ensures Finds(memberships, OfMember(id), FindMembership(memberships, id))
  {
    if memberships != [] {
      if memberships[0].identityId == id {
        FindsHere(memberships, OfMember(id));
      } else {
        FindMembershipFinds(memberships[1..], id);
        FindsLater(memberships, OfMember(id), FindMembership(memberships[1..], id));
      }
    }
  }

  lemma {:induction false} FindAgentFinds(agents: seq<AgentProfile>, id: Id)
    ensures Finds(agents, OfAgent(id), FindAgent(agents, id))
  {
    if agents != [] {
      if agents[0].identityId == id {
        FindsHere(agents, OfAgent(id));
      } else {
        FindAgentFinds(agents[1..], id);
        FindsLater(agents, OfAgent(id), FindAgent(agents[1..], id));
      }
    }
  }

  lemma {:induction false} FindSpaceFinds(spaces: seq<Space>, id: Id)
    ensures Finds(spaces, OfSpace(id), FindSpace(spaces, id))
  {
    if spaces != [] {
      if spaces[0].id == id {
        FindsHere(spaces, OfSpace(id));
      } else {
        FindSpaceFinds(spaces[1..], id);
        FindsLater(spaces, OfSpace(id), FindSpace(spaces[1..], id));
      }
    }
  }

  /** The first Space of the id `a` names `b` as its parent. */
  ghost predicate Under(spaces: seq<Space>, a: Id, b: Id) {
    exists x :: Finds(spaces, OfSpace(a), Some(x)) && x.parentSpaceId == Some(b)
  }

  /** The links that the walk up follows are the parents of first Spaces. */
  lemma ParentSpacesMean(spaces: seq<Space>, a: Id, b: Id)
    ensures a in ParentSpaces(spaces) && ParentSpaces(spaces)[a] == b <==> Under(spaces, a, b)
  {
    FindSpaceFinds(spaces, a);
    forall x | Finds(spaces, OfSpace(a), Some(x))
      ensures FindSpace(spaces, a) == Some(x) && a in SpaceIds(spaces)
    {
      FindsOne(spaces, OfSpace(a), Some(x), FindSpace(spaces, a));
    }
  }

  // ----- the policy -----

  /** Everything is of one Guild, the root owner exists, and every binding names what exists. */
  ghost predicate Whole(s: Snapshot) {
    && (forall x :: x in s.spaces ==> x.guildId == s.guildId)
    && (forall x :: x in s.identities ==> x.guildId == s.guildId)
    && (forall x :: x in s.memberships ==> x.guildId == s.guildId)
    && (forall x :: x in s.roles ==> x.guildId == s.guildId)
    && (forall x :: x in s.bindings ==> x.guildId == s.guildId)
    && (forall x :: x in s.agents ==> x.guildId == s.guildId)
    && (exists x :: x in s.identities && x.id == s.rootOwner)
    && forall b :: b in s.bindings ==>
         && (exists x :: x in s.identities && x.id == b.identityId)
         && (exists x :: x in s.roles && x.id == b.roleId)
         && (b.spaceId.Some? ==> exists x :: x in s.spaces && x.id == b.spaceId.value)
  }

  /** What a clearance opens. */
  function Opens(clearance: Classification): set<Classification> {
    match clearance
    case Public => {Public}
    case Internal => {Public, Internal}
    case Confidential => {Public, Internal, Confidential}
    case Restricted => {Public, Internal, Confidential, Classification.Restricted}
  }

  lemma RanksMean(clearance: Classification, classification: Classification)
    ensures Rank(classification) <= Rank(clearance) <==> classification in Opens(clearance)
  {
  }

  /** The identity is enabled and takes part in the Guild, and the permission is not above its kind or state. */
  ghost predicate TakesPart(t: Tables, s: Snapshot, actor: Id, permission: Permission, m: Membership) {
    && Finds(s.memberships, OfMember(actor), Some(m))
    && (m.state == Active || (m.state == Preboarding && permission in t.preboarding))
    && exists x :: Finds(s.identities, OfIdentity(actor), Some(x)) && x.active &&
                   (x.kind == Human || permission !in t.humanOnly)
  }

  /** The resource is of this Guild, shared with the actor if it is not for all, and open to the clearance. */
  ghost predicate Visible(s: Snapshot, actor: Id, m: Membership, r: Resource) {
    && r.guildId == s.guildId && r.classification in Opens(m.clearance)
    && (r.visibility in {GuildWide, SpaceWide} || r.ownerId == actor || actor in r.allowed)
  }

  /** A binding of the actor that covers the resource grants a role with the permission, and no walk is endless. */
  ghost predicate Granted(s: Snapshot, actor: Id, permission: Permission, resource: Option<Resource>) {
    && WalksEnd(s, actor, resource)
    && exists b, role :: b in s.bindings && b.identityId == actor && Covers(s, b, resource) &&
                         role in s.roles && role.id == b.roleId && permission in role.permissions
  }

  ghost predicate Policy(t: Tables, s: Snapshot, actor: Id, permission: Permission, resource: Option<Resource>) {
    && Whole(s)
    && (exists m :: TakesPart(t, s, actor, permission, m) && (resource.Some? ==> Visible(s, actor, m, resource.value)))
    && (actor == s.rootOwner || Granted(s, actor, permission, resource))
  }

  lemma WholeMeans(s: Snapshot)
    ensures Integrity(s) <==> Whole(s)
  {
  }

  lemma PartMeans(t: Tables, s: Snapshot, actor: Id, permission: Permission, resource: Option<Resource>)
    ensures MayAct(t, s, actor, permission) && (resource.Some? ==> CanSee(s, actor, resource.value)) <==>
            exists m :: TakesPart(t, s, actor, permission, m) &&
                        (resource.Some? ==> Visible(s, actor, m, resource.value))
  {
    FindIdentityFinds(s.identities, actor);
    FindMembershipFinds(s.memberships, actor);
    forall m | Finds(s.memberships, OfMember(actor), Some(m))
      ensures FindMembership(s.memberships, actor) == Some(m)
    {
      FindsOne(s.memberships, OfMember(actor), Some(m), FindMembership(s.memberships, actor));
    }
    forall x | Finds(s.identities, OfIdentity(actor), Some(x))
      ensures FindIdentity(s.identities, actor) == Some(x)
    {
      FindsOne(s.identities, OfIdentity(actor), Some(x), FindIdentity(s.identities, actor));
    }
    if MayAct(t, s, actor, permission) && (resource.Some? ==> CanSee(s, actor, resource.value)) {
      var m := FindMembership(s.memberships, actor).value;
      assert TakesPart(t, s, actor, permission, m);
    }
  }

  /** `authorize` is exactly the policy, on every snapshot. */
  lemma AuthorizeIsPolicy(t: Tables, s: Snapshot, q: Request)
    ensures Authorize(t, s, q) == Allowed <==> Policy(t, s, q.actor, q.permission, q.resource)
  {
    AuthorizeMeans(t, s, q);
    WholeMeans(s);
    PartMeans(t, s, q.actor, q.permission, q.resource);
  }

  // ----- classifications -----

  lemma PlaceDecides(s: Snapshot, actor: Id, permission: Permission, a: Option<Resource>, b: Option<Resource>)
    requires a.Some? && b.Some? && a.value.spaceId == b.value.spaceId
    ensures Granted(s, actor, permission, a) <==> Granted(s, actor, permission, b)
  {
    assert forall x: RoleBinding :: Covers(s, x, a) == Covers(s, x, b);
    assert forall x: RoleBinding :: WalkEnds(s, x, a) == WalkEnds(s, x, b);
  }

  lemma LoweringKeepsPolicy(t: Tables, s: Snapshot, actor: Id, permission: Permission, r: Resource,
                            lower: Classification)
    requires Policy(t, s, actor, permission, Some(r)) && lower in Opens(r.classification)
    ensures Policy(t, s, actor, permission, Some(r.(classification := lower)))
  {
    var moved := r.(classification := lower);
    PlaceDecides(s, actor, permission, Some(r), Some(moved));
    var m :| TakesPart(t, s, actor, permission, m) && Visible(s, actor, m, r);
    assert Visible(s, actor, m, moved);
  }

  /** Whoever may use a resource may use it under any lower classification. */
  lemma LoweringKeepsAuthorization(t: Tables, s: Snapshot, q: Request, r: Resource, lower: Classification)
    requires q.resource == Some(r) && Authorize(t, s, q) == Allowed && lower in Opens(r.classification)
    ensures Authorize(t, s, q.(resource := Some(r.(classification := lower)))) == Allowed
  {
    AuthorizeIsPolicy(t, s, q);
    LoweringKeepsPolicy(t, s, q.actor, q.permission, r, lower);
    AuthorizeIsPolicy(t, s, q.(resource := Some(r.(classification := lower))));
  }

  /** The snapshot with another clearance for the membership at `k`. */
  function WithClearance(s: Snapshot, k: nat, clearance: Classification): Snapshot
    requires k < |s.memberships|
  {
    s.(memberships := s.memberships[k := s.memberships[k].(clearance := clearance)])
  }

  lemma RaisedTakesPart(t: Tables, s: Snapshot, actor: Id, permission: Permission, k: nat, m: Membership,
                        higher: Classification)
    requires k < |s.memberships| && IsFirst(s.memberships, OfMember(actor), k)
    requires TakesPart(t, s, actor, permission, m)
    ensures m == s.memberships[k]
    ensures TakesPart(t, WithClearance(s, k, higher), actor, permission, m.(clearance := higher))
  {
    FindsOne(s.memberships, OfMember(actor), Some(m), Some(s.memberships[k]));
    assert IsFirst(WithClearance(s, k, higher).memberships, OfMember(actor), k);
  }

  lemma RaisedIsWhole(s: Snapshot, k: nat, higher: Classification)
    requires k < |s.memberships| && Whole(s)
    ensures Whole(WithClearance(s, k, higher))
  {
    var s' := WithClearance(s, k, higher);
    forall x | x in s'.memberships
      ensures x.guildId == s.guildId
    {
      var j :| 0 <= j < |s'.memberships| && s'.memberships[j] == x;
      assert s.memberships[j] in s.memberships;
    }
  }

  lemma RaisedIsGranted(s: Snapshot, actor: Id, permission: Permission, resource: Option<Resource>, k: nat,
                        higher: Classification)
    requires k < |s.memberships|
    ensures Granted(WithClearance(s, k, higher), actor, permission, resource) <==>
            Granted(s, actor, permission, resource)
  {
    var s' := WithClearance(s, k, higher);
    assert forall x: RoleBinding :: Covers(s', x, resource) == Covers(s, x, resource);
    assert forall x: RoleBinding :: WalkEnds(s', x, resource) == WalkEnds(s, x, resource);
  }

  lemma RaisedIsVisible(s: Snapshot, actor: Id, m: Membership, r: Resource, k: nat, higher: Classification)
    requires k < |s.memberships| && m.clearance in Opens(higher) && Visible(s, actor, m, r)
    ensures Visible(WithClearance(s, k, higher), actor, m.(clearance := higher), r)
  {
  }

  lemma RaisingKeepsPolicy(t: Tables, s: Snapshot, actor: Id, permission: Permission, resource: Option<Resource>,
                           k: nat, higher: Classification)
    requires k < |s.memberships| && IsFirst(s.memberships, OfMember(actor), k)
    requires Policy(t, s, actor, permission, resource) && s.memberships[k].clearance in Opens(higher)
    ensures Policy(t, WithClearance(s, k, higher), actor, permission, resource)
  {
    RaisedIsWhole(s, k, higher);
    RaisedIsGranted(s, actor, permission, resource, k, higher);
    var m :| TakesPart(t, s, actor, permission, m) && (resource.Some? ==> Visible(s, actor, m, resource.value));
    RaisedTakesPart(t, s, actor, permission, k, m, higher);
    if resource.Some? {
      RaisedIsVisible(s, actor, m, resource.value, k, higher);
    }
  }

  /** A higher clearance never takes an authorization away. */
  lemma RaisingKeepsAuthorization(t: Tables, s: Snapshot, q: Request, k: nat, higher: Classification)
    requires k < |s.memberships| && IsFirst(s.memberships, OfMember(q.actor), k)
    requires Authorize(t, s, q) == Allowed && s.memberships[k].clearance in Opens(higher)
    ensures Authorize(t, WithClearance(s, k, higher), q) == Allowed
  {
    AuthorizeIsPolicy(t, s, q);
    RaisingKeepsPolicy(t, s, q.actor, q.permission, q.resource, k, higher);
    AuthorizeIsPolicy(t, WithClearance(s, k, higher), q);
  }

  /** A member of the given clearance, and a page of the given classification. */
  function ClearedSnapshot(p: Permission, clearance: Classification): Snapshot {
    LoopSnapshot(p).(memberships := [Membership("member", "guild", Active, clearance)])
  }

  function PageRequest(p: Permission, classification: Classification): Request {
    Request("member", p, Some(Resource("page", "guild", None, "owner", GuildWide, classification, [])))
  }

  /** Each clearance opens its own classification and those below, and none above. */
  lemma ClearanceDecides(t: Tables, p: Permission, clearance: Classification, classification: Classification)
    ensures Authorize(t, ClearedSnapshot(p, clearance), PageRequest(p, classification)) == Allowed <==>
            match clearance
            case Public => classification == Public
            case Internal => classification == Public || classification == Internal
            case Confidential => classification != Classification.Restricted
            case Restricted => true
  {
    var s, q := ClearedSnapshot(p, clearance), PageRequest(p, classification);
    assert s.identities[0] in s.identities && s.identities[1] in s.identities && s.roles[0] in s.roles;
    assert s.bindings[0] in s.bindings && Scope(s, s.bindings[0], q.resource) == Inside;
    assert FindIdentity(s.identities, "member") == Some(s.identities[1]);
  }

  // ----- agents -----

  /** The first identity of the id is enabled and of that kind. */
  ghost predicate Enabled(s: Snapshot, id: Id, kind: Kind) {
    exists x :: Finds(s.identities, OfIdentity(id), Some(x)) && x.active && x.kind == kind
  }

  ghost predicate Runs(s: Snapshot, id: Id) {
    Enabled(s, id, Agent) && exists x :: Finds(s.agents, OfAgent(id), Some(x)) && x.active
  }

  lemma RunsMeans(s: Snapshot, id: Id)
    ensures RunningAgent(s, id) <==> Runs(s, id)
    ensures MayRequest(s, id) <==> Runs(s, id) || Enabled(s, id, Human)
  {
    FindIdentityFinds(s.identities, id);
    FindAgentFinds(s.agents, id);
    forall x | Finds(s.identities, OfIdentity(id), Some(x))
      ensures FindIdentity(s.identities, id) == Some(x)
    {
      FindsOne(s.identities, OfIdentity(id), Some(x), FindIdentity(s.identities, id));
    }
    forall x | Finds(s.agents, OfAgent(id), Some(x))
      ensures FindAgent(s.agents, id) == Some(x)
    {
      FindsOne(s.agents, OfAgent(id), Some(x), FindAgent(s.agents, id));
    }
  }

  /** An agent may do what it, its requester, the workflow and the connector all may, while it and its requester run. */
  lemma AgentPolicy(t: Tables, s: Snapshot, q: AgentRequest)
    ensures AuthorizeAgent(t, s, q) == Allowed <==>
            && Runs(s, q.agent) && (Runs(s, q.requester) || Enabled(s, q.requester, Human))
            && Policy(t, s, q.agent, q.permission, q.resource) && Policy(t, s, q.requester, q.permission, q.resource)
            && q.permission in q.workflow && q.permission in q.connector
  {
    RunsMeans(s, q.agent);
    RunsMeans(s, q.requester);
    AuthorizeIsPolicy(t, s, Request(q.agent, q.permission, q.resource));
    AuthorizeIsPolicy(t, s, Request(q.requester, q.permission, q.resource));
  }
}
