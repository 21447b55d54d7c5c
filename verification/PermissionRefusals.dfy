/** Which error a refused authorization raises: that of the first check that fails, in a fixed order. */
module PermissionRefusals {
  import opened Options
  import opened Lookups
  import opened Permissions
  import opened PermissionLaws

  datatype Check = OfOneGuild | OwnerExists | BindingsResolve | ActorExists | ActorEnabled | ActorIsMember
                 | KindSuffices | OfThisGuild | NotPrivate | NotRestricted | Cleared | NoEndlessWalk | Permitted

  const ORDER: seq<Check> := [OfOneGuild, OwnerExists, BindingsResolve, ActorExists, ActorEnabled, ActorIsMember,
                              KindSuffices, OfThisGuild, NotPrivate, NotRestricted, Cleared, NoEndlessWalk, Permitted]

  function CodeOf(check: Check): Code {
    match check
    case OfOneGuild => InvalidInput
    case OwnerExists => RootOwnerRequired
    case BindingsResolve => InvalidInput
    case ActorExists => IdentityNotFound
    case ActorEnabled => IdentityDisabled
    case ActorIsMember => MembershipInactive
    case KindSuffices => PermissionDenied
    case OfThisGuild => ResourceOutsideGuild
    case NotPrivate => PrivateResource
    case NotRestricted => PermissionDenied
    case Cleared => ClassificationDenied
    case NoEndlessWalk => InvalidInput
    case Permitted => PermissionDenied
  }

  /** `x` is the identity that the request is about. */
  ghost predicate IsActor(s: Snapshot, q: Request, x: Identity) {
    Finds(s.identities, OfIdentity(q.actor), Some(x))
  }

  ghost predicate IsMember(s: Snapshot, q: Request, m: Membership) {
    Finds(s.memberships, OfMember(q.actor), Some(m))
  }

  ghost predicate Shared(q: Request, r: Resource) {
    r.ownerId == q.actor || q.actor in r.allowed
  }

  ghost predicate Passes(t: Tables, s: Snapshot, q: Request, check: Check) {
    match check
    case OfOneGuild =>
      && (forall x :: x in s.spaces ==> x.guildId == s.guildId)
      && (forall x :: x in s.identities ==> x.guildId == s.guildId)
      && (forall x :: x in s.memberships ==> x.guildId == s.guildId)
      && (forall x :: x in s.roles ==> x.guildId == s.guildId)
      && (forall x :: x in s.bindings ==> x.guildId == s.guildId)
      && (forall x :: x in s.agents ==> x.guildId == s.guildId)
    case OwnerExists => exists x :: x in s.identities && x.id == s.rootOwner
    case BindingsResolve => forall b :: b in s.bindings ==>
      && (exists x :: x in s.identities && x.id == b.identityId)
      && (exists x :: x in s.roles && x.id == b.roleId)
      && (b.spaceId.Some? ==> exists x :: x in s.spaces && x.id == b.spaceId.value)
    case ActorExists => exists x :: x in s.identities && x.id == q.actor
    case ActorEnabled => exists x :: IsActor(s, q, x) && x.active
    case ActorIsMember => exists m :: IsMember(s, q, m) && m.state in {Preboarding, Active}
    case KindSuffices => exists x :: IsActor(s, q, x) && (x.kind == Human || q.permission !in t.humanOnly)
    case OfThisGuild => q.resource.Some? ==> q.resource.value.guildId == s.guildId
    case NotPrivate => q.resource.Some? && q.resource.value.visibility == Private ==> Shared(q, q.resource.value)
    case NotRestricted =>
      q.resource.Some? && q.resource.value.visibility == Visibility.Restricted ==> Shared(q, q.resource.value)
    case Cleared =>
      q.resource.Some? ==> exists m :: IsMember(s, q, m) && q.resource.value.classification in Opens(m.clearance)
    case NoEndlessWalk => q.actor == s.rootOwner || WalksEnd(s, q.actor, q.resource)
    case Permitted =>
      && (q.actor == s.rootOwner || Granted(s, q.actor, q.permission, q.resource))
      && exists m :: IsMember(s, q, m) && (m.state == Preboarding ==> q.permission in t.preboarding)
  }

  /** The `k`th check fails, and every one before it passes. */
  ghost predicate FailsFirst(t: Tables, s: Snapshot, q: Request, k: nat) {
    k < |ORDER| && !Passes(t, s, q, ORDER[k]) && forall j :: 0 <= j < k ==> Passes(t, s, q, ORDER[j])
  }

  lemma ActorFound(s: Snapshot, q: Request, x: Identity)
    ensures IsActor(s, q, x) <==> FindIdentity(s.identities, q.actor) == Some(x)
  {
    FindIdentityFinds(s.identities, q.actor);
    if IsActor(s, q, x) {
      FindsOne(s.identities, OfIdentity(q.actor), Some(x), FindIdentity(s.identities, q.actor));
    }
  }

  lemma MemberFound(s: Snapshot, q: Request, m: Membership)
    ensures IsMember(s, q, m) <==> FindMembership(s.memberships, q.actor) == Some(m)
  {
    FindMembershipFinds(s.memberships, q.actor);
    if IsMember(s, q, m) {
      FindsOne(s.memberships, OfMember(q.actor), Some(m), FindMembership(s.memberships, q.actor));
    }
  }

  lemma ActorExistsIff(s: Snapshot, q: Request)
    ensures (exists x :: x in s.identities && x.id == q.actor) <==> FindIdentity(s.identities, q.actor).Some?
  {
    FindIdentityFinds(s.identities, q.actor);
    if x :| x in s.identities && x.id == q.actor {
      assert OfIdentity(q.actor)(x);
    }
  }

  /** The checks on the snapshot come first. */
  lemma IntegrityChecks(t: Tables, s: Snapshot, q: Request)
    ensures OneGuild(s) <==> Passes(t, s, q, OfOneGuild)
    ensures HasRootOwner(s) <==> Passes(t, s, q, OwnerExists)
    ensures (forall b :: b in s.bindings ==> Resolves(s, b)) <==> Passes(t, s, q, BindingsResolve)
  {
  }

  lemma ActorChecks(t: Tables, s: Snapshot, q: Request)
    ensures var x, m := FindIdentity(s.identities, q.actor), FindMembership(s.memberships, q.actor);
            && (x.Some? <==> Passes(t, s, q, ActorExists))
            && (x.Some? && x.value.active <==> Passes(t, s, q, ActorEnabled))
            && (Live(m) <==> Passes(t, s, q, ActorIsMember))
            && (x.Some? && (x.value.kind == Human || q.permission !in t.humanOnly) <==> Passes(t, s, q, KindSuffices))
  {
    ActorExistsIff(s, q);
    forall x {
      ActorFound(s, q, x);
    }
    forall m {
      MemberFound(s, q, m);
    }
  }

  lemma ResourceChecks(t: Tables, s: Snapshot, q: Request, m: Membership)
    requires FindMembership(s.memberships, q.actor) == Some(m)
    ensures Passes(t, s, q, Cleared) <==>
            (q.resource.Some? ==> Rank(q.resource.value.classification) <= Rank(m.clearance))
    ensures Passes(t, s, q, Permitted) <==>
            && (q.actor == s.rootOwner || Granted(s, q.actor, q.permission, q.resource))
            && (m.state == Preboarding ==> q.permission in t.preboarding)
  {
    forall x {
      MemberFound(s, q, x);
    }
    if q.resource.Some? {
      RanksMean(m.clearance, q.resource.value.classification);
    }
  }

  lemma VisibilityChecks(t: Tables, s: Snapshot, q: Request, m: Membership)
    requires FindMembership(s.memberships, q.actor) == Some(m) && Live(Some(m)) && q.resource.Some?
    ensures VisibilityVerdict(s, q.actor, q.resource.value) ==
            if !Passes(t, s, q, OfThisGuild) then Refused(ResourceOutsideGuild)
            else if !Passes(t, s, q, NotPrivate) then Refused(PrivateResource)
            else if !Passes(t, s, q, NotRestricted) then Refused(PermissionDenied)
            else if !Passes(t, s, q, Cleared) then Refused(ClassificationDenied)
            else Allowed
  {
    ResourceChecks(t, s, q, m);
  }

  lemma RoleChecks(t: Tables, s: Snapshot, q: Request)
    requires q.actor != s.rootOwner
    ensures var held := HasRolePermission(s, q.actor, q.permission, q.resource);
            && (held.Some? <==> WalksEnd(s, q.actor, q.resource))
            && (held == Some(true) <==> Granted(s, q.actor, q.permission, q.resource))
  {
    forall b {
      ScopeMeans(s, b, q.resource);
    }
  }

  /** The verdict of the checks from `k` on. */
  ghost function VerdictFrom(t: Tables, s: Snapshot, q: Request, k: nat): Verdict
    requires k <= |ORDER|
    decreases |ORDER| - k
  {
    if k == |ORDER| then Allowed
    else if Passes(t, s, q, ORDER[k]) then VerdictFrom(t, s, q, k + 1)
    else Refused(CodeOf(ORDER[k]))
  }

  lemma PassedFrom(t: Tables, s: Snapshot, q: Request, k: nat)
    requires k < |ORDER|
    ensures Passes(t, s, q, ORDER[k]) ==> VerdictFrom(t, s, q, k) == VerdictFrom(t, s, q, k + 1)
    ensures !Passes(t, s, q, ORDER[k]) ==> VerdictFrom(t, s, q, k) == Refused(CodeOf(ORDER[k]))
  {
  }

  lemma RolesByChecks(t: Tables, s: Snapshot, q: Request, m: Membership)
    requires FindMembership(s.memberships, q.actor) == Some(m)
    ensures VerdictFrom(t, s, q, 11) ==
            var held := if q.actor == s.rootOwner then Some(true)
                        else HasRolePermission(s, q.actor, q.permission, q.resource);
            if held.None? then Refused(InvalidInput)
            else if !held.value || (m.state == Preboarding && q.permission !in t.preboarding) then
              Refused(PermissionDenied)
            else Allowed
  {
    PassedFrom(t, s, q, 11);
    PassedFrom(t, s, q, 12);
    ResourceChecks(t, s, q, m);
    if q.actor != s.rootOwner {
      RoleChecks(t, s, q);
    }
  }

  lemma ResourceByChecks(t: Tables, s: Snapshot, q: Request, m: Membership)
    requires FindMembership(s.memberships, q.actor) == Some(m) && Live(Some(m))
    ensures VerdictFrom(t, s, q, 7) ==
            if q.resource.Some? && VisibilityVerdict(s, q.actor, q.resource.value) != Allowed
            then VisibilityVerdict(s, q.actor, q.resource.value)
            else VerdictFrom(t, s, q, 11)
  {
    PassedFrom(t, s, q, 7);
    PassedFrom(t, s, q, 8);
    PassedFrom(t, s, q, 9);
    PassedFrom(t, s, q, 10);
    if q.resource.Some? {
      VisibilityChecks(t, s, q, m);
    }
  }

  lemma ActorByChecks(t: Tables, s: Snapshot, q: Request)
    ensures var x, m := FindIdentity(s.identities, q.actor), FindMembership(s.memberships, q.actor);
            VerdictFrom(t, s, q, 3) ==
              if x.None? then Refused(IdentityNotFound)
              else if !x.value.active then Refused(IdentityDisabled)
              else if !Live(m) then Refused(MembershipInactive)
              else if x.value.kind != Human && q.permission in t.humanOnly then Refused(PermissionDenied)
              else VerdictFrom(t, s, q, 7)
  {
    PassedFrom(t, s, q, 3);
    PassedFrom(t, s, q, 4);
    PassedFrom(t, s, q, 5);
    PassedFrom(t, s, q, 6);
    ActorChecks(t, s, q);
  }

  lemma SnapshotByChecks(t: Tables, s: Snapshot, q: Request)
    ensures VerdictFrom(t, s, q, 0) ==
            if !Integrity(s) then Refused(if OneGuild(s) && !HasRootOwner(s) then RootOwnerRequired else InvalidInput)
            else VerdictFrom(t, s, q, 3)
  {
    PassedFrom(t, s, q, 0);
    PassedFrom(t, s, q, 1);
    PassedFrom(t, s, q, 2);
    IntegrityChecks(t, s, q);
  }

  lemma AuthorizeByChecks(t: Tables, s: Snapshot, q: Request)
    ensures Authorize(t, s, q) == VerdictFrom(t, s, q, 0)
  {
    SnapshotByChecks(t, s, q);
    ActorByChecks(t, s, q);
    var m := FindMembership(s.memberships, q.actor);
    if Live(m) {
      ResourceByChecks(t, s, q, m.value);
      RolesByChecks(t, s, q, m.value);
    }
  }

  lemma {:induction false} VerdictSkips(t: Tables, s: Snapshot, q: Request, k: nat)
    requires k <= |ORDER| && forall j :: 0 <= j < k ==> Passes(t, s, q, ORDER[j])
    ensures VerdictFrom(t, s, q, 0) == VerdictFrom(t, s, q, k)
  {
    if k > 0 {
      VerdictSkips(t, s, q, k - 1);
      PassedFrom(t, s, q, k - 1);
    }
  }

  /** The error of a refused authorization is that of the first failing check, on every snapshot. */
  lemma FirstFailureIsNamed(t: Tables, s: Snapshot, q: Request, k: nat)
    requires FailsFirst(t, s, q, k)
    ensures Authorize(t, s, q) == Refused(CodeOf(ORDER[k]))
  {
    AuthorizeByChecks(t, s, q);
    VerdictSkips(t, s, q, k);
    PassedFrom(t, s, q, k);
  }

  /** With no failing check there is no error. */
  lemma AllowedIffAllPass(t: Tables, s: Snapshot, q: Request)
    ensures Authorize(t, s, q) == Allowed <==> forall check :: Passes(t, s, q, check)
  {
    if check :| !Passes(t, s, q, check) {
      var k := FirstFailing(t, s, q, check);
      FirstFailureIsNamed(t, s, q, k);
    } else {
      AuthorizeByChecks(t, s, q);
      VerdictSkips(t, s, q, |ORDER|);
    }
  }

  lemma Listed(check: Check) returns (k: nat)
    ensures k < |ORDER| && ORDER[k] == check
  {
    k := match check
      case OfOneGuild => 0 case OwnerExists => 1 case BindingsResolve => 2 case ActorExists => 3
      case ActorEnabled => 4 case ActorIsMember => 5 case KindSuffices => 6 case OfThisGuild => 7
      case NotPrivate => 8 case NotRestricted => 9 case Cleared => 10 case NoEndlessWalk => 11 case Permitted => 12;
  }

  lemma FirstFailing(t: Tables, s: Snapshot, q: Request, check: Check) returns (k: nat)
    requires !Passes(t, s, q, check)
    ensures FailsFirst(t, s, q, k)
  {
    var last := Listed(check);
    k := 0;
    while k < last && Passes(t, s, q, ORDER[k])
      invariant k <= last && forall j :: 0 <= j < k ==> Passes(t, s, q, ORDER[j])
    {
      k := k + 1;
    }
  }

  // ----- agents -----

  ghost predicate Exists(s: Snapshot, id: Id) {
    exists x :: x in s.identities && x.id == id
  }

  /** The first identity of the id is enabled. */
  ghost predicate Acts(s: Snapshot, id: Id) {
    exists x :: Finds(s.identities, OfIdentity(id), Some(x)) && x.active
  }

  lemma ActsMeans(s: Snapshot, id: Id)
    ensures var x, profile := FindIdentity(s.identities, id), FindAgent(s.agents, id);
            && (x.Some? <==> Exists(s, id))
            && (x.Some? && x.value.active <==> Acts(s, id))
            && (forall kind :: x.Some? && x.value.active && x.value.kind == kind <==> Enabled(s, id, kind))
            && (x.Some? && x.value.active && x.value.kind == Agent && profile.Some? && profile.value.active <==>
                Runs(s, id))
  {
    var q := Request(id, "", None);
    ActorExistsIff(s, q);
    RunsMeans(s, id);
    forall x {
      ActorFound(s, q, x);
    }
  }

  /** The agent is judged before its requester, both before the permission, and the two grants last. */
  lemma AgentRefusals(t: Tables, s: Snapshot, q: AgentRequest)
    ensures var own := Authorize(t, s, Request(q.agent, q.permission, q.resource));
            var asked := Authorize(t, s, Request(q.requester, q.permission, q.resource));
            AuthorizeAgent(t, s, q) ==
              if !Exists(s, q.agent) then Refused(IdentityNotFound)
              else if !Acts(s, q.agent) then Refused(IdentityDisabled)
              else if !Enabled(s, q.agent, Agent) then Refused(InvalidInput)
              else if !Runs(s, q.agent) then Refused(AgentStopped)
              else if !Exists(s, q.requester) then Refused(IdentityNotFound)
              else if !Acts(s, q.requester) then Refused(IdentityDisabled)
              else if Enabled(s, q.requester, Agent) && !Runs(s, q.requester) then Refused(AgentStopped)
              else if !Enabled(s, q.requester, Agent) && !Enabled(s, q.requester, Human) then Refused(PermissionDenied)
              else if own.Refused? then own
              else if asked.Refused? then asked
              else if q.permission in q.workflow && q.permission in q.connector then Allowed
              else Refused(PermissionDenied)
  {
    ActsMeans(s, q.agent);
    ActsMeans(s, q.requester);
  }
}
