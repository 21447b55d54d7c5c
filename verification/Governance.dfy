/** Root ownership and membership: guard functions and the state machine that applies what they allow. */
module Governance {
  import opened Options
  import opened Lookups

  type Id = string

  datatype Kind = Human | Agent | Service | GuildActor
  datatype Lifecycle = Invited | Preboarding | Active | Suspended | Departed

  function Successors(state: Lifecycle): set<Lifecycle> {
    match state
    case Invited => {Preboarding, Active, Departed}
    case Preboarding => {Active, Suspended, Departed}
    case Active => {Suspended, Departed}
    case Suspended => {Active, Departed}
    case Departed => {}
  }

  datatype Identity = Identity(id: Id, kind: Kind, active: bool)
  datatype Membership = Membership(identityId: Id, state: Lifecycle)

  datatype Guild = Guild(rootOwner: Id, identities: seq<Identity>, memberships: seq<Membership>)

  datatype Code = RootOwnerRequired | RootOwnerProtected | IdentityNotFound | InvalidInput | PermissionDenied

  datatype Verdict = Pass | Fail(code: Code)

  function FindIdentity(identities: seq<Identity>, id: Id): (r: Option<Identity>)
    ensures r.Some? ==> r.value.id == id
  {
    if identities == [] then None
    else if identities[0].id == id then Some(identities[0])
    else FindIdentity(identities[1..], id)
  }

  function FindMembership(memberships: seq<Membership>, id: Id): (r: Option<Membership>)
    ensures r.Some? ==> r.value.identityId == id
  {
    if memberships == [] then None
    else if memberships[0].identityId == id then Some(memberships[0])
    else FindMembership(memberships[1..], id)
  }

  // ----- the guards -----

  predicate IsActiveHumanMember(g: Guild, id: Id) {
    var identity, membership := FindIdentity(g.identities, id), FindMembership(g.memberships, id);
    && identity.Some? && identity.value.kind == Human && identity.value.active
    && membership.Some? && membership.value.state == Active
  }

  function OfIdentity(id: Id): Identity -> bool {
    (x: Identity) => x.id == id
  }

  function OfMember(id: Id): Membership -> bool {
    (x: Membership) => x.identityId == id
  }

  lemma {:induction false} FindIdentityFinds(identities: seq<Identity>, id: Id)
    ensures Finds(identities, OfIdentity(id), FindIdentity(identities, id))
  {
    if identities != [] {
      if identities[0].id == id {
        FindsHere(identities, OfIdentity(id));
      } else {
        FindIdentityFinds(identities[1..], id);
        FindsLater(identities, OfIdentity(id), FindIdentity(identities[1..], id));
      }
    }
  }

  lemma {:induction false} FindMembershipFinds(memberships: seq<Membership>, id: Id)
    ensures Finds(memberships, OfMember(id), FindMembership(memberships, id))
  {
    if memberships != [] {
      if memberships[0].identityId == id {
        FindsHere(memberships, OfMember(id));
      } else {
        FindMembershipFinds(memberships[1..], id);
        FindsLater(memberships, OfMember(id), FindMembership(memberships[1..], id));
      }
    }
  }

  /** The first identity of that id is an enabled human, and its first membership is active. */
  ghost predicate IsActiveHuman(g: Guild, id: Id) {
    && (exists x :: Finds(g.identities, OfIdentity(id), Some(x)) && x.kind == Human && x.active)
    && exists m :: Finds(g.memberships, OfMember(id), Some(m)) && m.state == Active
  }

  lemma ActiveHumanMeans(g: Guild, id: Id)
    ensures IsActiveHumanMember(g, id) <==> IsActiveHuman(g, id)
  {
    FindIdentityFinds(g.identities, id);
    FindMembershipFinds(g.memberships, id);
    forall x | Finds(g.identities, OfIdentity(id), Some(x))
      ensures FindIdentity(g.identities, id) == Some(x)
    {
      FindsOne(g.identities, OfIdentity(id), Some(x), FindIdentity(g.identities, id));
    }
    forall m | Finds(g.memberships, OfMember(id), Some(m))
      ensures FindMembership(g.memberships, id) == Some(m)
    {
      FindsOne(g.memberships, OfMember(id), Some(m), FindMembership(g.memberships, id));
    }
  }

  /** The lifecycle table read backwards: what a membership can come from. */
  function CameFrom(state: Lifecycle): set<Lifecycle> {
    match state
    case Invited => {}
    case Preboarding => {Invited}
    case Active => {Invited, Preboarding, Suspended}
    case Suspended => {Preboarding, Active}
    case Departed => {Invited, Preboarding, Active, Suspended}
  }

  lemma TableBothWays(state: Lifecycle, next: Lifecycle)
    ensures next in Successors(state) <==> state in CameFrom(next)
  {
  }

  function RootOwnerIntegrity(g: Guild): Verdict {
    if IsActiveHumanMember(g, g.rootOwner) then Pass else Fail(RootOwnerRequired)
  }

  function MembershipTransition(g: Guild, id: Id, next: Lifecycle): Verdict {
    var membership := FindMembership(g.memberships, id);
    if id == g.rootOwner && next != Active then Fail(RootOwnerProtected)
    else if membership.None? then Fail(IdentityNotFound)
    else if next !in Successors(membership.value.state) then Fail(InvalidInput)
    else Pass
  }

  function IdentityStatusTransition(g: Guild, id: Id, active: bool): Verdict {
    if id == g.rootOwner && !active then Fail(RootOwnerProtected) else Pass
  }

  function RootOwnershipTransfer(g: Guild, actor: Id, next: Id): Verdict {
    if actor != g.rootOwner then Fail(PermissionDenied)
    else if !IsActiveHumanMember(g, next) then Fail(RootOwnerRequired)
    else Pass
  }

  // ----- the state machine -----

  datatype Command =
    | ChangeMembership(id: Id, next: Lifecycle)
    | ChangeStatus(id: Id, active: bool)
    | TransferRoot(actor: Id, nextOwner: Id)

  /** The first membership of `id` moves to `next`. */
  function WithMembership(memberships: seq<Membership>, id: Id, next: Lifecycle): seq<Membership> {
    if memberships == [] then []
    else if memberships[0].identityId == id then [memberships[0].(state := next)] + memberships[1..]
    else [memberships[0]] + WithMembership(memberships[1..], id, next)
  }

  function WithStatus(identities: seq<Identity>, id: Id, active: bool): seq<Identity> {
    if identities == [] then []
    else if identities[0].id == id then [identities[0].(active := active)] + identities[1..]
    else [identities[0]] + WithStatus(identities[1..], id, active)
  }

  function Guard(g: Guild, c: Command): Verdict {
    match c
    case ChangeMembership(id, next) => MembershipTransition(g, id, next)
    case ChangeStatus(id, active) => IdentityStatusTransition(g, id, active)
    case TransferRoot(actor, next) => RootOwnershipTransfer(g, actor, next)
  }

  function Apply(g: Guild, c: Command): Guild {
    match c
    case ChangeMembership(id, next) => g.(memberships := WithMembership(g.memberships, id, next))
    case ChangeStatus(id, active) => g.(identities := WithStatus(g.identities, id, active))
    case TransferRoot(_, next) => g.(rootOwner := next)
  }

  function Step(g: Guild, c: Command): Guild {
    if Guard(g, c) == Pass then Apply(g, c) else g
  }

  lemma {:induction false} FindWithMembership(memberships: seq<Membership>, id: Id, next: Lifecycle, other: Id)
    ensures var before := FindMembership(memberships, other);
            FindMembership(WithMembership(memberships, id, next), other) ==
            if other == id && before.Some? then Some(before.value.(state := next)) else before
  {
    if memberships != [] && memberships[0].identityId != id {
      FindWithMembership(memberships[1..], id, next, other);
    }
  }

  lemma {:induction false} FindWithStatus(identities: seq<Identity>, id: Id, active: bool, other: Id)
    ensures var before := FindIdentity(identities, other);
            FindIdentity(WithStatus(identities, id, active), other) ==
            if other == id && before.Some? then Some(before.value.(active := active)) else before
  {
    if identities != [] && identities[0].id != id {
      FindWithStatus(identities[1..], id, active, other);
    }
  }

  /** What a change must respect besides root ownership: the lifecycle table, and who may transfer. */
  predicate Orderly(g: Guild, c: Command) {
    match c
    case ChangeMembership(id, next) =>
      var membership := FindMembership(g.memberships, id);
      membership.Some? && next in Successors(membership.value.state)
    case ChangeStatus(_, _) => true
    case TransferRoot(actor, _) => actor == g.rootOwner
  }

  /**
   The guards are exact: starting from root-owner integrity, a change is let through if and only
   if it is orderly and leaves the Guild with an active human Root Owner.
   */
  lemma GuardIsExact(g: Guild, c: Command)
    requires RootOwnerIntegrity(g) == Pass
    ensures Guard(g, c) == Pass <==> Orderly(g, c) && RootOwnerIntegrity(Apply(g, c)) == Pass
  {
    match c
    case ChangeMembership(id, next) => FindWithMembership(g.memberships, id, next, g.rootOwner);
    case ChangeStatus(id, active) => FindWithStatus(g.identities, id, active, g.rootOwner);
    case TransferRoot(_, _) =>
  }

  /** What the three guards let through, and what it leaves, record by record. */
  ghost predicate MayPass(g: Guild, c: Command) {
    match c
    case ChangeMembership(id, next) =>
      && (id == g.rootOwner ==> next == Active)
      && exists m :: Finds(g.memberships, OfMember(id), Some(m)) && m.state in CameFrom(next)
    case ChangeStatus(id, active) => id == g.rootOwner ==> active
    case TransferRoot(actor, next) => actor == g.rootOwner && IsActiveHuman(g, next)
  }

  lemma GuardMeans(g: Guild, c: Command)
    ensures Guard(g, c) == Pass <==> MayPass(g, c)
    ensures c.TransferRoot? && Guard(g, c) == Pass ==> Step(g, c) == g.(rootOwner := c.nextOwner)
    ensures Guard(g, c) != Pass ==> Step(g, c) == g
  {
    match c
    case ChangeMembership(id, next) =>
      FindMembershipFinds(g.memberships, id);
      forall m | Finds(g.memberships, OfMember(id), Some(m))
        ensures FindMembership(g.memberships, id) == Some(m)
      {
        FindsOne(g.memberships, OfMember(id), Some(m), FindMembership(g.memberships, id));
        TableBothWays(m.state, next);
      }
    case ChangeStatus(_, _) =>
    case TransferRoot(_, next) =>
      ActiveHumanMeans(g, next);
  }

  /** A change of the root owner's own standing is refused as such, an unknown member as not found. */
  lemma RefusalMeans(g: Guild, c: Command)
    requires Guard(g, c) != Pass
    ensures Guard(g, c) == Fail(
              match c
              case ChangeMembership(id, next) =>
                if id == g.rootOwner && next != Active then RootOwnerProtected
                else if forall m :: m in g.memberships ==> m.identityId != id then IdentityNotFound
                else InvalidInput
              case ChangeStatus(_, _) => RootOwnerProtected
              case TransferRoot(actor, _) => if actor != g.rootOwner then PermissionDenied else RootOwnerRequired)
  {
    if c.ChangeMembership? {
      FindMembershipFinds(g.memberships, c.id);
      assert forall m :: OfMember(c.id)(m) <==> m.identityId == c.id;
    }
  }

  /** Of the memberships only the first of that identity changes, and only its state. */
  lemma MembershipAt(g: Guild, c: Command, k: nat)
    requires c.ChangeMembership? && Guard(g, c) == Pass
    requires k < |g.memberships| && IsFirst(g.memberships, OfMember(c.id), k)
    ensures Step(g, c) == g.(memberships := g.memberships[k := g.memberships[k].(state := c.next)])
  {
    WithMembershipAt(g.memberships, c.id, c.next, k);
  }

  lemma {:induction false} WithMembershipAt(memberships: seq<Membership>, id: Id, next: Lifecycle, k: nat)
    requires k < |memberships| && IsFirst(memberships, OfMember(id), k)
    ensures WithMembership(memberships, id, next) == memberships[k := memberships[k].(state := next)]
  {
    if k > 0 {
      assert !OfMember(id)(memberships[0]);
      WithMembershipAt(memberships[1..], id, next, k - 1);
    }
  }

  /** Of the identities only the first of that id changes, and only its status. */
  lemma IdentityAt(g: Guild, c: Command, k: nat)
    requires c.ChangeStatus? && Guard(g, c) == Pass
    requires k < |g.identities| && IsFirst(g.identities, OfIdentity(c.id), k)
    ensures Step(g, c) == g.(identities := g.identities[k := g.identities[k].(active := c.active)])
  {
    WithStatusAt(g.identities, c.id, c.active, k);
  }

  lemma {:induction false} WithStatusAt(identities: seq<Identity>, id: Id, active: bool, k: nat)
    requires k < |identities| && IsFirst(identities, OfIdentity(id), k)
    ensures WithStatus(identities, id, active) == identities[k := identities[k].(active := active)]
  {
    if k > 0 {
      assert !OfIdentity(id)(identities[0]);
      WithStatusAt(identities[1..], id, active, k - 1);
    }
  }

  ghost predicate IsRun(guilds: seq<Guild>, commands: seq<Command>) {
    && |guilds| == |commands| + 1
    && RootOwnerIntegrity(guilds[0]) == Pass
    && forall i :: 0 <= i < |commands| ==> guilds[i + 1] == Step(guilds[i], commands[i])
  }

  /** Every run of guarded changes keeps the Root Owner an active human with an active membership. */
  lemma {:induction false} RootOwnerStays(guilds: seq<Guild>, commands: seq<Command>, n: nat)
    requires IsRun(guilds, commands) && n < |guilds|
    ensures RootOwnerIntegrity(guilds[n]) == Pass && IsActiveHuman(guilds[n], guilds[n].rootOwner)
  {
    if n > 0 {
      RootOwnerStays(guilds, commands, n - 1);
      GuardIsExact(guilds[n - 1], commands[n - 1]);
    }
    ActiveHumanMeans(guilds[n], guilds[n].rootOwner);
  }

  lemma StepMovesMembership(g: Guild, c: Command, id: Id)
    requires FindMembership(g.memberships, id).Some?
    ensures var before := FindMembership(g.memberships, id).value.state;
            var after := FindMembership(Step(g, c).memberships, id);
            after.Some? && (after.value.state == before || after.value.state in Successors(before))
  {
    if c.ChangeMembership? {
      FindWithMembership(g.memberships, c.id, c.next, id);
    }
  }

  /** Departure is final, and nobody becomes merely invited again. */
  lemma {:induction false} DepartedStayDeparted(guilds: seq<Guild>, commands: seq<Command>, i: nat, j: nat, id: Id)
    requires IsRun(guilds, commands) && i <= j < |guilds| && FindMembership(guilds[i].memberships, id).Some?
    ensures var before := FindMembership(guilds[i].memberships, id).value.state;
            var after := FindMembership(guilds[j].memberships, id);
            && after.Some?
            && (before == Departed ==> after.value.state == Departed)
            && (before != Invited ==> after.value.state != Invited)
    decreases j
  {
    if i < j {
      DepartedStayDeparted(guilds, commands, i, j - 1, id);
      StepMovesMembership(guilds[j - 1], commands[j - 1], id);
    }
  }

  /** Root ownership changes hands only by the hand of its holder. */
  lemma {:induction false} OnlyTheOwnerTransfers(guilds: seq<Guild>, commands: seq<Command>, n: nat)
    requires IsRun(guilds, commands) && n < |guilds|
    requires guilds[n].rootOwner != guilds[0].rootOwner
    ensures exists i :: 0 <= i < n && commands[i].TransferRoot? && commands[i].actor == guilds[0].rootOwner
  {
    if guilds[n - 1].rootOwner != guilds[0].rootOwner {
      OnlyTheOwnerTransfers(guilds, commands, n - 1);
    } else {
      assert commands[n - 1].TransferRoot?;
    }
  }
}
