/** Intent plans: a list of actions carried out one explicit act at a time. */
module Intents {
  import opened Options
  import Lookups

  type Id = string

  datatype ActionStatus = Pending | Processing | Staged | Succeeded | Failed | Cancelled

  datatype Evidence = Created | ApprovalSeen | RunFinished

  /** `agentRun` marks the actions of kind agent.run, which wait for a durable human approval. */
  datatype Action = Action(position: int, agentRun: bool, status: ActionStatus, attempts: nat,
                           evidence: Option<Evidence>)

  datatype PlanStatus = Ready | Executing | PlanCompleted | PlanExpired | PlanFailed

  datatype Plan = Plan(id: Id, actions: seq<Action>, status: PlanStatus, canAct: bool, nextPosition: Option<int>,
                       expiresAt: int, version: nat)

  datatype Outcome = Expired | Completed | Failure | AgentWaiting | AgentStaged | ActionSucceeded | Busy

  datatype Reply = Reply(outcome: Outcome, position: Option<int>, plan: Plan)

  // ----- one act -----

  /** The index of the first action with one of the statuses, or the length of the list. */
  function First(actions: seq<Action>, statuses: set<ActionStatus>): (i: nat)
    ensures i <= |actions|
    ensures i < |actions| ==> actions[i].status in statuses
    ensures forall j :: 0 <= j < i ==> actions[j].status !in statuses
  {
    if actions == [] || actions[0].status in statuses then 0 else 1 + First(actions[1..], statuses)
  }

  function PositionOf(actions: seq<Action>, statuses: set<ActionStatus>): Option<int> {
    var i := First(actions, statuses);
    if i < |actions| then Some(actions[i].position) else None
  }

  /** Array.prototype.map over the actions at one position. */
  function UpdateAt(actions: seq<Action>, position: int, update: Action -> Action): seq<Action> {
    seq(|actions|, i requires 0 <= i < |actions| =>
      if actions[i].position == position then update(actions[i]) else actions[i])
  }

  function Approved(a: Action): Action {
    a.(evidence := Some(ApprovalSeen))
  }

  function Finished(a: Action): Action {
    a.(status := Succeeded, evidence := Some(RunFinished))
  }

  function StagedRun(a: Action): Action {
    a.(status := Staged, attempts := a.attempts + 1, evidence := None)
  }

  function Carried(a: Action): Action {
    a.(status := Succeeded, attempts := a.attempts + 1, evidence := Some(Created))
  }

  predicate AllSucceeded(actions: seq<Action>) {
    forall i :: 0 <= i < |actions| ==> actions[i].status == Succeeded
  }

  function CancelOpen(actions: seq<Action>): seq<Action> {
    seq(|actions|, i requires 0 <= i < |actions| =>
      if actions[i].status in {Pending, Processing, Staged} then actions[i].(status := Cancelled) else actions[i])
  }

  /** `actIntent` on the plan it found, at time `now`. */
  function Act(p: Plan, now: int): Reply {
    if p.expiresAt <= now && p.canAct then
      Reply(Expired, None, p.(status := PlanExpired, canAct := false, actions := CancelOpen(p.actions),
                              version := p.version + 1))
    else if !p.canAct then
      Reply(if p.status == PlanCompleted then Completed else if p.status == PlanExpired then Expired else Failure,
            None, p)
    else
      var staged := First(p.actions, {Staged});
      if staged < |p.actions| then ActStaged(p, p.actions[staged]) else
      var next := First(p.actions, {Pending});
      if next < |p.actions| then ActPending(p, p.actions[next]) else
      Reply(Busy, None, p)
  }

  function ActStaged(p: Plan, staged: Action): Reply {
    if staged.evidence.None? then
      Reply(AgentWaiting, Some(staged.position),
            p.(actions := UpdateAt(p.actions, staged.position, Approved), version := p.version + 1))
    else
      var actions := UpdateAt(p.actions, staged.position, Finished);
      var done := AllSucceeded(actions);
      Reply(if done then Completed else ActionSucceeded, Some(staged.position),
            p.(actions := actions, status := if done then PlanCompleted else Executing,
               nextPosition := PositionOf(actions, {Pending}), canAct := !done, version := p.version + 1))
  }

  function ActPending(p: Plan, next: Action): Reply {
    var actions := UpdateAt(p.actions, next.position, if next.agentRun then StagedRun else Carried);
    var done := AllSucceeded(actions);
    Reply(if next.agentRun then AgentStaged else if done then Completed else ActionSucceeded, Some(next.position),
          p.(actions := actions, status := if done then PlanCompleted else Executing,
             nextPosition := PositionOf(actions, {Pending, Staged}), canAct := !done, version := p.version + 1))
  }

  // ----- the shape of a plan under execution -----

  predicate DistinctPositions(actions: seq<Action>) {
    forall i, j :: 0 <= i < j < |actions| ==> actions[i].position != actions[j].position
  }

  /** How an action looks before, while and after its turn. */
  predicate Untouched(a: Action) {
    a.status == Pending && a.attempts == 0 && a.evidence == None
  }

  predicate InTurn(a: Action) {
    Untouched(a) ||
    (a.agentRun && a.status == Staged && a.attempts == 1 && a.evidence in {None, Some(ApprovalSeen)})
  }

  predicate Done(a: Action) {
    a.status == Succeeded && a.attempts == 1
  }

  /** The first `k` actions are done, the next one is in turn, the rest untouched. */
  predicate InOrder(actions: seq<Action>, k: nat) {
    && k <= |actions|
    && DistinctPositions(actions)
    && (forall i :: 0 <= i < k ==> Done(actions[i]))
    && (k < |actions| ==> InTurn(actions[k]))
    && (forall i :: k < i < |actions| ==> Untouched(actions[i]))
  }

  predicate ShapedAt(p: Plan, k: nat) {
    && InOrder(p.actions, k)
    && p.canAct == (k < |p.actions|)
    && (p.status == PlanCompleted <==> k == |p.actions|)
    && (p.status == Ready || p.status == Executing || p.status == PlanCompleted)
    && p.nextPosition == if k < |p.actions| then Some(p.actions[k].position) else None
  }

  predicate Fresh(p: Plan) {
    p.actions != [] && ShapedAt(p, 0) && Untouched(p.actions[0])
  }

  /** The acts an action still needs. */
  function Weight(a: Action): nat {
    match a.status
    case Pending => if a.agentRun then 3 else 1
    case Staged => if a.evidence.None? then 2 else 1
    case _ => 0
  }

  function Rank(actions: seq<Action>): nat {
    if actions == [] then 0 else Weight(actions[0]) + Rank(actions[1..])
  }

  lemma {:induction false} RankUpdate(actions: seq<Action>, k: nat, a: Action)
    requires k < |actions|
    ensures Rank(actions[k := a]) == Rank(actions) - Weight(actions[k]) + Weight(a)
  {
    if k == 0 {
      assert actions[0 := a][1..] == actions[1..];
    } else {
      RankUpdate(actions[1..], k - 1, a);
      assert actions[k := a][1..] == actions[1..][k - 1 := a];
    }
  }

  lemma {:induction false} RankZeroIff(p: Plan, k: nat)
    requires ShapedAt(p, k)
    ensures Rank(p.actions) == 0 <==> k == |p.actions|
  {
    if k < |p.actions| {
      RankAtLeast(p.actions, k);
    } else {
      RankOfDone(p.actions);
    }
  }

  lemma {:induction false} RankAtLeast(actions: seq<Action>, k: nat)
    requires k < |actions|
    ensures Rank(actions) >= Weight(actions[k])
  {
    if k > 0 {
      RankAtLeast(actions[1..], k - 1);
    }
  }

  lemma {:induction false} RankOfDone(actions: seq<Action>)
    requires forall i :: 0 <= i < |actions| ==> Done(actions[i])
    ensures Rank(actions) == 0
  {
    if actions != [] {
      RankOfDone(actions[1..]);
    }
  }

  /** What an act makes of the action in turn. */
  function Turned(a: Action): Action {
    if a.status == Staged then (if a.evidence.None? then Approved(a) else Finished(a))
    else if a.agentRun then StagedRun(a) else Carried(a)
  }

  lemma ActTurns(p: Plan, now: int, k: nat)
    requires ShapedAt(p, k) && k < |p.actions| && now < p.expiresAt
    ensures var next := Act(p, now).plan;
            next.actions == p.actions[k := Turned(p.actions[k])]
    ensures Act(p, now).outcome != Busy && Act(p, now).position == Some(p.actions[k].position)
  {
  }

  /** Where the turn is after the act: one further when the action succeeded. */
  function TurnAfter(p: Plan, k: nat): nat
    requires k < |p.actions|
  {
    if Turned(p.actions[k]).status == Succeeded then k + 1 else k
  }

  lemma ActKeepsOrder(p: Plan, now: int, k: nat)
    requires ShapedAt(p, k) && k < |p.actions| && now < p.expiresAt
    ensures InOrder(Act(p, now).plan.actions, TurnAfter(p, k))
  {
    ActTurns(p, now, k);
    var actions := Act(p, now).plan.actions;
    assert forall i :: 0 <= i < |actions| ==> actions[i].position == p.actions[i].position;
  }

  lemma OrderDecides(actions: seq<Action>, k: nat)
    requires InOrder(actions, k)
    ensures AllSucceeded(actions) <==> k == |actions|
    ensures First(actions, {Pending, Staged}) == k
    ensures k < |actions| && actions[k].status == Pending ==> First(actions, {Pending}) == k
  {
  }

  /** An act keeps the shape and moves the turn on exactly when the action in turn succeeded. */
  lemma ActKeepsShape(p: Plan, now: int, k: nat)
    requires ShapedAt(p, k) && k < |p.actions| && now < p.expiresAt
    ensures ShapedAt(Act(p, now).plan, TurnAfter(p, k))
    ensures Act(p, now).outcome == Completed <==> Act(p, now).plan.status == PlanCompleted
  {
    ActTurns(p, now, k);
    ActKeepsOrder(p, now, k);
    var a, r := p.actions[k], Act(p, now);
    assert r == if a.status == Staged then ActStaged(p, a) else ActPending(p, a);
    TurnKeepsShape(p, r, k);
  }

  lemma TurnKeepsShape(p: Plan, r: Reply, k: nat)
    requires ShapedAt(p, k) && k < |p.actions|
    requires r == if p.actions[k].status == Staged then ActStaged(p, p.actions[k]) else ActPending(p, p.actions[k])
    requires r.plan.actions == p.actions[k := Turned(p.actions[k])] && InOrder(r.plan.actions, TurnAfter(p, k))
    ensures ShapedAt(r.plan, TurnAfter(p, k))
    ensures r.outcome == Completed <==> r.plan.status == PlanCompleted
  {
    var actions, k' := r.plan.actions, TurnAfter(p, k);
    OrderDecides(actions, k');
    if k' == k + 1 < |actions| {
      assert actions[k'] == p.actions[k'];
    }
  }

  /**
   Before expiry every act on an unfinished plan brings it exactly one act nearer to completion,
   never reports "busy", counts the version up by one and leaves succeeded actions alone.
   */
  lemma ActLowersRank(p: Plan, now: int, k: nat)
    requires ShapedAt(p, k) && k < |p.actions| && now < p.expiresAt
    ensures var r := Act(p, now);
            && Rank(r.plan.actions) == Rank(p.actions) - 1
            && r.outcome != Busy && r.plan.version == p.version + 1
            && r.plan.expiresAt == p.expiresAt && r.plan.id == p.id
    ensures forall i :: 0 <= i < |p.actions| && p.actions[i].status == Succeeded ==>
              Act(p, now).plan.actions[i] == p.actions[i]
  {
    ActTurns(p, now, k);
    RankUpdate(p.actions, k, Turned(p.actions[k]));
  }

  // ----- what each act answers and leaves -----

  /** The plan after an act on its `k`th action, with that action as given and the turn where it goes next. */
  function Onward(p: Plan, k: nat, action: Action): Plan
    requires k < |p.actions|
  {
    if action.status != Succeeded then
      p.(actions := p.actions[k := action], status := Executing, nextPosition := Some(action.position),
         version := p.version + 1)
    else if k + 1 < |p.actions| then
      p.(actions := p.actions[k := action], status := Executing, nextPosition := Some(p.actions[k + 1].position),
         version := p.version + 1)
    else
      p.(actions := p.actions[k := action], status := PlanCompleted, nextPosition := None, canAct := false,
         version := p.version + 1)
  }

  lemma PendingMeans(p: Plan, now: int, k: nat)
    requires ShapedAt(p, k) && k < |p.actions| && now < p.expiresAt && p.actions[k].status == Pending
    ensures var a := p.actions[k];
            Act(p, now) ==
              if a.agentRun then
                Reply(AgentStaged, Some(a.position),
                      Onward(p, k, a.(status := Staged, attempts := 1, evidence := None)))
              else
                Reply(if k + 1 == |p.actions| then Completed else ActionSucceeded, Some(a.position),
                      Onward(p, k, a.(status := Succeeded, attempts := 1, evidence := Some(Created))))
  {
    ActTurns(p, now, k);
    ActKeepsOrder(p, now, k);
    assert Act(p, now) == ActPending(p, p.actions[k]);
    OrderDecides(Act(p, now).plan.actions, TurnAfter(p, k));
  }

  lemma StagedMeans(p: Plan, now: int, k: nat)
    requires ShapedAt(p, k) && k < |p.actions| && now < p.expiresAt && p.actions[k].status == Staged
    ensures var a := p.actions[k];
            Act(p, now) ==
              if a.evidence == None then
                Reply(AgentWaiting, Some(a.position),
                      p.(actions := p.actions[k := a.(evidence := Some(ApprovalSeen))], version := p.version + 1))
              else
                Reply(if k + 1 == |p.actions| then Completed else ActionSucceeded, Some(a.position),
                      Onward(p, k, a.(status := Succeeded, evidence := Some(RunFinished))))
  {
    ActTurns(p, now, k);
    ActKeepsOrder(p, now, k);
    assert Act(p, now) == ActStaged(p, p.actions[k]);
    OrderDecides(Act(p, now).plan.actions, TurnAfter(p, k));
  }

  /**
   A plain action succeeds at once. An agent run is staged by its first act, has its approval noted
   by the second, and succeeds by the third. Only the success of the last action answers "completed".
   */
  lemma ActMeans(p: Plan, now: int, k: nat)
    requires ShapedAt(p, k) && k < |p.actions| && now < p.expiresAt
    ensures var a, last := p.actions[k], k + 1 == |p.actions|;
            var success := if last then Completed else ActionSucceeded;
            Act(p, now) ==
              if a.status == Pending && !a.agentRun then
                Reply(success, Some(a.position),
                      Onward(p, k, a.(status := Succeeded, attempts := 1, evidence := Some(Created))))
              else if a.status == Pending then
                Reply(AgentStaged, Some(a.position),
                      Onward(p, k, a.(status := Staged, attempts := 1, evidence := None)))
              else if a.evidence == None then
                Reply(AgentWaiting, Some(a.position),
                      p.(actions := p.actions[k := a.(evidence := Some(ApprovalSeen))], version := p.version + 1))
              else
                Reply(success, Some(a.position),
                      Onward(p, k, a.(status := Succeeded, evidence := Some(RunFinished))))
  {
    assert InTurn(p.actions[k]);
    if p.actions[k].status == Pending {
      PendingMeans(p, now, k);
    } else {
      StagedMeans(p, now, k);
    }
  }

  /** A plan on which nobody can act any more answers how it ended, and stays as it is. */
  lemma EndedMeans(p: Plan, now: int)
    requires !p.canAct
    ensures Act(p, now) == Reply(match p.status
                                 case PlanCompleted => Completed
                                 case PlanExpired => Expired
                                 case _ => Failure, None, p)
  {
  }

  /** With nothing staged and nothing pending an act in time answers "busy" and leaves the plan as it is. */
  lemma BusyMeans(p: Plan, now: int)
    requires p.canAct && now < p.expiresAt
    requires forall a :: a in p.actions ==> a.status != Staged && a.status != Pending
    ensures Act(p, now) == Reply(Busy, None, p)
  {
    assert First(p.actions, {Staged}) == |p.actions| && First(p.actions, {Pending}) == |p.actions|;
  }

  /** The act that finds a plan expired cancels every open action and nothing else. */
  lemma ExpiryMeans(p: Plan, now: int)
    requires p.canAct && p.expiresAt <= now
    ensures var r := Act(p, now);
            && r.outcome == Expired && r.position == None && |r.plan.actions| == |p.actions|
            && r.plan == p.(status := PlanExpired, canAct := false, actions := r.plan.actions, version := p.version + 1)
            && forall i :: 0 <= i < |p.actions| ==>
                 r.plan.actions[i] == match p.actions[i].status
                                      case Succeeded => p.actions[i]
                                      case Failed => p.actions[i]
                                      case _ => p.actions[i].(status := Cancelled)
  {
  }

  // ----- whole runs -----

  ghost predicate IsRun(plans: seq<Plan>, times: seq<int>) {
    && |plans| == |times| + 1
    && Fresh(plans[0])
    && forall i :: 0 <= i < |times| ==> times[i] < plans[0].expiresAt && plans[i + 1] == Act(plans[i], times[i]).plan
  }

  /**
   A plan of any nonzero length, acted on before it expires: every reachable state has the shape
   succeeded, at most one staged, pending; after n acts the rank has fallen by n, until it is 0.
   */
  lemma {:induction false} RunIsShaped(plans: seq<Plan>, times: seq<int>, n: nat) returns (k: nat)
    requires IsRun(plans, times) && n < |plans|
    ensures ShapedAt(plans[n], k)
    ensures plans[n].expiresAt == plans[0].expiresAt
    ensures Rank(plans[n].actions) == if n < Rank(plans[0].actions) then Rank(plans[0].actions) - n else 0
  {
    if n == 0 {
      k := 0;
    } else {
      k := RunIsShaped(plans, times, n - 1);
      RankZeroIff(plans[n - 1], k);
      if k < |plans[n - 1].actions| {
        ActKeepsShape(plans[n - 1], times[n - 1], k);
        ActLowersRank(plans[n - 1], times[n - 1], k);
        k := TurnAfter(plans[n - 1], k);
      }
    }
  }

  /** The plan completes with exactly its initial rank of acts: one for a plain action, three for an agent run. */
  lemma CompletesAfterRankActs(plans: seq<Plan>, times: seq<int>, n: nat)
    requires IsRun(plans, times) && n < |plans|
    ensures plans[n].status == PlanCompleted <==> n >= Rank(plans[0].actions)
    ensures plans[n].status == PlanCompleted <==> AllSucceeded(plans[n].actions)
  {
    var k := RunIsShaped(plans, times, n);
    RankZeroIff(plans[n], k);
    if k < |plans[n].actions| {
      assert plans[n].actions[k].status != Succeeded;
    }
  }

  /** Once an action has succeeded nothing in it ever changes again, and none is attempted twice. */
  lemma {:induction false} SucceededIsFinal(plans: seq<Plan>, times: seq<int>, i: nat, j: nat, a: nat)
    requires IsRun(plans, times) && i <= j < |plans|
    requires a < |plans[i].actions| && plans[i].actions[a].status == Succeeded
    ensures a < |plans[j].actions| && plans[j].actions[a] == plans[i].actions[a]
    ensures plans[j].actions[a].attempts == 1
    decreases j
  {
    var k := RunIsShaped(plans, times, i);
    if i < j {
      SucceededIsFinal(plans, times, i, j - 1, a);
      k := RunIsShaped(plans, times, j - 1);
      if k < |plans[j - 1].actions| {
        ActTurns(plans[j - 1], times[j - 1], k);
        ActLowersRank(plans[j - 1], times[j - 1], k);
      }
    }
  }

  /** An act that finds the plan expired cancels what is open, keeps what succeeded, and is the last to change it. */
  lemma ExpiryIsFinal(p: Plan, k: nat, now: int, later: int)
    requires ShapedAt(p, k) && k < |p.actions| && p.expiresAt <= now
    ensures var expired := Act(p, now).plan;
            && expired.status == PlanExpired && Act(expired, later) == Reply(Expired, None, expired)
            && |expired.actions| == |p.actions|
            && forall i :: 0 <= i < |p.actions| ==>
                 if i < k then expired.actions[i] == p.actions[i] else expired.actions[i].status == Cancelled
  {
  }

  // ----- the mutable board -----

  function Find(plans: seq<Plan>, id: Id): (r: Option<Plan>)
    ensures r.Some? ==> r.value.id == id
  {
    if plans == [] then None
    else if plans[0].id == id then Some(plans[0])
    else Find(plans[1..], id)
  }

  function Without(plans: seq<Plan>, id: Id): seq<Plan> {
    if plans == [] then []
    else if plans[0].id == id then Without(plans[1..], id)
    else [plans[0]] + Without(plans[1..], id)
  }

  /** The lookup finds the first plan of that id, and none only if there is none. */
  lemma {:induction false} FindFinds(plans: seq<Plan>, id: Id)
    ensures Lookups.Finds(plans, (p: Plan) => p.id == id, Find(plans, id))
  {
    var matches := (p: Plan) => p.id == id;
    if plans != [] {
      if plans[0].id == id {
        Lookups.FindsHere(plans, matches);
      } else {
        FindFinds(plans[1..], id);
        Lookups.FindsLater(plans, matches, Find(plans, id));
      }
    }
  }

  lemma {:induction false} FindWithout(plans: seq<Plan>, id: Id, other: Id)
    ensures Find(Without(plans, id), other) == if other == id then None else Find(plans, other)
  {
    if plans != [] {
      FindWithout(plans[1..], id, other);
    }
  }

  class IntentBoard {
    var intentProposals: seq<Plan>

    /** `replaceIntentProposal`: the new state of a plan goes to the front. */
    method ReplaceIntentProposal(next: Plan)
      modifies this
      ensures forall id :: Find(intentProposals, id) ==
                           if id == next.id then Some(next) else Find(old(intentProposals), id)
      ensures intentProposals != [] && intentProposals[0] == next
    {
      forall id {
        FindWithout(intentProposals, next.id, id);
      }
      var others := Without(intentProposals, next.id);
      intentProposals := [next] + others;
      assert intentProposals[1..] == others;
    }

    /** A repeated request id returns the plan it made the first time, whatever has become of it. */
    method CreateIntentPlan(requestId: Id, member: bool, expiresAt: int) returns (plan: Option<Plan>)
      modifies this
      ensures plan == if Find(old(intentProposals), requestId).Some? then Find(old(intentProposals), requestId)
                      else if member then Find(intentProposals, requestId) else None
      ensures plan.Some? && Find(old(intentProposals), requestId).None? ==>
                && plan.value == Plan(requestId,
                                      [Action(0, false, Pending, 0, None), Action(1, false, Pending, 0, None),
                                       Action(2, true, Pending, 0, None)], Ready, true, Some(0), expiresAt, 1)
                && Fresh(plan.value) && Rank(plan.value.actions) == 5
      ensures plan.None? || Find(old(intentProposals), requestId).Some? ==> intentProposals == old(intentProposals)
      ensures forall id :: id != requestId ==> Find(intentProposals, id) == Find(old(intentProposals), id)
    {
      plan := Find(intentProposals, requestId);
      if plan.Some? {
        return;
      }
      if !member {
        return None;
      }
      var remember := Action(0, false, Pending, 0, None);
      var start := Action(1, false, Pending, 0, None);
      var send := Action(2, true, Pending, 0, None);
      var proposal := Plan(requestId, [remember, start, send], Ready, true, Some(0), expiresAt, 1);
      assert proposal.actions[1..] == [start, send] && [start, send][1..] == [send];
      assert Rank([send]) == 3 && Rank([start, send]) == 4;
      ReplaceIntentProposal(proposal);
      plan := Some(proposal);
    }

    /** Throws, which is None, without confirmation or for an unknown plan; touches no other plan. */
    method ActIntent(id: Id, confirmation: bool, now: int) returns (reply: Option<Reply>)
      modifies this
      ensures reply == if confirmation && Find(old(intentProposals), id).Some?
                       then Some(Act(Find(old(intentProposals), id).value, now)) else None
      ensures reply.Some? ==> Find(intentProposals, id) == Some(reply.value.plan)
      ensures reply.None? ==> intentProposals == old(intentProposals)
      ensures forall other :: other != id ==> Find(intentProposals, other) == Find(old(intentProposals), other)
    {
      var current := Find(intentProposals, id);
      if !confirmation || current.None? {
        return None;
      }
      var result := Act(current.value, now);
      if result.plan != current.value {
        ReplaceIntentProposal(result.plan);
      }
      return Some(result);
    }
  }
}
