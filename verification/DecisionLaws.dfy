/** What each Decision call asks for and what it leaves behind, and how reviews add up over runs. */
module DecisionLaws {
  import opened Options
  import opened Text
  import opened Decisions

  // ----- lookups -----

  ghost predicate FirstAt(decisions: seq<Decision>, id: Id, k: nat) {
    k < |decisions| && decisions[k].id == id && forall j :: 0 <= j < k ==> decisions[j].id != id
  }

  /** The Decision that the call names stands at `k`, in the version that the caller saw. */
  ghost predicate Current(decisions: seq<Decision>, id: Id, version: nat, k: nat) {
    k < |decisions| && decisions[k].id == id && decisions[k].version == version
  }

  lemma {:induction false} FindFirst(decisions: seq<Decision>, id: Id, k: nat)
    requires FirstAt(decisions, id, k)
    ensures Find(decisions, id) == Some(decisions[k])
  {
    if k > 0 {
      assert decisions[0].id != id;
      FindFirst(decisions[1..], id, k - 1);
    }
  }

  lemma {:induction false} FoundFirst(decisions: seq<Decision>, id: Id) returns (k: nat)
    requires Find(decisions, id).Some?
    ensures FirstAt(decisions, id, k) && Find(decisions, id) == Some(decisions[k])
  {
    if decisions[0].id == id {
      k := 0;
    } else {
      k := FoundFirst(decisions[1..], id);
      k := k + 1;
      assert forall j :: 0 < j < k ==> decisions[j] == decisions[1..][j - 1];
    }
  }

  lemma Located(decisions: seq<Decision>, id: Id, version: nat, k: nat)
    requires UniqueIds(decisions) && Current(decisions, id, version, k)
    ensures Find(decisions, id) == Some(decisions[k])
    ensures forall next: Decision :: next.id == id ==> Replaced(decisions, next) == decisions[k := next]
  {
    assert FirstAt(decisions, id, k);
    FindFirst(decisions, id, k);
  }

  lemma ApprovedMeans(decisions: seq<Decision>, id: Id)
    ensures Find(decisions, id).Some? && Find(decisions, id).value.status == Approved <==>
            exists k: nat :: FirstAt(decisions, id, k) && decisions[k].status == Approved
  {
    if Find(decisions, id).Some? {
      var k := FoundFirst(decisions, id);
    }
    forall k: nat | FirstAt(decisions, id, k) {
      FindFirst(decisions, id, k);
    }
  }

  // ----- one call -----

  ghost predicate DraftOk(content: Content, options: seq<Choice>) {
    && Filled(content.title, 200) && Filled(content.description, 10_000) && |content.rationale| <= 10_000
    && 2 <= |options| <= 20
    && (forall i :: 0 <= i < |options| ==> Filled(options[i].title, 200) && |options[i].description| <= 5_000)
    && forall i, j :: 0 <= i < j < |options| ==> options[i].key != options[j].key
  }

  lemma DraftOkMeans(content: Content, options: seq<Choice>)
    ensures ContentOk(content) && OptionsOk(options) <==> DraftOk(content, options)
  {
    forall s, max {
      NonBlankMeans(s, max);
    }
  }

  lemma RefusedChangesNothing(decisions: seq<Decision>, c: Command)
    ensures !Accepts(decisions, c) ==> Step(decisions, c) == decisions
  {
  }

  lemma CreateMeans(decisions: seq<Decision>, c: Command)
    requires c.Create?
    ensures Accepts(decisions, c) <==> DraftOk(c.content, c.options)
    ensures var draft := Decision(c.newId, c.content, Draft, 1, None, 1, 0, [], c.options, None);
            Accepts(decisions, c) ==> Step(decisions, c) == [draft] + decisions
  {
    DraftOkMeans(c.content, c.options);
  }

  lemma SaveDraftAccepted(decisions: seq<Decision>, c: Command)
    requires UniqueIds(decisions) && c.SaveDraft?
    ensures Accepts(decisions, c) <==>
            && DraftOk(c.content, c.options)
            && exists k: nat :: Current(decisions, c.id, c.expectedVersion, k) && decisions[k].status == Draft
  {
    DraftOkMeans(c.content, c.options);
    if Accepts(decisions, c) {
      var k := FoundFirst(decisions, c.id);
      assert Current(decisions, c.id, c.expectedVersion, k);
    }
    forall k: nat | Current(decisions, c.id, c.expectedVersion, k) {
      Located(decisions, c.id, c.expectedVersion, k);
    }
  }

  lemma SaveDraftLeaves(decisions: seq<Decision>, c: Command, k: nat)
    requires UniqueIds(decisions) && c.SaveDraft? && Accepts(decisions, c)
    requires Current(decisions, c.id, c.expectedVersion, k)
    ensures Step(decisions, c) == decisions[k := decisions[k].(
              content := c.content, options := c.options, approvals := [], version := c.expectedVersion + 1)]
  {
    Located(decisions, c.id, c.expectedVersion, k);
  }

  lemma ProposeAccepted(decisions: seq<Decision>, c: Command)
    requires UniqueIds(decisions) && c.Propose?
    ensures Accepts(decisions, c) <==>
            exists k: nat :: Current(decisions, c.id, c.expectedVersion, k) && decisions[k].status in {Draft, Proposed}
  {
    if Accepts(decisions, c) {
      var k := FoundFirst(decisions, c.id);
      assert Current(decisions, c.id, c.expectedVersion, k);
    }
    forall k: nat | Current(decisions, c.id, c.expectedVersion, k) {
      Located(decisions, c.id, c.expectedVersion, k);
    }
  }

  lemma ProposeLeaves(decisions: seq<Decision>, c: Command, k: nat)
    requires UniqueIds(decisions) && c.Propose? && Accepts(decisions, c)
    requires Current(decisions, c.id, c.expectedVersion, k)
    ensures Step(decisions, c) == decisions[k := decisions[k].(
              status := Proposed, requiredApprovals := 1, version := c.expectedVersion + 1)]
  {
    Located(decisions, c.id, c.expectedVersion, k);
  }

  /** A reviewer gives a reason, selects one of the options exactly when approving, and reviews once. */
  ghost predicate MayReview(d: Decision, approval: Approval) {
    && d.status == Proposed && Filled(approval.reason, 5_000)
    && (approval.approve <==> approval.selected.Some?)
    && (approval.approve ==> approval.selected.value != "" &&
                             exists i :: 0 <= i < |d.options| && d.options[i].id == approval.selected.value)
    && forall i :: 0 <= i < |d.approvals| ==> d.approvals[i].reviewer != approval.reviewer
  }

  lemma ReviewAccepted(decisions: seq<Decision>, c: Command)
    requires UniqueIds(decisions) && c.Review?
    ensures Accepts(decisions, c) <==>
            exists k: nat :: Current(decisions, c.id, c.expectedVersion, k) && MayReview(decisions[k], c.approval)
  {
    NonBlankMeans(c.approval.reason, 5_000);
    if Accepts(decisions, c) {
      var k := FoundFirst(decisions, c.id);
      assert Current(decisions, c.id, c.expectedVersion, k);
    }
    forall k: nat | Current(decisions, c.id, c.expectedVersion, k) {
      Located(decisions, c.id, c.expectedVersion, k);
    }
  }

  /** How many of the reviews approve. */
  function Approving(approvals: seq<Approval>): nat {
    if approvals == [] then 0
    else Approving(approvals[..|approvals| - 1]) + (if approvals[|approvals| - 1].approve then 1 else 0)
  }

  lemma ApprovingNext(approvals: seq<Approval>, next: Approval)
    ensures Approving(approvals + [next]) == Approving(approvals) + (if next.approve then 1 else 0)
  {
    assert (approvals + [next])[..|approvals|] == approvals;
  }

  /**
   A rejection ends the review. An approval that fills the quorum approves the Decision and selects
   the reviewer's option; one that does not leaves the Decision proposed.
   */
  lemma ReviewLeaves(decisions: seq<Decision>, c: Command, k: nat)
    requires UniqueIds(decisions) && c.Review? && Accepts(decisions, c)
    requires Current(decisions, c.id, c.expectedVersion, k)
    requires decisions[k].approvalCount == Approving(decisions[k].approvals)
    ensures var d, reviews := decisions[k], decisions[k].approvals + [c.approval];
            var approved := c.approval.approve && Approving(reviews) >= d.requiredApprovals;
            Step(decisions, c) == decisions[k := d.(
              status := if approved then Approved else if c.approval.approve then Proposed else Rejected,
              selected := if approved then c.approval.selected else None,
              approvals := reviews, approvalCount := Approving(reviews), version := c.expectedVersion + 1)]
  {
    Located(decisions, c.id, c.expectedVersion, k);
    ApprovingNext(decisions[k].approvals, c.approval);
  }

  lemma SupersedeAccepted(decisions: seq<Decision>, c: Command)
    requires UniqueIds(decisions) && c.Supersede?
    ensures Accepts(decisions, c) <==>
            && (exists k: nat :: Current(decisions, c.id, c.expectedVersion, k) &&
                                 decisions[k].status in {Approved, Superseded})
            && exists k: nat :: FirstAt(decisions, c.replacement, k) && decisions[k].status == Approved
  {
    ApprovedMeans(decisions, c.replacement);
    if Accepts(decisions, c) {
      var k := FoundFirst(decisions, c.id);
      assert Current(decisions, c.id, c.expectedVersion, k);
    }
    forall k: nat | Current(decisions, c.id, c.expectedVersion, k) {
      Located(decisions, c.id, c.expectedVersion, k);
    }
  }

  lemma SupersedeLeaves(decisions: seq<Decision>, c: Command, k: nat)
    requires UniqueIds(decisions) && c.Supersede? && Accepts(decisions, c)
    requires Current(decisions, c.id, c.expectedVersion, k)
    ensures Step(decisions, c) == decisions[k := decisions[k].(
              status := Superseded, supersededBy := Some(c.replacement), version := c.expectedVersion + 1)]
  {
    Located(decisions, c.id, c.expectedVersion, k);
  }

  // ----- reviews over runs -----

  predicate AllApprove(approvals: seq<Approval>) {
    forall i :: 0 <= i < |approvals| ==> approvals[i].approve
  }

  /**
   The reviews of a Decision add up: nobody reviewed twice, the count is of those who approved, and
   the status says whether the last review filled the quorum, rejected, or left it open.
   */
  ghost predicate Tallied(d: Decision) {
    && d.approvalCount == Approving(d.approvals)
    && (forall i, j :: 0 <= i < j < |d.approvals| ==> d.approvals[i].reviewer != d.approvals[j].reviewer)
    && match d.status
       case Draft => d.approvals == []
       case Proposed => AllApprove(d.approvals) && d.approvalCount < d.requiredApprovals
       case Rejected =>
         && d.approvals != [] && !d.approvals[|d.approvals| - 1].approve
         && AllApprove(d.approvals[..|d.approvals| - 1]) && d.approvalCount < d.requiredApprovals
       case _ =>
         && d.approvals != [] && AllApprove(d.approvals) && d.approvalCount == d.requiredApprovals
         && d.selected == d.approvals[|d.approvals| - 1].selected
  }

  /** Proposing asks for one approval, which no open review can have yet. */
  ghost predicate AllTallied(decisions: seq<Decision>) {
    forall k :: 0 <= k < |decisions| ==> Tallied(decisions[k]) && decisions[k].requiredApprovals == 1
  }

  lemma ReviewKeepsTally(decisions: seq<Decision>, c: Command, k: nat)
    requires UniqueIds(decisions) && c.Review? && Accepts(decisions, c) && AllTallied(decisions)
    requires Current(decisions, c.id, c.expectedVersion, k)
    ensures AllTallied(Step(decisions, c))
  {
    var d := decisions[k];
    ReviewAccepted(decisions, c);
    ReviewLeaves(decisions, c, k);
    ApprovingNext(d.approvals, c.approval);
    Located(decisions, c.id, c.expectedVersion, k);
    assert (d.approvals + [c.approval])[..|d.approvals|] == d.approvals;
  }

  lemma ReplacedKeepsTally(decisions: seq<Decision>, k: nat, next: Decision)
    requires AllTallied(decisions) && k < |decisions| && Tallied(next) && next.requiredApprovals == 1
    ensures AllTallied(decisions[k := next])
  {
  }

  lemma ChangeKeepsTally(decisions: seq<Decision>, c: Command, k: nat)
    requires UniqueIds(decisions) && AllTallied(decisions) && Accepts(decisions, c)
    requires c.SaveDraft? || c.Propose? || c.Supersede?
    requires Current(decisions, c.id, c.expectedVersion, k)
    ensures AllTallied(Step(decisions, c))
  {
    Located(decisions, c.id, c.expectedVersion, k);
    if c.SaveDraft? {
      SaveDraftLeaves(decisions, c, k);
    } else if c.Propose? {
      ProposeLeaves(decisions, c, k);
    } else {
      SupersedeLeaves(decisions, c, k);
    }
    assert Tallied(decisions[k]);
    ReplacedKeepsTally(decisions, k, Step(decisions, c)[k]);
  }

  lemma StepKeepsTally(decisions: seq<Decision>, c: Command)
    requires UniqueIds(decisions) && AllTallied(decisions)
    ensures AllTallied(Step(decisions, c))
  {
    if !Accepts(decisions, c) {
      RefusedChangesNothing(decisions, c);
    } else if c.Create? {
      CreateMeans(decisions, c);
    } else {
      var k := FoundFirst(decisions, c.id);
      if c.Review? {
        ReviewKeepsTally(decisions, c, k);
      } else {
        ChangeKeepsTally(decisions, c, k);
      }
    }
  }

  lemma SeedIsTallied(id: Id, content: Content, first: Choice, second: Choice)
    ensures AllTallied([Decision(id, content, Proposed, 2, None, 1, 0, [], [first, second], None)])
  {
  }

  /** In every reachable state the reviews of every Decision add up. */
  lemma {:induction false} ReviewsAddUp(states: seq<seq<Decision>>, calls: seq<Command>, n: nat)
    requires IsRun(states, calls) && n < |states| && AllTallied(states[0])
    ensures AllTallied(states[n])
  {
    if n > 0 {
      ReviewsAddUp(states, calls, n - 1);
      ReachableStatesAreValid(states, calls, n - 1);
      assert StepsAt(states, calls, n - 1);
      StepKeepsTally(states[n - 1], calls[n - 1]);
    }
  }
}
