/** Decisions: drafting, review by humans, and replacement by later decisions. */
module Decisions {
  import opened Options
  import opened Text
  import opened Chains

  type Id = string

  datatype Status = Draft | Proposed | Approved | Rejected | Superseded

  function Successors(status: Status): set<Status> {
    match status
    case Draft => {Proposed}
    case Proposed => {Approved, Rejected}
    case Approved => {Superseded}
    case Rejected => {}
    case Superseded => {}
  }

  /** The guard `assertDecisionTransition`; it lets a status stay what it is. */
  predicate MayBecome(current: Status, next: Status) {
    current == next || next in Successors(current)
  }

  datatype Content = Content(title: string, description: string, rationale: string)

  /**
   An option. Its id is drawn with the call; `title` is its label, and `key` is the label trimmed
   and lower-cased in the locale.
   */
  datatype Choice = Choice(id: Id, title: string, key: string, description: string)

  datatype Approval = Approval(reviewer: Id, approve: bool, selected: Option<Id>, reason: string)

  datatype Decision = Decision(id: Id, content: Content, status: Status, version: nat, supersededBy: Option<Id>,
                               requiredApprovals: nat, approvalCount: nat, approvals: seq<Approval>,
                               options: seq<Choice>, selected: Option<Id>)

  datatype Command =
    | Create(newId: Id, content: Content, options: seq<Choice>)
    | SaveDraft(id: Id, expectedVersion: nat, content: Content, options: seq<Choice>)
    | Propose(id: Id, expectedVersion: nat)
    | Review(id: Id, expectedVersion: nat, approval: Approval)
    | Supersede(id: Id, expectedVersion: nat, replacement: Id)

  function Find(decisions: seq<Decision>, id: Id): (r: Option<Decision>)
    ensures r.Some? ==> r.value.id == id
  {
    if decisions == [] then None
    else if decisions[0].id == id then Some(decisions[0])
    else Find(decisions[1..], id)
  }

  function Replaced(decisions: seq<Decision>, next: Decision): seq<Decision> {
    seq(|decisions|, i requires 0 <= i < |decisions| => if decisions[i].id == next.id then next else decisions[i])
  }

  // ----- what each call does -----

  /** The guard `assertDecisionContent`. */
  predicate ContentOk(c: Content) {
    NonBlank(c.title, 200) && NonBlank(c.description, 10_000) && |c.rationale| <= 10_000
  }

  /** The guard `assertDecisionOptions`. */
  predicate OptionsOk(options: seq<Choice>) {
    && 2 <= |options| <= 20
    && (forall o :: o in options ==> NonBlank(o.title, 200) && |o.description| <= 5_000)
    && forall i, j :: 0 <= i < j < |options| ==> options[i].key != options[j].key
  }

  /** The guard `assertDecisionReview`. */
  predicate ApprovalOk(a: Approval) {
    && NonBlank(a.reason, 5_000)
    && if a.approve then a.selected.Some? && a.selected.value != "" else a.selected.None?
  }

  predicate HasOption(options: seq<Choice>, id: Id) {
    exists o :: o in options && o.id == id
  }

  predicate HasReviewed(approvals: seq<Approval>, reviewer: Id) {
    exists a :: a in approvals && a.reviewer == reviewer
  }

  /** The calls that succeed; every other call throws and changes nothing. */
  predicate Accepts(decisions: seq<Decision>, c: Command) {
    if c.Create? then ContentOk(c.content) && OptionsOk(c.options)
    else
      var found := Find(decisions, c.id);
      found.Some? && found.value.version == c.expectedVersion && AcceptsRevision(decisions, found.value, c)
  }

  predicate AcceptsRevision(decisions: seq<Decision>, d: Decision, c: Command)
    requires !c.Create?
  {
    match c
    case SaveDraft(_, _, content, options) => d.status == Draft && ContentOk(content) && OptionsOk(options)
    case Propose(_, _) => MayBecome(d.status, Proposed)
    case Review(_, _, approval) =>
      && ApprovalOk(approval)
      && d.status == Proposed && !HasReviewed(d.approvals, approval.reviewer)
      && (approval.selected.Some? ==> HasOption(d.options, approval.selected.value))
    case Supersede(_, _, replacement) =>
      && MayBecome(d.status, Superseded)
      && Find(decisions, replacement).Some? && Find(decisions, replacement).value.status == Approved
  }

  function Revised(d: Decision, c: Command): Decision
    requires !c.Create?
  {
    var next := d.(version := d.version + 1);
    match c
    case SaveDraft(_, _, content, options) => next.(content := content, options := options, approvals := [])
    case Propose(_, _) => next.(status := Proposed, requiredApprovals := 1)
    case Review(_, _, approval) =>
      var count := d.approvalCount + (if approval.approve then 1 else 0);
      var status := if !approval.approve then Rejected
                    else if count >= d.requiredApprovals then Approved else Proposed;
      next.(status := status, approvalCount := count, approvals := d.approvals + [approval],
            selected := if status == Approved then approval.selected else None)
    case Supersede(_, _, replacement) => next.(status := Superseded, supersededBy := Some(replacement))
  }

  function Drafted(c: Command): Decision
    requires c.Create?
  {
    Decision(c.newId, c.content, Draft, 1, None, 1, 0, [], c.options, None)
  }

  function Step(decisions: seq<Decision>, c: Command): seq<Decision> {
    if !Accepts(decisions, c) then decisions
    else if c.Create? then [Drafted(c)] + decisions
    else Replaced(decisions, Revised(Find(decisions, c.id).value, c))
  }

  // ----- the invariant -----

  predicate UniqueIds(decisions: seq<Decision>) {
    forall i, j :: 0 <= i < j < |decisions| ==> decisions[i].id != decisions[j].id
  }

  predicate IsReplaced(decisions: seq<Decision>, id: Id) {
    var found := Find(decisions, id);
    found.Some? && found.value.supersededBy.Some? && found.value.supersededBy.value != id
  }

  function Ids(decisions: seq<Decision>): set<Id> {
    set d | d in decisions :: d.id
  }

  /** Replacement links, leaving out those of a Decision to itself. */
  function Links(decisions: seq<Decision>): map<Id, Id> {
    map id | id in Ids(decisions) && IsReplaced(decisions, id) :: Find(decisions, id).value.supersededBy.value
  }

  /**
   A Decision names its replacement exactly while superseded, and the replacement was once
   approved. A Decision that was approved chose one of its options with enough approvals.
   */
  predicate Sound(decisions: seq<Decision>, d: Decision) {
    && (d.status == Approved || d.status == Superseded ==>
          d.selected.Some? && HasOption(d.options, d.selected.value) && d.approvalCount >= d.requiredApprovals)
    && (d.supersededBy.Some? <==> d.status == Superseded)
    && (d.supersededBy.Some? ==>
          var target := Find(decisions, d.supersededBy.value);
          target.Some? && (target.value.status == Approved || target.value.status == Superseded))
  }

  ghost predicate Valid(decisions: seq<Decision>) {
    && UniqueIds(decisions)
    && (forall id :: Find(decisions, id).Some? ==> Sound(decisions, Find(decisions, id).value))
    && IsForest(Links(decisions))
  }

  predicate Drawable(decisions: seq<Decision>, c: Command) {
    c.Create? ==> Find(decisions, c.newId).None?
  }

  lemma {:induction false} FindSound(decisions: seq<Decision>, id: Id)
    ensures match Find(decisions, id)
            case Some(d) => d in decisions
            case None => forall d :: d in decisions ==> d.id != id
  {
    if decisions != [] && decisions[0].id != id {
      FindSound(decisions[1..], id);
    }
  }

  lemma {:induction false} FindReplaced(decisions: seq<Decision>, next: Decision, id: Id)
    ensures Find(Replaced(decisions, next), id) ==
            if id == next.id && Find(decisions, id).Some? then Some(next) else Find(decisions, id)
  {
    if decisions != [] {
      FindReplaced(decisions[1..], next, id);
      assert Replaced(decisions, next)[1..] == Replaced(decisions[1..], next);
    }
  }

  lemma LinksAt(decisions: seq<Decision>, id: Id)
    ensures id in Links(decisions) <==> IsReplaced(decisions, id)
    ensures IsReplaced(decisions, id) ==> Links(decisions)[id] == Find(decisions, id).value.supersededBy.value
  {
  }

  lemma FindAfterStep(decisions: seq<Decision>, c: Command, id: Id)
    requires Accepts(decisions, c) && Drawable(decisions, c)
    ensures Find(Step(decisions, c), id) ==
            if c.Create? then (if id == c.newId then Some(Drafted(c)) else Find(decisions, id))
            else if id == c.id then Some(Revised(Find(decisions, id).value, c))
            else Find(decisions, id)
  {
    if c.Create? {
      assert Step(decisions, c)[1..] == decisions;
    } else {
      FindReplaced(decisions, Revised(Find(decisions, c.id).value, c), id);
    }
  }

  ghost function ExpectedLinks(links: map<Id, Id>, c: Command): map<Id, Id> {
    if !c.Supersede? then links
    else if c.replacement == c.id then links - {c.id}
    else links[c.id := c.replacement]
  }

  lemma LinkAfterStep(decisions: seq<Decision>, c: Command, id: Id)
    requires Accepts(decisions, c) && Drawable(decisions, c)
    ensures var links, expected := Links(Step(decisions, c)), ExpectedLinks(Links(decisions), c);
            (id in links <==> id in expected) && (id in expected ==> links[id] == expected[id])
  {
    LinksAt(decisions, id);
    LinksAt(Step(decisions, c), id);
    FindAfterStep(decisions, c, id);
  }

  /** A replacement changes one link; every other call changes none. */
  lemma LinksAfterStep(decisions: seq<Decision>, c: Command)
    requires Accepts(decisions, c) && Drawable(decisions, c)
    ensures Links(Step(decisions, c)) == ExpectedLinks(Links(decisions), c)
  {
    var links, expected := Links(Step(decisions, c)), ExpectedLinks(Links(decisions), c);
    forall id
      ensures (id in links <==> id in expected) && (id in expected ==> links[id] == expected[id])
    {
      LinkAfterStep(decisions, c, id);
    }
  }

  lemma StepKeepsForest(decisions: seq<Decision>, c: Command)
    requires Valid(decisions) && Accepts(decisions, c) && Drawable(decisions, c)
    ensures IsForest(Links(Step(decisions, c)))
  {
    LinksAfterStep(decisions, c);
    var links := Links(decisions);
    if c.Supersede? {
      if c.replacement == c.id {
        SubmapKeepsForest(links, links - {c.id});
      } else {
        LinksAt(decisions, c.replacement);
        assert Sound(decisions, Find(decisions, c.replacement).value);
        RedirectKeepsForest(links, c.id, c.replacement);
      }
    }
  }

  lemma StepKeepsLinks(decisions: seq<Decision>, c: Command, id: Id)
    requires Valid(decisions) && Accepts(decisions, c) && Drawable(decisions, c)
    requires Find(Step(decisions, c), id).Some?
    ensures Sound(Step(decisions, c), Find(Step(decisions, c), id).value)
  {
    FindAfterStep(decisions, c, id);
    var d := Find(Step(decisions, c), id).value;
    if Find(decisions, id).Some? {
      assert Sound(decisions, Find(decisions, id).value);
    }
    if d.supersededBy.Some? {
      FindAfterStep(decisions, c, d.supersededBy.value);
    }
  }

  lemma StepKeepsUniqueIds(decisions: seq<Decision>, c: Command)
    requires UniqueIds(decisions) && Drawable(decisions, c)
    ensures UniqueIds(Step(decisions, c))
  {
    if Accepts(decisions, c) && c.Create? {
      FindSound(decisions, c.newId);
      forall j | 0 <= j < |decisions|
        ensures decisions[j].id != c.newId
      {
        assert decisions[j] in decisions;
      }
    }
  }

  lemma StepKeepsValid(decisions: seq<Decision>, c: Command)
    requires Valid(decisions) && Drawable(decisions, c)
    ensures Valid(Step(decisions, c))
  {
    if Accepts(decisions, c) {
      StepKeepsUniqueIds(decisions, c);
      StepKeepsForest(decisions, c);
      forall id | Find(Step(decisions, c), id).Some?
        ensures Sound(Step(decisions, c), Find(Step(decisions, c), id).value)
      {
        StepKeepsLinks(decisions, c, id);
      }
    }
  }

  // ----- whole runs -----

  ghost predicate IsRun(states: seq<seq<Decision>>, calls: seq<Command>) {
    && |states| == |calls| + 1
    && Valid(states[0])
    && forall i :: 0 <= i < |calls| ==> StepsAt(states, calls, i)
  }

  ghost predicate StepsAt(states: seq<seq<Decision>>, calls: seq<Command>, i: nat)
    requires i < |calls| && |states| == |calls| + 1
  {
    Drawable(states[i], calls[i]) && states[i + 1] == Step(states[i], calls[i])
  }

  lemma {:induction false} ReachableStatesAreValid(states: seq<seq<Decision>>, calls: seq<Command>, n: nat)
    requires IsRun(states, calls) && n < |states|
    ensures Valid(states[n])
  {
    if n > 0 {
      ReachableStatesAreValid(states, calls, n - 1);
      assert StepsAt(states, calls, n - 1);
      StepKeepsValid(states[n - 1], calls[n - 1]);
    }
  }

  /** No run closes a supersession cycle of two or more Decisions. */
  lemma NoSupersessionCycle(states: seq<seq<Decision>>, calls: seq<Command>, n: nat, id: Id)
    requires IsRun(states, calls) && n < |states|
    ensures !LeadsTo(Links(states[n]), id, id)
  {
    ReachableStatesAreValid(states, calls, n);
    ForestIffNoCycle(Links(states[n]));
  }

  ghost predicate Settles(decisions: seq<Decision>, id: Id, last: Id) {
    && Chains.Reaches(Links(decisions), id, last)
    && Find(decisions, last).Some?
    && var d := Find(decisions, last).value;
       d.status == Approved || (d.status == Superseded && d.supersededBy == Some(last))
  }

  lemma {:induction false} ChainSettles(decisions: seq<Decision>, id: Id, n: nat) returns (last: Id)
    requires Valid(decisions)
    requires Find(decisions, id).Some? && Find(decisions, id).value.status in {Approved, Superseded}
    requires Follow(Links(decisions), id, n) == None
    ensures Settles(decisions, id, last)
    decreases n
  {
    LinksAt(decisions, id);
    var links := Links(decisions);
    assert Sound(decisions, Find(decisions, id).value);
    if id in links {
      last := ChainSettles(decisions, links[id], n - 1);
      ReachesStep(links, id, last);
    } else {
      last := id;
      assert Follow(links, id, 0) == Some(id);
    }
  }

  /**
   In every reachable state, following replacements from a superseded Decision arrives at a
   Decision that is approved or that replaced itself.
   */
  lemma SupersededDecisionsSettle(states: seq<seq<Decision>>, calls: seq<Command>, n: nat, id: Id) returns (last: Id)
    requires IsRun(states, calls) && n < |states|
    requires Find(states[n], id).Some? && Find(states[n], id).value.status == Superseded
    ensures Settles(states[n], id, last)
  {
    ReachableStatesAreValid(states, calls, n);
    assert Ends(Links(states[n]), id);
    var k: nat :| Follow(Links(states[n]), id, k) == None;
    last := ChainSettles(states[n], id, k);
  }

  // ----- the mutable store -----

  /** Each method throws, which is None here, or returns the Decision's new version. */
  class DecisionStore {
    var decisions: seq<Decision>

    /** The store starts with one proposed Decision that has two options. */
    constructor (id: Id, content: Content, first: Choice, second: Choice)
      ensures Valid(decisions)
      ensures decisions == [Decision(id, content, Proposed, 2, None, 1, 0, [], [first, second], None)]
    {
      decisions := [Decision(id, content, Proposed, 2, None, 1, 0, [], [first, second], None)];
      new;
      forall x
        ensures Ends(Links(decisions), x)
      {
        assert Follow(Links(decisions), x, 1) == None;
      }
    }

    method CreateDecision(newId: Id, content: Content, options: seq<Choice>) returns (result: Option<Id>)
      modifies this
      ensures decisions == Step(old(decisions), Create(newId, content, options))
      ensures result == if Accepts(old(decisions), Create(newId, content, options)) then Some(newId) else None
    {
      if !ContentOk(content) || !OptionsOk(options) {
        return None;
      }
      var detail := Decision(newId, content, Draft, 1, None, 1, 0, [], options, None);
      decisions := [detail] + decisions;
      return Some(newId);
    }

    method SaveDecisionDraft(id: Id, expectedVersion: nat, content: Content, options: seq<Choice>)
      returns (result: Option<nat>)
      modifies this
      ensures decisions == Step(old(decisions), SaveDraft(id, expectedVersion, content, options))
      ensures result == if Accepts(old(decisions), SaveDraft(id, expectedVersion, content, options))
                        then Some(expectedVersion + 1) else None
    {
      var detail := Find(decisions, id);
      if !ContentOk(content) || !OptionsOk(options) || detail.None? || detail.value.status != Draft ||
         detail.value.version != expectedVersion {
        return None;
      }
      var version := detail.value.version + 1;
      var next := detail.value.(content := content, version := version, options := options, approvals := []);
      decisions := Replaced(decisions, next);
      return Some(version);
    }

    method ProposeDecision(id: Id, expectedVersion: nat) returns (result: Option<nat>)
      modifies this
      ensures decisions == Step(old(decisions), Propose(id, expectedVersion))
      ensures result == if Accepts(old(decisions), Propose(id, expectedVersion))
                        then Some(expectedVersion + 1) else None
    {
      var detail := Find(decisions, id);
      if detail.None? || detail.value.version != expectedVersion || !MayBecome(detail.value.status, Proposed) {
        return None;
      }
      var version := detail.value.version + 1;
      decisions := Replaced(decisions, detail.value.(status := Proposed, requiredApprovals := 1, version := version));
      return Some(version);
    }

    method ReviewDecision(id: Id, expectedVersion: nat, approval: Approval) returns (result: Option<Status>)
      modifies this
      ensures decisions == Step(old(decisions), Review(id, expectedVersion, approval))
      ensures result.Some? <==> Accepts(old(decisions), Review(id, expectedVersion, approval))
      ensures result.Some? ==> Find(decisions, id).Some? && Find(decisions, id).value.status == result.value
    {
      if !ApprovalOk(approval) {
        return None;
      }
      var found := Find(decisions, id);
      if found.None? || found.value.status != Proposed || found.value.version != expectedVersion {
        return None;
      }
      var detail := found.value;
      if HasReviewed(detail.approvals, approval.reviewer) {
        return None;
      }
      if approval.selected.Some? && !HasOption(detail.options, approval.selected.value) {
        return None;
      }
      var approvalCount := detail.approvalCount + (if approval.approve then 1 else 0);
      var status := if !approval.approve then Rejected
                    else if approvalCount >= detail.requiredApprovals then Approved else Proposed;
      var next := detail.(status := status, approvalCount := approvalCount, version := detail.version + 1,
        selected := if status == Approved then approval.selected else None,
        approvals := detail.approvals + [approval]);
      FindReplaced(decisions, next, id);
      decisions := Replaced(decisions, next);
      return Some(status);
    }

    method SupersedeDecision(id: Id, expectedVersion: nat, replacementId: Id) returns (result: Option<nat>)
      modifies this
      ensures decisions == Step(old(decisions), Supersede(id, expectedVersion, replacementId))
      ensures result == if Accepts(old(decisions), Supersede(id, expectedVersion, replacementId))
                        then Some(expectedVersion + 1) else None
    {
      var detail, replacement := Find(decisions, id), Find(decisions, replacementId);
      if detail.None? || replacement.None? || detail.value.version != expectedVersion ||
         !MayBecome(detail.value.status, Superseded) || replacement.value.status != Approved {
        return None;
      }
      var version := detail.value.version + 1;
      var next := detail.value.(status := Superseded, supersededBy := Some(replacementId), version := version);
      decisions := Replaced(decisions, next);
      return Some(version);
    }
  }
}
