/** What each Activity call asks for and what it leaves behind, told apart from how the calls are modelled. */
module ActivityLaws {
  import opened Options
  import opened Text
  import opened DependencyGraph
  import opened Activities
  import opened ActivityRuns

  // ----- records, found by id -----

  /** The first Activity of that id stands at `k`. */
  ghost predicate FirstAt(activities: seq<Activity>, id: Id, k: nat) {
    k < |activities| && activities[k].id == id && forall j :: 0 <= j < k ==> activities[j].id != id
  }

  ghost predicate Listed(activities: seq<Activity>, id: Id) {
    exists k: nat :: FirstAt(activities, id, k)
  }

  ghost predicate CompletedIn(activities: seq<Activity>, id: Id) {
    exists k: nat :: FirstAt(activities, id, k) && activities[k].status == Completed
  }

  /** Whatever blocks `id` is completed, by the given list. */
  ghost predicate BlockersCompleted(s: State, activities: seq<Activity>, id: Id) {
    forall d :: d in s.dependencies && d.activityId == id && d.kind == Blocks ==> CompletedIn(activities, d.dependsOn)
  }

  /** The first Actor of that id may take on work. */
  ghost predicate MayBeAssigned(actors: seq<Actor>, id: Id) {
    exists k :: 0 <= k < |actors| && IsFirstActor(actors, id, k) && actors[k].active && actors[k].joined
  }

  ghost predicate IsFirstActor(actors: seq<Actor>, id: Id, k: nat)
    requires k < |actors|
  {
    actors[k].id == id && forall j :: 0 <= j < k ==> actors[j].id != id
  }

  /** The Activity that the call names stands at `k`, in the version that the caller saw. */
  ghost predicate Current(s: State, id: Id, version: nat, k: nat) {
    k < |s.activities| && s.activities[k].id == id && s.activities[k].version == version
  }

  lemma {:induction false} FindFirst(activities: seq<Activity>, id: Id, k: nat)
    requires FirstAt(activities, id, k)
    ensures Find(activities, id) == Some(activities[k])
  {
    if k > 0 {
      assert activities[0].id != id;
      assert FirstAt(activities[1..], id, k - 1);
      FindFirst(activities[1..], id, k - 1);
    }
  }

  lemma {:induction false} FoundFirst(activities: seq<Activity>, id: Id) returns (k: nat)
    requires Find(activities, id).Some?
    ensures FirstAt(activities, id, k)
  {
    if activities[0].id == id {
      k := 0;
    } else {
      k := FoundFirst(activities[1..], id);
      k := k + 1;
      assert forall j :: 0 < j < k ==> activities[j] == activities[1..][j - 1];
    }
  }

  lemma LookupsMean(activities: seq<Activity>, id: Id)
    ensures Find(activities, id).Some? <==> Listed(activities, id)
    ensures IsCompleted(activities, id) <==> CompletedIn(activities, id)
  {
    if Find(activities, id).Some? {
      var k := FoundFirst(activities, id);
      FindFirst(activities, id, k);
    }
    forall k: nat | FirstAt(activities, id, k) {
      FindFirst(activities, id, k);
    }
  }

  lemma UnblockedMeans(s: State, activities: seq<Activity>, id: Id)
    ensures Unblocked(s.dependencies, activities, id) <==> BlockersCompleted(s, activities, id)
  {
    forall d | d in s.dependencies {
      LookupsMean(activities, d.dependsOn);
    }
  }

  lemma {:induction false} ActorFirst(actors: seq<Actor>, id: Id, k: nat)
    requires k < |actors| && IsFirstActor(actors, id, k)
    ensures FindActor(actors, id) == Some(actors[k])
  {
    if k > 0 {
      assert actors[0].id != id;
      ActorFirst(actors[1..], id, k - 1);
    }
  }

  lemma {:induction false} ActorFound(actors: seq<Actor>, id: Id) returns (k: nat)
    requires FindActor(actors, id).Some?
    ensures k < |actors| && IsFirstActor(actors, id, k)
  {
    if actors[0].id == id {
      k := 0;
    } else {
      k := ActorFound(actors[1..], id);
      k := k + 1;
      assert forall j :: 0 < j < k ==> actors[j] == actors[1..][j - 1];
    }
  }

  lemma AssignableMeans(actors: seq<Actor>, assignee: Option<Id>)
    ensures Assignable(actors, assignee) <==> (assignee.Some? ==> MayBeAssigned(actors, assignee.value))
  {
    if assignee.Some? {
      if FindActor(actors, assignee.value).Some? {
        var k := ActorFound(actors, assignee.value);
        ActorFirst(actors, assignee.value, k);
      }
      forall k | 0 <= k < |actors| && IsFirstActor(actors, assignee.value, k) {
        ActorFirst(actors, assignee.value, k);
      }
    }
  }

  /** With unique ids the call finds exactly the Activity at `k`, and replacing it changes that place only. */
  lemma Located(s: State, id: Id, version: nat, k: nat)
    requires Valid(s) && Current(s, id, version, k)
    ensures Find(s.activities, id) == Some(s.activities[k])
    ensures forall next: Activity :: next.id == id ==> Replaced(s.activities, next) == s.activities[k := next]
  {
    FindUnique(s.activities, s.activities[k]);
  }

  lemma FoundIsCurrent(s: State, id: Id) returns (k: nat)
    requires Find(s.activities, id).Some?
    ensures Current(s, id, Find(s.activities, id).value.version, k) && s.activities[k] == Find(s.activities, id).value
  {
    k := FoundFirst(s.activities, id);
    FindFirst(s.activities, id, k);
  }

  /** The transition table read backwards: what a status can come from. */
  function CameFrom(status: Status): set<Status> {
    match status
    case Proposed => {}
    case Planned => {Proposed, Cancelled}
    case Ready => {Proposed, Planned, Paused, Blocked}
    case Active => {Proposed, Planned, Ready, Paused, Blocked, Completed}
    case Paused => {Planned, Ready, Active, Blocked}
    case Blocked => {Ready, Active, Paused}
    case Completed => {Active}
    case Cancelled => {Proposed, Planned, Ready, Active, Paused, Blocked}
    case Archived => {Proposed, Planned, Ready, Active, Paused, Blocked, Completed, Cancelled}
  }

  lemma TableBothWays(status: Status, next: Status)
    ensures next in Successors(status) <==> status in CameFrom(next)
  {
  }

  // ----- one call -----

  /** A call elsewhere always goes through; it replaces what Activities depend on, and leaves them alone. */
  lemma ElsewhereMeans(s: State, c: Command)
    requires c.Elsewhere?
    ensures Accepts(s, c) && Step(s, c) == State(s.activities, c.structuredWork, s.dependencies, s.outcomes, c.actors,
                                                 c.spaces)
  {
  }

  lemma RefusedChangesNothing(s: State, c: Command)
    ensures !Accepts(s, c) ==> Step(s, c) == s
  {
  }

  /** A new Activity is put in front, in version 1; nothing else changes. */
  lemma CreateMeans(s: State, c: Command)
    requires c.Create?
    ensures Accepts(s, c) <==>
            && c.title != "" && IsTrimmed(c.title) && |c.title| <= 200 && |c.description| <= 10_000
            && (c.assignee.Some? ==> MayBeAssigned(s.actors, c.assignee.value))
            && (c.parentId.Some? ==> exists k: nat :: FirstAt(s.activities, c.parentId.value, k) &&
                                                      s.activities[k].spaceId == c.spaceId)
            && (c.spaceId.Some? ==> c.spaceId.value in s.spaces)
    ensures Step(s, c) == if !Accepts(s, c) then s else
              s.(activities := [Activity(c.newId, c.parentId, c.spaceId, c.assignee, c.title, c.description,
                                         c.status, 1, false)] + s.activities)
  {
    AssignableMeans(s.actors, c.assignee);
    StrippedIsTrim(c.title, c.title);
    if c.parentId.Some? {
      if Find(s.activities, c.parentId.value).Some? {
        var k := FoundFirst(s.activities, c.parentId.value);
        FindFirst(s.activities, c.parentId.value, k);
      }
      forall k: nat | FirstAt(s.activities, c.parentId.value, k) {
        FindFirst(s.activities, c.parentId.value, k);
      }
    }
  }

  ghost predicate StatusMayChange(s: State, c: Command, k: nat)
    requires c.ChangeStatus?
  {
    && Current(s, c.activityId, c.expectedVersion, k)
    && var a := s.activities[k];
    && !a.structured && c.next != Completed && (a.status == c.next || a.status in CameFrom(c.next))
    && (c.next in {Ready, Active} ==> BlockersCompleted(s, s.activities, a.id))
  }

  lemma ChangeStatusAccepted(s: State, c: Command)
    requires Valid(s) && c.ChangeStatus?
    ensures Accepts(s, c) <==> exists k: nat :: StatusMayChange(s, c, k)
  {
    UnblockedMeans(s, s.activities, c.activityId);
    forall status: Status {
      TableBothWays(status, c.next);
    }
    if Accepts(s, c) {
      var k := FoundIsCurrent(s, c.activityId);
      assert StatusMayChange(s, c, k);
    }
    forall k: nat | Current(s, c.activityId, c.expectedVersion, k) {
      Located(s, c.activityId, c.expectedVersion, k);
    }
  }

  lemma ChangeStatusLeaves(s: State, c: Command, k: nat)
    requires Valid(s) && c.ChangeStatus?
    requires Accepts(s, c) && Current(s, c.activityId, c.expectedVersion, k)
    ensures Step(s, c) == s.(activities := s.activities[k := s.activities[k].(status := c.next,
                                                                               version := c.expectedVersion + 1)])
  {
    Located(s, c.activityId, c.expectedVersion, k);
  }

  ghost predicate EdgeMayBeAdded(s: State, c: Command, k: nat)
    requires c.AddDependency?
  {
    && Current(s, c.activityId, c.expectedVersion, k) && Listed(s.All(), c.dependsOn) && c.activityId != c.dependsOn
    && (forall d :: d in s.dependencies ==>
          !(d.activityId == c.activityId && d.dependsOn == c.dependsOn && d.kind == c.kind))
    && (c.kind == Blocks && s.activities[k].status in {Ready, Active, Completed} ==> CompletedIn(s.All(), c.dependsOn))
    && (c.kind != RelatesTo ==> !Reaches(s.dependencies, c.dependsOn, c.activityId))
  }

  lemma AddDependencyAccepted(s: State, c: Command)
    requires Valid(s) && c.AddDependency?
    ensures Accepts(s, c) <==> exists k: nat :: EdgeMayBeAdded(s, c, k)
  {
    LookupsMean(s.All(), c.dependsOn);
    if c.kind != RelatesTo {
      NewEdgeClosesCycleIff(s.dependencies, Edge(c));
    }
    if Accepts(s, c) {
      var k := FoundIsCurrent(s, c.activityId);
      assert EdgeMayBeAdded(s, c, k);
    }
    forall k: nat | Current(s, c.activityId, c.expectedVersion, k) {
      Located(s, c.activityId, c.expectedVersion, k);
    }
  }

  /** An accepted edge goes to the end of the list, in version 1, and raises the version of its Activity. */
  lemma AddDependencyLeaves(s: State, c: Command, k: nat)
    requires Valid(s) && c.AddDependency?
    requires Accepts(s, c) && Current(s, c.activityId, c.expectedVersion, k)
    ensures Step(s, c) == s.(activities := s.activities[k := s.activities[k].(version := c.expectedVersion + 1)],
                             dependencies := s.dependencies +
                               [Dependency(c.newId, c.activityId, c.dependsOn, c.kind, 1)])
  {
    Located(s, c.activityId, c.expectedVersion, k);
  }

  /** `found` is the first entry of that id. */
  ghost predicate FirstDependency(deps: seq<Dependency>, id: Id, found: Dependency) {
    exists k :: 0 <= k < |deps| && deps[k] == found && found.id == id && forall j :: 0 <= j < k ==> deps[j].id != id
  }

  lemma {:induction false} DependencyFound(deps: seq<Dependency>, id: Id)
    ensures FindDependency(deps, id).None? ==> forall d :: d in deps ==> d.id != id
    ensures forall d :: FirstDependency(deps, id, d) <==> FindDependency(deps, id) == Some(d)
  {
    if deps != [] {
      DependencyFound(deps[1..], id);
      if deps[0].id == id {
        assert FirstDependency(deps, id, deps[0]);
      } else {
        forall d
          ensures FirstDependency(deps, id, d) <==> FirstDependency(deps[1..], id, d)
        {
          if FirstDependency(deps, id, d) {
            var k :| 0 <= k < |deps| && deps[k] == d && d.id == id && forall j :: 0 <= j < k ==> deps[j].id != id;
            assert deps[1..][k - 1] == d;
          }
          if FirstDependency(deps[1..], id, d) {
            var k :| 0 <= k < |deps| - 1 && deps[1..][k] == d && forall j :: 0 <= j < k ==> deps[1..][j].id != id;
            assert deps[k + 1] == d && forall j :: 0 < j < k + 1 ==> deps[j] == deps[1..][j - 1];
          }
        }
      }
    }
  }

  ghost predicate EdgeMayBeRemoved(s: State, c: Command, k: nat)
    requires c.RemoveDependency?
  {
    && Current(s, c.activityId, c.expectedVersion, k)
    && exists d :: FirstDependency(s.dependencies, c.dependencyId, d) &&
                   d.activityId == c.activityId && d.version == c.dependencyVersion
  }

  lemma WithoutHead(deps: seq<Dependency>, id: Id)
    requires deps != []
    ensures Without(deps, id) == (if deps[0].id == id then [] else [deps[0]]) + Without(deps[1..], id)
  {
  }

  lemma Associative<T>(a: seq<T>, b: seq<T>, c: seq<T>)
    ensures a + (b + c) == (a + b) + c
  {
  }

  /** Taking entries out acts on each part of the list by itself, so the others keep their order. */
  lemma {:induction false} WithoutAppend(before: seq<Dependency>, after: seq<Dependency>, id: Id)
    ensures Without(before + after, id) == Without(before, id) + Without(after, id)
  {
    if before == [] {
      assert before + after == after;
    } else {
      var head, rest := if before[0].id == id then [] else [before[0]], Without(before[1..], id);
      WithoutAppend(before[1..], after, id);
      assert (before + after)[1..] == before[1..] + after;
      Associative(head, rest, Without(after, id));
      WithoutHead(before + after, id);
    }
  }

  lemma RemoveDependencyAccepted(s: State, c: Command)
    requires Valid(s) && c.RemoveDependency?
    ensures Accepts(s, c) <==> exists k: nat :: EdgeMayBeRemoved(s, c, k)
  {
    DependencyFound(s.dependencies, c.dependencyId);
    if Accepts(s, c) {
      var k := FoundIsCurrent(s, c.activityId);
      assert EdgeMayBeRemoved(s, c, k);
    }
    forall k: nat | Current(s, c.activityId, c.expectedVersion, k) {
      Located(s, c.activityId, c.expectedVersion, k);
    }
  }

  /** The entries of that id go; the others stay, in their order. */
  lemma RemoveDependencyLeaves(s: State, c: Command, k: nat)
    requires Valid(s) && c.RemoveDependency?
    requires Accepts(s, c) && Current(s, c.activityId, c.expectedVersion, k)
    ensures Step(s, c) == s.(activities := s.activities[k := s.activities[k].(version := c.expectedVersion + 1)],
                             dependencies := Without(s.dependencies, c.dependencyId))
    ensures forall d :: d in Step(s, c).dependencies <==> d in s.dependencies && d.id != c.dependencyId
  {
    Located(s, c.activityId, c.expectedVersion, k);
  }

  ghost predicate MayBeCompleted(s: State, c: Command, k: nat)
    requires c.Complete?
  {
    && Current(s, c.activityId, c.expectedVersion, k)
    && s.activities[k].status in {Active, Completed}
    && (exists i :: 0 <= i < |c.summary| && !IsWhite(c.summary[i]))
    && |c.evidence| <= 100 && (forall i, j :: 0 <= i < j < |c.evidence| ==> c.evidence[i] != c.evidence[j])
    && BlockersCompleted(s, s.All(), c.activityId)
  }

  lemma NotBlank(s: string)
    ensures Trim(s) != "" <==> exists i :: 0 <= i < |s| && !IsWhite(s[i])
  {
    TrimStrips(s);
    var i, j :| 0 <= i <= j <= |s| && IsCut(s, Trim(s), i, j);
    if Trim(s) != "" {
      assert s[i] == Trim(s)[0];
    } else {
      assert forall m :: 0 <= m < |s| ==> s[m] == if m < i then s[..i][m] else s[j..][m - j];
    }
  }

  lemma CompleteAccepted(s: State, c: Command)
    requires Valid(s) && c.Complete?
    ensures Accepts(s, c) <==> exists k: nat :: MayBeCompleted(s, c, k)
  {
    NotBlank(c.summary);
    UnblockedMeans(s, s.All(), c.activityId);
    if Accepts(s, c) {
      var k := FoundIsCurrent(s, c.activityId);
      assert MayBeCompleted(s, c, k);
    }
    forall k: nat | Current(s, c.activityId, c.expectedVersion, k) {
      Located(s, c.activityId, c.expectedVersion, k);
    }
  }

  /** Completion stamps the next outcome with the next version and the summary stripped of white ends. */
  lemma CompleteLeaves(s: State, c: Command, summary: string, k: nat)
    requires Valid(s) && c.Complete? && Stripped(c.summary, summary)
    requires Accepts(s, c) && Current(s, c.activityId, c.expectedVersion, k)
    ensures var earlier := if c.activityId in s.outcomes then s.outcomes[c.activityId].version else 0;
            Step(s, c) == s.(activities := s.activities[k := s.activities[k].(status := Completed,
                                                                               version := c.expectedVersion + 1)],
                             outcomes := s.outcomes[c.activityId :=
                               Outcome(earlier + 1, c.expectedVersion + 1, summary, c.evidence)])
  {
    StrippedIsTrim(c.summary, summary);
    Located(s, c.activityId, c.expectedVersion, k);
  }

  ghost predicate MayBeReassigned(s: State, c: Command, k: nat)
    requires c.Assign?
  {
    && Current(s, c.activityId, c.expectedVersion, k) && !s.activities[k].structured
    && (c.assignee.Some? ==> MayBeAssigned(s.actors, c.assignee.value))
  }

  lemma AssignAccepted(s: State, c: Command)
    requires Valid(s) && c.Assign?
    ensures Accepts(s, c) <==> exists k: nat :: MayBeReassigned(s, c, k)
  {
    AssignableMeans(s.actors, c.assignee);
    if Accepts(s, c) {
      var k := FoundIsCurrent(s, c.activityId);
      assert MayBeReassigned(s, c, k);
    }
    forall k: nat | Current(s, c.activityId, c.expectedVersion, k) {
      Located(s, c.activityId, c.expectedVersion, k);
    }
  }

  lemma AssignLeaves(s: State, c: Command, k: nat)
    requires Valid(s) && c.Assign?
    requires Accepts(s, c) && Current(s, c.activityId, c.expectedVersion, k)
    ensures Step(s, c) == s.(activities := s.activities[k := s.activities[k].(assignee := c.assignee,
                                                                               version := c.expectedVersion + 1)])
  {
    Located(s, c.activityId, c.expectedVersion, k);
  }

  // ----- edges over runs -----

  /** Only these calls change the list of dependencies. */
  lemma OtherCallsKeepEdges(s: State, c: Command)
    requires Valid(s) && !c.AddDependency? && !c.RemoveDependency?
    ensures Step(s, c).dependencies == s.dependencies
  {
  }

  ghost predicate Removes(s: State, c: Command, id: Id) {
    c.RemoveDependency? && c.dependencyId == id && Accepts(s, c)
  }

  lemma StepKeepsEdge(s: State, c: Command, d: Dependency)
    requires Valid(s) && d in s.dependencies && !Removes(s, c, d.id)
    ensures d in Step(s, c).dependencies
  {
    if !Accepts(s, c) {
      RefusedChangesNothing(s, c);
    } else if c.RemoveDependency? {
      var k := FoundIsCurrent(s, c.activityId);
      RemoveDependencyLeaves(s, c, k);
    } else if c.AddDependency? {
      var k := FoundIsCurrent(s, c.activityId);
      AddDependencyLeaves(s, c, k);
    } else {
      OtherCallsKeepEdges(s, c);
    }
  }

  /** An accepted edge is in the list right after the call, and stays until it is removed. */
  lemma {:induction false} EdgeStays(states: seq<State>, calls: seq<Command>, i: nat, j: nat)
    requires IsRun(states, calls) && i < j <= |calls|
    requires calls[i].AddDependency? && Accepts(states[i], calls[i])
    requires forall k :: i < k < j ==> !Removes(states[k], calls[k], calls[i].newId)
    ensures Dependency(calls[i].newId, calls[i].activityId, calls[i].dependsOn, calls[i].kind, 1)
            in states[j].dependencies
    decreases j
  {
    var c := calls[i];
    ReachableStatesAreValid(states, calls, j - 1);
    assert StepsAt(states, calls, j - 1);
    if j == i + 1 {
      var k := FoundIsCurrent(states[i], c.activityId);
      AddDependencyLeaves(states[i], c, k);
    } else {
      EdgeStays(states, calls, i, j - 1);
      StepKeepsEdge(states[j - 1], calls[j - 1], Dependency(c.newId, c.activityId, c.dependsOn, c.kind, 1));
    }
  }

  /** While an edge is in the list, no edge is accepted that leads back along it. */
  lemma OppositeIsRefused(s: State, c: Command, d: Dependency)
    requires Valid(s) && d in s.dependencies && d.kind != RelatesTo
    requires c.AddDependency? && c.kind != RelatesTo
    requires Reaches(s.dependencies, c.dependsOn, d.activityId) && Reaches(s.dependencies, d.dependsOn, c.activityId)
    ensures !Accepts(s, c)
  {
    AddDependencyAccepted(s, c);
    assert HasEdge(s.dependencies, d.activityId, d.dependsOn);
    ReachesFirst(s.dependencies, d.activityId, d.dependsOn, c.activityId);
    ReachesTransitive(s.dependencies, c.dependsOn, d.activityId, c.activityId);
  }
}
