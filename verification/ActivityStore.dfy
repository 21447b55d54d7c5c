/** The mutable Activity store of the development API, proved against the state machine. */
module ActivityStores {
  import opened Options
  import opened Text
  import opened DependencyGraph
  import opened Activities
  import ActivityRuns

  const DIRECT_ACTIVITY := "018f1f3e-7b5a-7d40-8f43-4fe1dc555b11"
  const DEPENDENT_ACTIVITY := "018f1f3e-7b5a-7d40-8f43-4fe1dc555b12"
  const SEED_DEPENDENCY := "018f1f3e-7b5a-7d40-8f43-4fe1dc555b16"

  /** A planned Activity blocked by an active one, beside any structured work, Actors and Spaces. */
  function Seed(structuredWork: seq<Activity>, actors: seq<Actor>, spaces: set<Id>,
                space: Id, agent: Id, member: Id): State
  {
    State([Activity(DIRECT_ACTIVITY, None, Some(space), Some(agent),
                    "Map evidence gaps in the fictional habitat study", "Collect unanswered questions.",
                    Active, 1, false),
           Activity(DEPENDENT_ACTIVITY, Some(DIRECT_ACTIVITY), Some(space), Some(member),
                    "Validate the fictional sampling method", "Run a repeatability check.", Planned, 1, false)],
          structuredWork, [Dependency(SEED_DEPENDENCY, DEPENDENT_ACTIVITY, DIRECT_ACTIVITY, Blocks, 1)],
          map[], actors, spaces)
  }

  lemma SeedIsValid(structuredWork: seq<Activity>, actors: seq<Actor>, spaces: set<Id>,
                    space: Id, agent: Id, member: Id)
    requires forall a :: a in structuredWork ==> a.id != ""
    ensures var s := Seed(structuredWork, actors, spaces, space, agent, member);
            && Valid(s) && ActivityRuns.Justified(s, ActivityRuns.CompletedIds(s))
            && Find(s.activities, DEPENDENT_ACTIVITY) == Some(s.activities[1])
  {
    var s := Seed(structuredWork, actors, spaces, space, agent, member);
    assert DIRECT_ACTIVITY[35] != DEPENDENT_ACTIVITY[35];
    assert s.activities[1..] == [s.activities[1]];
    SingleEdgeAcyclic(s.dependencies[0]);
  }

  /**
   Each method either throws, which is None here, or returns; both ways the new state is the
   one `Step` names, so `StepKeepsValid` carries `Valid` across every call.
   */
  class ActivityStore {
    var directActivities: seq<Activity>
    var structuredWork: seq<Activity>
    var activityDependencies: seq<Dependency>
    var activityOutcomes: map<Id, Outcome>
    var actors: seq<Actor>
    var spaces: set<Id>

    ghost function Abs(): State
      reads this
    {
      State(directActivities, structuredWork, activityDependencies, activityOutcomes, actors, spaces)
    }

    /** The store starts with a planned Activity blocked by an active one. */
    constructor (structuredWork: seq<Activity>, actors: seq<Actor>, spaces: set<Id>, space: Id, agent: Id, member: Id)
      requires forall a :: a in structuredWork ==> a.id != ""
      ensures Valid(Abs()) && ActivityRuns.Justified(Abs(), ActivityRuns.CompletedIds(Abs()))
      ensures activityDependencies == [Dependency(SEED_DEPENDENCY, DEPENDENT_ACTIVITY, DIRECT_ACTIVITY, Blocks, 1)]
      ensures Find(directActivities, DEPENDENT_ACTIVITY).Some? &&
              Find(directActivities, DEPENDENT_ACTIVITY).value.status == Planned
      ensures activityOutcomes == map[]
    {
      var start := Seed(structuredWork, actors, spaces, space, agent, member);
      this.directActivities, this.activityDependencies := start.activities, start.dependencies;
      this.structuredWork, this.actors, this.spaces := structuredWork, actors, spaces;
      this.activityOutcomes := map[];
      new;
      assert Abs() == start;
      SeedIsValid(structuredWork, actors, spaces, space, agent, member);
    }

    method CreateActivity(newId: Id, parentId: Option<Id>, spaceId: Option<Id>, assignee: Option<Id>,
                          title: string, description: string, status: Status) returns (result: Option<Id>)
      modifies this
      ensures var c := Create(newId, parentId, spaceId, assignee, title, description, status);
              && Abs() == Step(old(Abs()), c)
              && result == if old(Accepts(Abs(), c)) then Some(newId) else None
    {
      if !(NonBlank(title, 200) && |description| <= 10_000) || !Assignable(actors, assignee) {
        return None;
      }
      if parentId.Some? {
        var parent := Find(directActivities, parentId.value);
        if parent.None? || parent.value.spaceId != spaceId {
          return None;
        }
      }
      if spaceId.Some? && spaceId.value !in spaces {
        return None;
      }
      var activity := Activity(newId, parentId, spaceId, assignee, title, description, status, 1, false);
      directActivities := [activity] + directActivities;
      return Some(newId);
    }

    method ChangeActivityStatus(activityId: Id, expectedVersion: nat, next: Status) returns (result: Option<nat>)
      modifies this
      ensures var c := ChangeStatus(activityId, expectedVersion, next);
              && Abs() == Step(old(Abs()), c)
              && result == if old(Accepts(Abs(), c)) then Some(expectedVersion + 1) else None
    {
      var found := Find(directActivities, activityId);
      if found.None? || found.value.structured || found.value.version != expectedVersion {
        return None;
      }
      var activity := found.value;
      if next == Completed || !MayBecome(activity.status, next) {
        return None;
      }
      if (next == Ready || next == Active) && !Unblocked(activityDependencies, directActivities, activityId) {
        return None;
      }
      var nextVersion := activity.version + 1;
      directActivities := Replaced(directActivities, activity.(status := next, version := nextVersion));
      return Some(nextVersion);
    }

    method AddActivityDependency(newId: Id, activityId: Id, expectedVersion: nat, dependsOn: Id, kind: Kind)
      returns (result: Option<nat>)
      requires Valid(Abs())
      modifies this
      ensures var c := AddDependency(newId, activityId, expectedVersion, dependsOn, kind);
              && Abs() == Step(old(Abs()), c)
              && result == if old(Accepts(Abs(), c)) then Some(expectedVersion + 1) else None
    {
      ghost var s, c := Abs(), AddDependency(newId, activityId, expectedVersion, dependsOn, kind);
      var found := Find(directActivities, activityId);
      var predecessor := Find(directActivities + structuredWork, dependsOn);
      if found.None? || predecessor.None? || found.value.version != expectedVersion || activityId == dependsOn {
        return None;
      }
      var activity := found.value;
      if AlreadyListed(activityDependencies, activityId, dependsOn, kind) {
        return None;
      }
      if kind == Blocks && InProgress(activity.status) && predecessor.value.status != Completed {
        return None;
      }
      var edge := Dependency(newId, activityId, dependsOn, kind, 1);
      if kind != RelatesTo {
        SearchReady(Abs(), activityId, dependsOn);
        var closes := ClosesCycle(activityDependencies, edge);
        if closes {
          return None;
        }
      }
      activityDependencies := activityDependencies + [edge];
      var nextVersion := activity.version + 1;
      directActivities := Replaced(directActivities, activity.(version := nextVersion));
      return Some(nextVersion);
    }

    method RemoveActivityDependency(activityId: Id, expectedVersion: nat, dependencyId: Id, dependencyVersion: nat)
      returns (result: Option<nat>)
      modifies this
      ensures var c := RemoveDependency(activityId, expectedVersion, dependencyId, dependencyVersion);
              && Abs() == Step(old(Abs()), c)
              && result == if old(Accepts(Abs(), c)) then Some(expectedVersion + 1) else None
    {
      var found := Find(directActivities, activityId);
      var dependency := FindDependency(activityDependencies, dependencyId);
      if found.None? || dependency.None? || dependency.value.activityId != activityId {
        return None;
      }
      if found.value.version != expectedVersion || dependency.value.version != dependencyVersion {
        return None;
      }
      activityDependencies := Without(activityDependencies, dependencyId);
      var nextVersion := found.value.version + 1;
      directActivities := Replaced(directActivities, found.value.(version := nextVersion));
      return Some(nextVersion);
    }

    method CompleteActivity(activityId: Id, expectedVersion: nat, summary: string, evidence: seq<Id>)
      returns (result: Option<nat>)
      modifies this
      ensures var c := Complete(activityId, expectedVersion, summary, evidence);
              && Abs() == Step(old(Abs()), c)
              && result == if old(Accepts(Abs(), c)) then Some(expectedVersion + 1) else None
    {
      var found := Find(directActivities, activityId);
      if found.None? || found.value.version != expectedVersion || !MayBecome(found.value.status, Completed) {
        return None;
      }
      var activity := found.value;
      if Trim(summary) == "" || |evidence| > 100 || !DistinctIds(evidence) {
        return None;
      }
      if !Unblocked(activityDependencies, directActivities + structuredWork, activityId) {
        return None;
      }
      var nextVersion := activity.version + 1;
      var previous := if activityId in activityOutcomes then activityOutcomes[activityId].version else 0;
      activityOutcomes := activityOutcomes[activityId := Outcome(previous + 1, nextVersion, Trim(summary), evidence)];
      directActivities := Replaced(directActivities, activity.(status := Completed, version := nextVersion));
      return Some(nextVersion);
    }

    method AssignActivity(activityId: Id, expectedVersion: nat, assignee: Option<Id>) returns (result: Option<nat>)
      modifies this
      ensures var c := Assign(activityId, expectedVersion, assignee);
              && Abs() == Step(old(Abs()), c)
              && result == if old(Accepts(Abs(), c)) then Some(expectedVersion + 1) else None
    {
      var found := Find(directActivities, activityId);
      if found.None? || found.value.structured || found.value.version != expectedVersion {
        return None;
      }
      if !Assignable(actors, assignee) {
        return None;
      }
      var nextVersion := found.value.version + 1;
      directActivities := Replaced(directActivities, found.value.(assignee := assignee, version := nextVersion));
      return Some(nextVersion);
    }
  }

  lemma SearchReady(s: State, activityId: Id, dependsOn: Id)
    requires Valid(s) && Find(s.activities, activityId).Some? && Find(s.All(), dependsOn).Some?
    ensures activityId != "" && dependsOn != "" && Acyclic(s.dependencies)
    ensures forall d :: d in s.dependencies ==> d.dependsOn != ""
  {
    FindSound(s.activities, activityId);
    FindSound(s.All(), dependsOn);
  }
}
