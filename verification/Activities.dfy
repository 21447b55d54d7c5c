/** Activities, their dependencies and their outcomes as one state machine. */
module Activities {
  import opened Options
  import opened Text
  import opened DependencyGraph

  datatype Status = Proposed | Planned | Ready | Active | Paused | Blocked | Completed | Cancelled | Archived

  function Successors(status: Status): set<Status> {
    match status
    case Proposed => {Planned, Ready, Active, Cancelled, Archived}
    case Planned => {Ready, Active, Paused, Cancelled, Archived}
    case Ready => {Active, Paused, Blocked, Cancelled, Archived}
    case Active => {Paused, Blocked, Completed, Cancelled, Archived}
    case Paused => {Ready, Active, Blocked, Cancelled, Archived}
    case Blocked => {Ready, Active, Paused, Cancelled, Archived}
    case Completed => {Active, Archived}
    case Cancelled => {Planned, Archived}
    case Archived => {}
  }

  /** The guard `assertActivityTransition`. */
  predicate MayBecome(current: Status, next: Status) {
    current == next || next in Successors(current)
  }

  /** `structured` marks Activities that mirror a Goal, Project, Quest or Step. */
  datatype Activity = Activity(id: Id, parentId: Option<Id>, spaceId: Option<Id>, assignee: Option<Id>,
                               title: string, description: string, status: Status, version: nat,
                               structured: bool)

  datatype Outcome = Outcome(version: nat, activityVersion: nat, summary: string, evidence: seq<Id>)

  /** `joined`: the membership is preboarding or active. */
  datatype Actor = Actor(id: Id, active: bool, joined: bool)

  datatype State = State(activities: seq<Activity>, structuredWork: seq<Activity>, dependencies: seq<Dependency>,
                         outcomes: map<Id, Outcome>, actors: seq<Actor>, spaces: set<Id>)
  {
    function All(): seq<Activity> {
      activities + structuredWork
    }
  }

  /** One call on the API; `newId` is the UUID it draws. `Elsewhere` is any call that leaves Activities alone. */
  datatype Command =
    | Create(newId: Id, parentId: Option<Id>, spaceId: Option<Id>, assignee: Option<Id>,
             title: string, description: string, status: Status)
    | ChangeStatus(activityId: Id, expectedVersion: nat, next: Status)
    | AddDependency(newId: Id, activityId: Id, expectedVersion: nat, dependsOn: Id, kind: Kind)
    | RemoveDependency(activityId: Id, expectedVersion: nat, dependencyId: Id, dependencyVersion: nat)
    | Complete(activityId: Id, expectedVersion: nat, summary: string, evidence: seq<Id>)
    | Assign(activityId: Id, expectedVersion: nat, assignee: Option<Id>)
    | Elsewhere(structuredWork: seq<Activity>, actors: seq<Actor>, spaces: set<Id>)

  // ----- lookups -----

  function Find(activities: seq<Activity>, id: Id): (r: Option<Activity>)
    ensures r.Some? ==> r.value.id == id
  {
    if activities == [] then None
    else if activities[0].id == id then Some(activities[0])
    else Find(activities[1..], id)
  }

  lemma {:induction false} FindSound(activities: seq<Activity>, id: Id)
    ensures match Find(activities, id)
            case Some(a) => a in activities
            case None => forall a :: a in activities ==> a.id != id
  {
    if activities != [] && activities[0].id != id {
      FindSound(activities[1..], id);
    }
  }

  function FindActor(actors: seq<Actor>, id: Id): Option<Actor> {
    if actors == [] then None
    else if actors[0].id == id then Some(actors[0])
    else FindActor(actors[1..], id)
  }

  function FindDependency(deps: seq<Dependency>, id: Id): (r: Option<Dependency>)
    ensures r.Some? ==> r.value in deps && r.value.id == id
  {
    if deps == [] then None
    else if deps[0].id == id then Some(deps[0])
    else FindDependency(deps[1..], id)
  }

  predicate Assignable(actors: seq<Actor>, assignee: Option<Id>) {
    assignee.Some? ==>
      var actor := FindActor(actors, assignee.value);
      actor.Some? && actor.value.active && actor.value.joined
  }

  predicate IsCompleted(activities: seq<Activity>, id: Id) {
    var found := Find(activities, id);
    found.Some? && found.value.status == Completed
  }

  /** Every `blocks` predecessor of `id` is, by the given list, completed. */
  predicate Unblocked(deps: seq<Dependency>, activities: seq<Activity>, id: Id) {
    forall d :: d in deps && d.activityId == id && d.kind == Blocks ==> IsCompleted(activities, d.dependsOn)
  }

  predicate AlreadyListed(deps: seq<Dependency>, id: Id, dependsOn: Id, kind: Kind) {
    exists d :: d in deps && d.activityId == id && d.dependsOn == dependsOn && d.kind == kind
  }

  function Replaced(activities: seq<Activity>, next: Activity): seq<Activity> {
    seq(|activities|, i requires 0 <= i < |activities| =>
      if activities[i].id == next.id then next else activities[i])
  }

  function Without(deps: seq<Dependency>, id: Id): (r: seq<Dependency>)
    ensures forall d :: d in r <==> d in deps && d.id != id
  {
    if deps == [] then []
    else if deps[0].id == id then Without(deps[1..], id)
    else [deps[0]] + Without(deps[1..], id)
  }

  predicate InProgress(status: Status) {
    status == Ready || status == Active || status == Completed
  }

  predicate DistinctIds(ids: seq<Id>) {
    forall i, j :: 0 <= i < j < |ids| ==> ids[i] != ids[j]
  }

  // ----- what each call does -----

  function Edge(c: Command): Dependency
    requires c.AddDependency?
  {
    Dependency(c.newId, c.activityId, c.dependsOn, c.kind, 1)
  }

  /** The calls that succeed; every other call throws and changes nothing. */
  ghost predicate Accepts(s: State, c: Command) {
    match c
    case Create(_, parentId, spaceId, assignee, title, description, _) =>
      && NonBlank(title, 200) && |description| <= 10_000
      && Assignable(s.actors, assignee)
      && (parentId.Some? ==>
            var parent := Find(s.activities, parentId.value);
            parent.Some? && parent.value.spaceId == spaceId)
      && (spaceId.Some? ==> spaceId.value in s.spaces)
    case Elsewhere(_, _, _) => true
    case _ =>
      var found := Find(s.activities, c.activityId);
      && found.Some?
      && found.value.version == c.expectedVersion
      && AcceptsRevision(s, found.value, c)
  }

  ghost predicate AcceptsRevision(s: State, activity: Activity, c: Command)
    requires !c.Create? && !c.Elsewhere?
  {
    match c
    case ChangeStatus(id, _, next) =>
      && !activity.structured
      && next != Completed && MayBecome(activity.status, next)
      && (next == Ready || next == Active ==> Unblocked(s.dependencies, s.activities, id))
    case AddDependency(_, id, _, dependsOn, kind) =>
      && Find(s.All(), dependsOn).Some?
      && id != dependsOn
      && !AlreadyListed(s.dependencies, id, dependsOn, kind)
      && (kind == Blocks && InProgress(activity.status) ==> IsCompleted(s.All(), dependsOn))
      && (kind != RelatesTo ==> Acyclic(s.dependencies + [Edge(c)]))
    case RemoveDependency(id, _, dependencyId, dependencyVersion) =>
      var dependency := FindDependency(s.dependencies, dependencyId);
      && dependency.Some? && dependency.value.activityId == id
      && dependency.value.version == dependencyVersion
    case Complete(id, _, summary, evidence) =>
      && MayBecome(activity.status, Completed)
      && Trim(summary) != "" && |evidence| <= 100 && DistinctIds(evidence)
      && Unblocked(s.dependencies, s.All(), id)
    case Assign(_, _, assignee) =>
      !activity.structured && Assignable(s.actors, assignee)
  }

  /** The guards on a new edge before the search: what it names exists, and its kind is not listed yet. */
  predicate EdgeAdmissible(s: State, c: Command)
    requires c.AddDependency?
  {
    var found := Find(s.activities, c.activityId);
    && found.Some? && Find(s.All(), c.dependsOn).Some? && found.value.version == c.expectedVersion
    && c.activityId != c.dependsOn
    && !AlreadyListed(s.dependencies, c.activityId, c.dependsOn, c.kind)
    && (c.kind == Blocks && InProgress(found.value.status) ==> IsCompleted(s.All(), c.dependsOn))
  }

  /** The version after a successful call on an Activity. */
  function Revised(activity: Activity, c: Command): Activity {
    var next := activity.(version := activity.version + 1);
    match c
    case ChangeStatus(_, _, status) => next.(status := status)
    case Complete(_, _, _, _) => next.(status := Completed)
    case Assign(_, _, assignee) => next.(assignee := assignee)
    case _ => next
  }

  function NextOutcome(s: State, activity: Activity, c: Command): Outcome
    requires c.Complete?
  {
    var previous := if activity.id in s.outcomes then s.outcomes[activity.id].version else 0;
    Outcome(previous + 1, activity.version + 1, Trim(c.summary), c.evidence)
  }

  /** The state after a call that revises `activity`. */
  function AfterRevision(s: State, activity: Activity, c: Command): State
    requires !c.Create? && !c.Elsewhere?
  {
    var s' := s.(activities := Replaced(s.activities, Revised(activity, c)));
    if c.AddDependency? then s'.(dependencies := s.dependencies + [Edge(c)])
    else if c.RemoveDependency? then s'.(dependencies := Without(s.dependencies, c.dependencyId))
    else if c.Complete? then s'.(outcomes := s.outcomes[activity.id := NextOutcome(s, activity, c)])
    else s'
  }

  ghost function Step(s: State, c: Command): State {
    if !Accepts(s, c) then s
    else if c.Create? then
      var created :=
        Activity(c.newId, c.parentId, c.spaceId, c.assignee, c.title, c.description, c.status, 1, false);
      s.(activities := [created] + s.activities)
    else if c.Elsewhere? then
      s.(structuredWork := c.structuredWork, actors := c.actors, spaces := c.spaces)
    else
      AfterRevision(s, Find(s.activities, c.activityId).value, c)
  }

  // ----- the invariant -----

  ghost predicate UniqueIds(activities: seq<Activity>) {
    forall i, j :: 0 <= i < j < |activities| ==> activities[i].id != activities[j].id
  }

  ghost predicate Valid(s: State) {
    && UniqueIds(s.activities)
    && (forall a :: a in s.All() ==> a.id != "")
    && (forall d :: d in s.dependencies ==> Find(s.activities, d.activityId).Some? && d.dependsOn != "")
    && Acyclic(s.dependencies)
    && (forall id :: id in s.outcomes ==>
          Find(s.activities, id).Some? && s.outcomes[id].activityVersion <= Find(s.activities, id).value.version)
  }

  /** What UUIDs guarantee: a drawn id is not empty and names no other Activity. */
  predicate Drawable(s: State, c: Command) {
    match c
    case Create(id, _, _, _, _, _, _) => id != "" && Find(s.activities, id).None?
    case Elsewhere(structuredWork, _, _) => forall a :: a in structuredWork ==> a.id != ""
    case _ => true
  }

  lemma {:induction false} FindUnique(activities: seq<Activity>, a: Activity)
    requires UniqueIds(activities) && a in activities
    ensures Find(activities, a.id) == Some(a)
  {
    if activities[0] != a {
      var i :| 0 <= i < |activities| && activities[i] == a;
      FindUnique(activities[1..], a);
    }
  }

  /** Replacing one Activity changes that lookup and no other. */
  lemma {:induction false} FindReplaced(activities: seq<Activity>, next: Activity, id: Id)
    ensures Find(Replaced(activities, next), id) ==
            if id == next.id && Find(activities, id).Some? then Some(next) else Find(activities, id)
  {
    if activities != [] {
      FindReplaced(activities[1..], next, id);
      assert Replaced(activities, next)[1..] == Replaced(activities[1..], next);
    }
  }

  lemma CreateKeepsValid(s: State, c: Command)
    requires Valid(s) && Drawable(s, c) && c.Create? && Accepts(s, c)
    ensures Valid(Step(s, c))
  {
    var s' := Step(s, c);
    assert s'.activities[1..] == s.activities;
    FindSound(s.activities, c.newId);
    forall j | 0 <= j < |s.activities|
      ensures s.activities[j].id != c.newId
    {
      assert s.activities[j] in s.activities;
    }
    assert forall id :: id != c.newId ==> Find(s'.activities, id) == Find(s.activities, id);
  }

  lemma ReplacedKeepsIds(activities: seq<Activity>, next: Activity)
    requires UniqueIds(activities)
    ensures UniqueIds(Replaced(activities, next))
    ensures forall a :: a in Replaced(activities, next) ==> exists b :: b in activities && b.id == a.id
  {
  }

  lemma RevisionKeepsValid(s: State, c: Command)
    requires Valid(s) && !c.Create? && !c.Elsewhere? && Accepts(s, c)
    ensures Valid(Step(s, c))
  {
    var s', activity := Step(s, c), Find(s.activities, c.activityId).value;
    FindSound(s.activities, c.activityId);
    ReplacedKeepsIds(s.activities, Revised(activity, c));
    forall id
      ensures Find(s'.activities, id) ==
              if id == c.activityId then Some(Revised(activity, c)) else Find(s.activities, id)
    {
      FindReplaced(s.activities, Revised(activity, c), id);
    }
    if c.AddDependency? {
      assert forall d :: d in s'.dependencies ==> d == Edge(c) || d in s.dependencies;
      FindSound(s.All(), c.dependsOn);
    }
    assert Acyclic(s'.dependencies) by {
      if c.RemoveDependency? || (c.AddDependency? && c.kind == RelatesTo) {
        FewerEdgesStayAcyclic(s.dependencies, s'.dependencies);
      }
    }
  }

  lemma StepKeepsValid(s: State, c: Command)
    requires Valid(s) && Drawable(s, c)
    ensures Valid(Step(s, c))
  {
    if Accepts(s, c) {
      if c.Create? {
        CreateKeepsValid(s, c);
      } else if !c.Elsewhere? {
        RevisionKeepsValid(s, c);
      }
    }
  }
}
