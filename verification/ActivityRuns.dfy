/** What holds over whole runs of Activity calls: acyclicity, justified progress and lost-update freedom. */
module ActivityRuns {
  import opened Options
  import opened DependencyGraph
  import opened Activities

  /** `states` is what the store goes through under `calls`, accepted or refused, one after another. */
  ghost predicate IsRun(states: seq<State>, calls: seq<Command>) {
    && |states| == |calls| + 1
    && Valid(states[0])
    && forall i :: 0 <= i < |calls| ==> StepsAt(states, calls, i)
  }

  ghost predicate StepsAt(states: seq<State>, calls: seq<Command>, i: nat)
    requires i < |calls| && |states| == |calls| + 1
  {
    Drawable(states[i], calls[i]) && states[i + 1] == Step(states[i], calls[i])
  }

  lemma RunStepKeepsValid(states: seq<State>, calls: seq<Command>, n: nat)
    requires IsRun(states, calls) && n < |calls| && Valid(states[n])
    ensures Valid(states[n + 1])
  {
    assert StepsAt(states, calls, n);
    StepKeepsValid(states[n], calls[n]);
  }

  /** In every reachable state the blocks/follows graph is acyclic and all references resolve. */
  lemma {:induction false} ReachableStatesAreValid(states: seq<State>, calls: seq<Command>, n: nat)
    requires IsRun(states, calls) && n < |states|
    ensures Valid(states[n])
  {
    if n > 0 {
      ReachableStatesAreValid(states, calls, n - 1);
      RunStepKeepsValid(states, calls, n - 1);
    }
  }

  /** A blocks or follows edge that passes the other guards is refused exactly when its end depends on its start. */
  lemma EdgeRefusedIffPredecessorDepends(s: State, c: Command)
    requires Valid(s) && c.AddDependency? && c.kind != RelatesTo && EdgeAdmissible(s, c)
    ensures Accepts(s, c) <==> !Reaches(s.dependencies, c.dependsOn, c.activityId)
  {
    NewEdgeClosesCycleIff(s.dependencies, Edge(c));
  }

  // ----- progress is justified -----

  ghost function CompletedIds(s: State): set<Id> {
    set a | a in s.All() && a.status == Completed :: a.id
  }

  /** Every Activity, direct or structured, that was completed in one of the first `n + 1` states of the run. */
  ghost function EverCompleted(states: seq<State>, n: nat): set<Id>
    requires n < |states|
  {
    CompletedIds(states[n]) + (if n == 0 then {} else EverCompleted(states, n - 1))
  }

  /** Whoever is ready, active or completed has only blockers from `history`. */
  ghost predicate Justified(s: State, history: set<Id>) {
    forall a, d :: a in s.activities && d in s.dependencies && InProgress(a.status) &&
                   d.kind == Blocks && d.activityId == a.id
                   ==> d.dependsOn in history
  }

  lemma CompletedIsListed(s: State, activities: seq<Activity>, id: Id)
    requires IsCompleted(activities, id) && (activities == s.activities || activities == s.All())
    ensures id in CompletedIds(s)
  {
    FindSound(activities, id);
    assert Find(activities, id).value in s.All();
  }

  lemma RevisedBlockers(s: State, c: Command, a: Activity, d: Dependency)
    requires Valid(s) && !c.Create? && !c.Elsewhere? && Accepts(s, c)
    requires a in Step(s, c).activities && d in Step(s, c).dependencies
    requires InProgress(a.status) && d.kind == Blocks && d.activityId == a.id
    ensures d.dependsOn in CompletedIds(s) || (d in s.dependencies &&
              exists b :: b in s.activities && b.id == a.id && InProgress(b.status))
  {
    var activity := Find(s.activities, c.activityId).value;
    FindSound(s.activities, c.activityId);
    var s' := Step(s, c);
    var i :| 0 <= i < |s'.activities| && s'.activities[i] == a;
    assert s.activities[i] in s.activities;
    if a.id == c.activityId {
      FindUnique(s.activities, s.activities[i]);
      if c.ChangeStatus? && IsCompleted(s.activities, d.dependsOn) {
        CompletedIsListed(s, s.activities, d.dependsOn);
      } else if (c.Complete? || c.AddDependency?) && IsCompleted(s.All(), d.dependsOn) {
        CompletedIsListed(s, s.All(), d.dependsOn);
      }
    }
  }

  lemma StepKeepsJustified(s: State, c: Command, history: set<Id>)
    requires Valid(s) && Drawable(s, c)
    requires Justified(s, history) && CompletedIds(s) <= history
    ensures Justified(Step(s, c), history)
  {
    var s' := Step(s, c);
    forall a, d | a in s'.activities && d in s'.dependencies && InProgress(a.status) &&
                  d.kind == Blocks && d.activityId == a.id
      ensures d.dependsOn in history
    {
      if !Accepts(s, c) || c.Elsewhere? {
      } else if c.Create? {
        FindSound(s.activities, d.activityId);
      } else {
        RevisedBlockers(s, c, a, d);
      }
    }
  }

  /**
   Whatever the order of edge additions, reopenings and completions: an Activity that is ready,
   active or completed is blocked only by Activities that have been completed during the run.
   */
  lemma {:induction false} ProgressIsJustified(states: seq<State>, calls: seq<Command>, n: nat)
    requires IsRun(states, calls) && n < |states|
    requires Justified(states[0], CompletedIds(states[0]))
    ensures Justified(states[n], EverCompleted(states, n))
  {
    if n > 0 {
      ProgressIsJustified(states, calls, n - 1);
      RunStepKeepsJustified(states, calls, n - 1, EverCompleted(states, n - 1), EverCompleted(states, n));
    }
  }

  lemma RunStepKeepsJustified(states: seq<State>, calls: seq<Command>, n: nat, history: set<Id>, more: set<Id>)
    requires IsRun(states, calls) && n < |calls|
    requires Justified(states[n], history) && CompletedIds(states[n]) <= history <= more
    ensures Justified(states[n + 1], more)
  {
    ReachableStatesAreValid(states, calls, n);
    assert StepsAt(states, calls, n);
    StepKeepsJustified(states[n], calls[n], history);
    JustifiedByMore(states[n + 1], history, more);
  }

  lemma JustifiedByMore(s: State, history: set<Id>, more: set<Id>)
    requires Justified(s, history) && history <= more
    ensures Justified(s, more)
  {
  }

  lemma {:induction false} FindAppended(direct: seq<Activity>, structured: seq<Activity>, id: Id)
    ensures Find(direct + structured, id) == if Find(direct, id).Some? then Find(direct, id) else Find(structured, id)
  {
    if direct == [] {
      assert direct + structured == structured;
    } else {
      FindAppended(direct[1..], structured, id);
      assert (direct + structured)[1..] == direct[1..] + structured;
    }
  }

  /**
   `changeActivityStatus` looks for blockers among direct Activities only, `completeActivity` among
   all. The first finds an Activity unblocked exactly when the second does and no blocker is
   structured work: such a blocker never clears there, not even once it is completed.
   */
  lemma StructuredBlockersNeverClear(s: State, id: Id)
    ensures Unblocked(s.dependencies, s.activities, id) <==>
            && Unblocked(s.dependencies, s.All(), id)
            && forall d :: d in s.dependencies && d.activityId == id && d.kind == Blocks ==>
                 Find(s.activities, d.dependsOn).Some?
  {
    forall d | d in s.dependencies {
      FindAppended(s.activities, s.structuredWork, d.dependsOn);
    }
  }

  /** An Activity that is blocked by completed structured work. */
  function BlockedByQuest(status: Status, version: nat): State {
    State([Activity("work", None, None, None, "Work", "", status, version, false)],
          [Activity("quest", None, None, None, "Quest", "", Completed, 1, true)],
          [Dependency("edge", "work", "quest", Blocks, 1)], map[], [], {})
  }

  lemma QuestLookups(status: Status, version: nat)
    ensures var s := BlockedByQuest(status, version);
            && Find(s.activities, "work") == Some(s.activities[0])
            && Unblocked(s.dependencies, s.All(), "work") && !Unblocked(s.dependencies, s.activities, "work")
  {
    var s := BlockedByQuest(status, version);
    assert "work" != "quest" by {
      assert "work"[0] != "quest"[0];
    }
    var d := s.dependencies[0];
    assert s.activities[1..] == [] && Find(s.activities, "quest").None?;
    assert Find(s.structuredWork, "quest") == Some(s.structuredWork[0]);
    FindAppended(s.activities, s.structuredWork, "quest");
    assert d in s.dependencies && forall e :: e in s.dependencies ==> e == d;
    assert IsCompleted(s.All(), d.dependsOn) && !IsCompleted(s.activities, d.dependsOn);
  }

  lemma QuestIsValid(status: Status, version: nat)
    ensures Valid(BlockedByQuest(status, version))
  {
    var s := BlockedByQuest(status, version);
    assert "work"[0] != "quest"[0];
    SingleEdgeAcyclic(s.dependencies[0]);
    QuestLookups(status, version);
  }

  /** Completion accepts it, active or completed before, and the change back to active refuses it. */
  lemma CompletedButNotReopened(status: Status, version: nat)
    requires status == Active || status == Completed
    ensures var s := BlockedByQuest(status, version);
            && Valid(s) && Accepts(s, Complete("work", version, "Done", []))
            && MayBecome(status, Active) && !Accepts(s, ChangeStatus("work", version, Active))
  {
    QuestIsValid(status, version);
    QuestLookups(status, version);
  }

  // ----- versions -----

  predicate Revises(c: Command, id: Id) {
    !c.Create? && !c.Elsewhere? && c.activityId == id
  }

  /** The number of successful calls on `id` among the first `n`. */
  ghost function Successes(states: seq<State>, calls: seq<Command>, id: Id, n: nat): nat
    requires IsRun(states, calls) && n <= |calls|
  {
    if n == 0 then 0
    else
      Successes(states, calls, id, n - 1) +
      (if Revises(calls[n - 1], id) && Accepts(states[n - 1], calls[n - 1]) then 1 else 0)
  }

  lemma StepRevises(s: State, c: Command, id: Id)
    requires Drawable(s, c) && Find(s.activities, id).Some?
    ensures Find(Step(s, c).activities, id) ==
            if Revises(c, id) && Accepts(s, c) then Some(Revised(Find(s.activities, id).value, c))
            else Find(s.activities, id)
  {
    if Accepts(s, c) && !c.Elsewhere? {
      if c.Create? {
        assert Step(s, c).activities[1..] == s.activities;
      } else {
        FindReplaced(s.activities, Revised(Find(s.activities, c.activityId).value, c), id);
      }
    }
  }

  /** An Activity's version counts the successful calls on it, no more and no less. */
  lemma {:induction false} VersionCountsSuccesses(states: seq<State>, calls: seq<Command>, id: Id, n: nat)
    requires IsRun(states, calls) && n <= |calls| && Find(states[0].activities, id).Some?
    ensures Find(states[n].activities, id).Some?
    ensures Find(states[n].activities, id).value.version ==
            Find(states[0].activities, id).value.version + Successes(states, calls, id, n)
  {
    if n > 0 {
      VersionCountsSuccesses(states, calls, id, n - 1);
      assert StepsAt(states, calls, n - 1);
      StepRevises(states[n - 1], calls[n - 1], id);
    }
  }

  lemma {:induction false} VersionsNeverFall(states: seq<State>, calls: seq<Command>, i: nat, j: nat, id: Id)
    requires IsRun(states, calls) && i <= j <= |calls| && Find(states[i].activities, id).Some?
    ensures Find(states[j].activities, id).Some?
    ensures Find(states[i].activities, id).value.version <= Find(states[j].activities, id).value.version
    decreases j
  {
    if i < j {
      VersionsNeverFall(states, calls, i, j - 1, id);
      assert StepsAt(states, calls, j - 1);
      StepRevises(states[j - 1], calls[j - 1], id);
    }
  }

  /** A successful call raises the version it was given by exactly one. */
  lemma SuccessAdvances(states: seq<State>, calls: seq<Command>, i: nat, id: Id)
    requires IsRun(states, calls) && i < |calls|
    requires Revises(calls[i], id) && Accepts(states[i], calls[i])
    ensures Find(states[i].activities, id).Some? && Find(states[i + 1].activities, id).Some?
    ensures Find(states[i].activities, id).value.version == calls[i].expectedVersion
    ensures Find(states[i + 1].activities, id).value.version == calls[i].expectedVersion + 1
  {
    assert StepsAt(states, calls, i);
    StepRevises(states[i], calls[i], id);
  }

  /**
   Lost-update freedom: two successful calls on one Activity, of whatever kinds, never carry the
   same expected version; the later call carries the larger one.
   */
  lemma NoLostUpdate(states: seq<State>, calls: seq<Command>, i: nat, j: nat, id: Id)
    requires IsRun(states, calls) && i < j < |calls|
    requires Revises(calls[i], id) && Accepts(states[i], calls[i])
    requires Revises(calls[j], id) && Accepts(states[j], calls[j])
    ensures calls[i].expectedVersion < calls[j].expectedVersion
  {
    SuccessAdvances(states, calls, i, id);
    SuccessAdvances(states, calls, j, id);
    VersionsNeverFall(states, calls, i + 1, j, id);
  }

  lemma StepKeepsOutcome(s: State, c: Command, id: Id)
    requires id in s.outcomes
    ensures id in Step(s, c).outcomes && s.outcomes[id].version <= Step(s, c).outcomes[id].version
  {
  }

  lemma RunStepKeepsOutcome(states: seq<State>, calls: seq<Command>, n: nat, id: Id)
    requires IsRun(states, calls) && n < |calls| && id in states[n].outcomes
    ensures id in states[n + 1].outcomes && states[n].outcomes[id].version <= states[n + 1].outcomes[id].version
  {
    assert StepsAt(states, calls, n);
    StepKeepsOutcome(states[n], calls[n], id);
  }

  lemma {:induction false} OutcomesNeverFall(states: seq<State>, calls: seq<Command>, i: nat, j: nat, id: Id)
    requires IsRun(states, calls) && i <= j <= |calls| && id in states[i].outcomes
    ensures id in states[j].outcomes && states[i].outcomes[id].version <= states[j].outcomes[id].version
    decreases j
  {
    if i < j {
      OutcomesNeverFall(states, calls, i, j - 1, id);
      RunStepKeepsOutcome(states, calls, j - 1, id);
    }
  }

  /** A completion leaves the next outcome, stamped with the next version of its Activity. */
  lemma CompletionRecords(states: seq<State>, calls: seq<Command>, i: nat, id: Id)
    requires IsRun(states, calls) && i < |calls|
    requires calls[i].Complete? && calls[i].activityId == id && Accepts(states[i], calls[i])
    ensures id in states[i + 1].outcomes
    ensures states[i + 1].outcomes[id].activityVersion == calls[i].expectedVersion + 1
    ensures id in states[i].outcomes ==> states[i].outcomes[id].version < states[i + 1].outcomes[id].version
  {
    assert StepsAt(states, calls, i);
  }

  /** Of two completions of one Activity, the later outcome has the larger version and Activity version. */
  lemma OutcomesIncrease(states: seq<State>, calls: seq<Command>, i: nat, j: nat, id: Id)
    requires IsRun(states, calls) && i < j < |calls|
    requires calls[i].Complete? && calls[i].activityId == id && Accepts(states[i], calls[i])
    requires calls[j].Complete? && calls[j].activityId == id && Accepts(states[j], calls[j])
    ensures id in states[i + 1].outcomes && id in states[j + 1].outcomes
    ensures states[i + 1].outcomes[id].version < states[j + 1].outcomes[id].version
    ensures states[i + 1].outcomes[id].activityVersion < states[j + 1].outcomes[id].activityVersion
  {
    CompletionRecords(states, calls, i, id);
    CompletionRecords(states, calls, j, id);
    OutcomesNeverFall(states, calls, i + 1, j, id);
    NoLostUpdate(states, calls, i, j, id);
  }
}
