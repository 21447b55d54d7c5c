/** The durable workflow that carries one agent run through its approvals to its single execution. */
module AgentWorkflow {
  import opened Options

  type Id = string

  datatype RunStatus = Planning | AwaitingApproval | Running | Succeeded | Failed | Killed

  datatype Approval = Pending | Approved | Rejected | Expired | Applied

  datatype RunState = RunState(status: RunStatus, riskLevel: nat, instance: Id, approval: Option<Approval>)

  function Successors(status: RunStatus): set<RunStatus> {
    match status
    case Planning => {AwaitingApproval, Failed, Killed}
    case AwaitingApproval => {Running, Failed, Killed}
    case Running => {Succeeded, Failed, Killed}
    case Succeeded => {}
    case Failed => {}
    case Killed => {}
  }

  predicate Terminal(status: RunStatus) {
    status == Succeeded || status == Failed || status == Killed
  }

  /**
   The world the workflow runs against: what the call at a given time meets.
   None and false stand for a call that throws.
   */
  datatype World = World(read: nat -> Option<RunState>, wait: nat -> bool, execute: nat -> Option<RunStatus>,
                         record: nat -> bool)

  /**
   What the workflow did: the states it saw, in order, and when it read them; after how many of
   them it called `execute` and `fail`, one entry per call, and when it called `execute`. `time`
   counts every call it made.
   */
  datatype Trace = Trace(time: nat, seen: seq<RunState>, readAt: seq<nat>, executedAfter: seq<nat>,
                         executedAt: seq<nat>, recordedAfter: seq<nat>)

  const START := Trace(0, [], [], [], [], [])

  datatype Result = Threw | Returned(status: RunStatus)

  const READ_RETRIES := 3
  const RECORD_RETRIES := 5

  // ----- when a run is ready -----

  /** The run was first seen in planning at a risk that Cloudflare OS must open for approval. */
  predicate NeedsOpening(first: RunState) {
    first.status == Planning && first.riskLevel >= 2
  }

  predicate Ready(state: RunState) {
    || ((state.status == Planning || state.status == Running) && state.approval == None)
    || ((state.status == AwaitingApproval || state.status == Running) && state.approval == Some(Approved))
  }

  /** How many observations it takes to see the run open for execution. */
  function Gate(first: RunState): nat {
    if NeedsOpening(first) then 2 else 1
  }

  /** The run belongs to this instance, is alive, and was opened for approval if it needed that. */
  predicate Opened(seen: seq<RunState>, instance: Id) {
    && seen != [] && seen[0].instance == instance && !Terminal(seen[0].status) && |seen| == Gate(seen[0])
    && (NeedsOpening(seen[0]) ==> seen[1].status == AwaitingApproval)
  }

  /** The observations up to the decision: those that open the run, and one more if an approval was pending. */
  predicate Complete(seen: seq<RunState>, instance: Id) {
    && seen != [] && Gate(seen[0]) <= |seen| && Opened(seen[..Gate(seen[0])], instance)
    && |seen| == Gate(seen[0]) + (if seen[Gate(seen[0]) - 1].approval == Some(Pending) then 1 else 0)
  }

  /** The observations after which the workflow executes: those it needs and no others, the last one ready. */
  predicate ExecutesAfter(seen: seq<RunState>, instance: Id) {
    Complete(seen, instance) && Ready(seen[|seen| - 1])
  }

  /** A state in which a run may be executed: nobody has to approve it, or somebody did. */
  predicate Cleared(x: RunState) {
    || (x.approval == None && x.status in {Planning, Running})
    || (x.approval == Some(Approved) && x.status in {AwaitingApproval, Running})
  }

  /** Case by case: at low risk a run is executed at once or after its quorum, otherwise it is opened first. */
  lemma ExecutesAfterMeans(seen: seq<RunState>, instance: Id)
    ensures ExecutesAfter(seen, instance) <==>
            && seen != [] && seen[0].instance == instance && seen[0].status !in {Succeeded, Failed, Killed}
            && var opens := seen[0].status == Planning && seen[0].riskLevel >= 2;
               match |seen|
               case 1 => !opens && seen[0].approval != Some(Pending) && Cleared(seen[0])
               case 2 =>
                 if opens then seen[1].status == AwaitingApproval && seen[1].approval == Some(Approved)
                 else seen[0].approval == Some(Pending) && Cleared(seen[1])
               case 3 =>
                 && opens && seen[1].status == AwaitingApproval && seen[1].approval == Some(Pending)
                 && Cleared(seen[2])
               case _ => false
  {
  }

  /** The run belongs to another instance, is over, or was not opened for approval. */
  predicate Closed(seen: seq<RunState>, instance: Id) {
    && seen != []
    && (|| seen[0].instance != instance || Terminal(seen[0].status)
        || (NeedsOpening(seen[0]) && |seen| == 2 && seen[1].status != AwaitingApproval))
  }

  // ----- observations -----

  /** What the workflow saw is what the world held at the times of its reads. */
  ghost predicate Observed(world: World, t: Trace) {
    |t.readAt| == |t.seen| && forall i :: 0 <= i < |t.seen| ==> ObservedAt(world, t, i)
  }

  ghost predicate ObservedAt(world: World, t: Trace, i: nat)
    requires i < |t.readAt| == |t.seen|
  {
    && t.readAt[i] < t.time && world.read(t.readAt[i]) == Some(t.seen[i])
    && (i > 0 ==> t.readAt[i - 1] < t.readAt[i])
  }

  lemma LaterIsObserved(world: World, t: Trace, t': Trace)
    requires Observed(world, t) && t'.seen == t.seen && t'.readAt == t.readAt && t.time <= t'.time
    ensures Observed(world, t')
  {
    forall i | 0 <= i < |t.seen|
      ensures ObservedAt(world, t', i)
    {
      assert ObservedAt(world, t, i);
    }
  }

  function Seen(t: Trace, time: nat, state: RunState): Trace {
    t.(time := time + 1, seen := t.seen + [state], readAt := t.readAt + [time])
  }

  lemma SeenIsObserved(world: World, t: Trace, time: nat, state: RunState)
    requires Observed(world, t) && t.time <= time && world.read(time) == Some(state)
    ensures Observed(world, Seen(t, time, state))
  {
    var t' := Seen(t, time, state);
    forall i | 0 <= i < |t'.seen|
      ensures ObservedAt(world, t', i)
    {
      assert i < |t.seen| ==> ObservedAt(world, t, i);
      assert i == |t.seen| > 0 ==> ObservedAt(world, t, i - 1);
    }
  }

  /** Every read and every wait succeeds. */
  ghost predicate Prompt(world: World) {
    forall time :: world.read(time).Some? && world.wait(time)
  }

  /** What a prompt world shows to the first `n` reads: there is one wait between any two. */
  ghost function Shown(world: World, n: nat): seq<RunState>
    requires Prompt(world)
  {
    seq(n, i requires 0 <= i < n => world.read(2 * i).value)
  }

  /** On a prompt world the observations so far are its first ones; `waits` calls were made since. */
  ghost predicate OnBeat(world: World, t: Trace, waits: nat) {
    Prompt(world) ==> t.seen == Shown(world, |t.seen|) && t.time == 2 * |t.seen| - 1 + waits
  }

  /** What a prompt world shows is refused for good: neither fewer nor more observations would be executed. */
  lemma RefusalIsFinal(world: World, t: Trace, instance: Id)
    ensures Prompt(world) && t.seen == Shown(world, |t.seen|) && !ExecutesAfter(t.seen, instance) &&
            (Closed(t.seen, instance) || Complete(t.seen, instance)) ==>
              forall n: nat :: !ExecutesAfter(Shown(world, n), instance)
  {
  }

  /** Every read but the first came right after a signal that was awaited right after the read before it. */
  ghost predicate Signalled(world: World, readAt: seq<nat>) {
    forall i :: 0 < i < |readAt| ==> SignalledAt(world, readAt, i)
  }

  ghost predicate SignalledAt(world: World, readAt: seq<nat>, i: nat)
    requires 0 < i < |readAt|
  {
    world.wait(readAt[i - 1] + 1) && readAt[i - 1] + 1 < readAt[i]
  }

  lemma SignalledOnce(world: World, time: nat)
    ensures Signalled(world, []) && Signalled(world, [time])
  {
  }

  lemma SignalledNext(world: World, readAt: seq<nat>, time: nat)
    requires Signalled(world, readAt) && readAt != []
    requires world.wait(readAt[|readAt| - 1] + 1) && readAt[|readAt| - 1] + 1 < time
    ensures Signalled(world, readAt + [time])
  {
    forall i | 0 < i < |readAt| + 1
      ensures SignalledAt(world, readAt + [time], i)
    {
      assert i < |readAt| ==> SignalledAt(world, readAt, i);
    }
  }

  // ----- the steps -----

  /** `step.do` around `getState`, with three retries: the first read that succeeds counts. */
  method ReadState(world: World, t: Trace) returns (t': Trace, state: Option<RunState>)
    requires Observed(world, t)
    ensures Observed(world, t')
    ensures t.time < t'.time <= t.time + 4
    ensures forall time :: t.time <= time < t'.time - 1 ==> world.read(time).None?
    ensures world.read(t'.time - 1) == state
    ensures t' == if state.Some? then Seen(t, t'.time - 1, state.value) else t.(time := t.time + 4)
    ensures Prompt(world) ==> state.Some?
    ensures OnBeat(world, t, 1) ==> OnBeat(world, t', 0)
  {
    t' := t;
    for attempt := 0 to READ_RETRIES + 1
      invariant t' == t.(time := t.time + attempt)
      invariant forall time :: t.time <= time < t'.time ==> world.read(time).None?
      invariant Prompt(world) ==> t' == t
    {
      state := world.read(t'.time);
      if state.Some? {
        SeenIsObserved(world, t, t'.time, state.value);
        t' := Seen(t', t'.time, state.value);
        return;
      }
      t' := t'.(time := t'.time + 1);
    }
    LaterIsObserved(world, t, t');
    state := None;
  }

  /** A step just failed for good: all four attempts at a read, or the wait for a signal. */
  ghost predicate Stalled(world: World, time: nat) {
    || (time >= 4 && forall i :: time - 4 <= i < time ==> world.read(i).None?)
    || (time >= 1 && !world.wait(time - 1))
  }

  /** `step.waitForEvent`, which may time out. */
  method Wait(world: World, t: Trace) returns (t': Trace, signalled: bool)
    requires Observed(world, t)
    ensures Observed(world, t')
    ensures t' == t.(time := t.time + 1) && signalled == world.wait(t.time)
    ensures OnBeat(world, t, 0) ==> OnBeat(world, t', 1)
  {
    signalled := world.wait(t.time);
    t' := t.(time := t.time + 1);
    LaterIsObserved(world, t, t');
  }

  /** `runtime.fail` in its step, with five retries: the first call that succeeds ends it. */
  method RecordFailure(world: World, t: Trace) returns (t': Trace, done: bool)
    requires Observed(world, t)
    ensures Observed(world, t')
    ensures t.time < t'.time <= t.time + 6
    ensures t' == t.(time := t'.time, recordedAfter := t.recordedAfter + seq(t'.time - t.time, _ => |t.seen|))
    ensures forall time :: t.time <= time < t'.time - 1 ==> !world.record(time)
    ensures done == world.record(t'.time - 1) && (!done ==> t'.time == t.time + 6)
  {
    t', done := t, false;
    LaterIsObserved(world, t, t');
    for attempt := 0 to RECORD_RETRIES + 1
      invariant Observed(world, t')
      invariant t' == t.(time := t.time + attempt, recordedAfter := t.recordedAfter + seq(attempt, _ => |t.seen|))
      invariant forall time :: t.time <= time < t'.time ==> !world.record(time)
    {
      done := world.record(t'.time);
      assert seq(attempt, _ => |t.seen|) + [|t.seen|] == seq(attempt + 1, _ => |t.seen|);
      assert t.recordedAfter + seq(attempt, _ => |t.seen|) + [|t.seen|] ==
             t.recordedAfter + seq(attempt + 1, _ => |t.seen|);
      t' := t'.(time := t'.time + 1, recordedAfter := t'.recordedAfter + [|t.seen|]);
      LaterIsObserved(world, t, t');
      if done {
        return;
      }
    }
    done := false;
  }

  /** The run is this instance's, and the last look at it found it over. */
  predicate SeenOver(seen: seq<RunState>, instance: Id) {
    seen != [] && seen[0].instance == instance && seen[|seen| - 1].status in {Succeeded, Failed, Killed}
  }

  /** Where the first part of the try block ends: it returned, it threw, or the run is open. */
  datatype Opening = Ended(status: RunStatus) | Thrown | Proceed(state: RunState)

  /** The try block up to the opening of the run. */
  method OpenRun(world: World, instance: Id) returns (t: Trace, opening: Opening)
    ensures Observed(world, t) && OnBeat(world, t, 0) && Signalled(world, t.readAt)
    ensures t.executedAfter == t.executedAt == t.recordedAfter == []
    ensures t.seen != [] && opening.Proceed? ==> t.time == t.readAt[|t.readAt| - 1] + 1
    ensures opening.Proceed? ==> Opened(t.seen, instance) && t.seen[|t.seen| - 1] == opening.state
    ensures !opening.Proceed? ==> !ExecutesAfter(t.seen, instance) && (Prompt(world) ==> Closed(t.seen, instance))
    ensures !opening.Proceed? ==> Closed(t.seen, instance) || Stalled(world, t.time)
    ensures opening.Ended? <==> SeenOver(t.seen, instance)
    ensures opening.Ended? ==> t.seen[|t.seen| - 1].status == opening.status
  {
    var read: Option<RunState>;
    var signalled: bool;
    t, read := ReadState(world, START);
    SignalledOnce(world, t.time - 1);
    if read.None? || read.value.instance != instance {
      return t, Thrown;
    }
    var state := read.value;
    if Terminal(state.status) {
      return t, Ended(state.status);
    }
    if state.status == Planning && state.riskLevel >= 2 {
      ghost var readAt := t.readAt;
      t, signalled := Wait(world, t);
      if !signalled {
        return t, Thrown;
      }
      t, read := ReadState(world, t);
      if read.None? {
        return t, Thrown;
      }
      SignalledNext(world, readAt, t.time - 1);
      state := read.value;
      if Terminal(state.status) {
        return t, Ended(state.status);
      }
      if state.status != AwaitingApproval {
        return t, Thrown;
      }
    }
    return t, Proceed(state);
  }

  /** The wait for the quorum and the read after it; None is the error of either. */
  method AwaitQuorum(world: World, t: Trace) returns (t': Trace, state: Option<RunState>)
    requires Observed(world, t) && OnBeat(world, t, 0) && Signalled(world, t.readAt)
    requires t.seen != [] && t.time == t.readAt[|t.readAt| - 1] + 1
    ensures Observed(world, t') && OnBeat(world, t', 0) && (Prompt(world) ==> state.Some?)
    ensures Signalled(world, t'.readAt)
    ensures t' == t.(time := t'.time, seen := t'.seen, readAt := t'.readAt)
    ensures t'.seen == t.seen + (if state.Some? then [state.value] else [])
    ensures state.None? ==> Stalled(world, t'.time)
  {
    var signalled: bool;
    t', signalled := Wait(world, t);
    if !signalled {
      return t', None;
    }
    t', state := ReadState(world, t');
    if state.Some? {
      SignalledNext(world, t.readAt, t'.time - 1);
    }
  }

  /** The end of the try block: return, throw, or execute and return what the execution came to. */
  method Decide(world: World, t: Trace, state: RunState) returns (t': Trace, result: Option<RunStatus>)
    requires Observed(world, t)
    ensures Observed(world, t')
    ensures Ready(state) ==>
              && t' == t.(time := t.time + 1, executedAfter := t.executedAfter + [|t.seen|],
                          executedAt := t.executedAt + [t.time])
              && result == world.execute(t.time)
    ensures !Ready(state) ==>
              t' == t && result == if state.status in {Succeeded, Failed, Killed} then Some(state.status) else None
  {
    t' := t;
    if Terminal(state.status) {
      return t', Some(state.status);
    }
    var automaticReady := (state.status == Planning || state.status == Running) && state.approval == None;
    var approvedReady :=
      (state.status == AwaitingApproval || state.status == Running) && state.approval == Some(Approved);
    if !automaticReady && !approvedReady {
      return t', None;
    }
    result := world.execute(t.time);
    t' := t.(time := t.time + 1, executedAfter := t.executedAfter + [|t.seen|], executedAt := t.executedAt + [t.time]);
    LaterIsObserved(world, t, t');
  }

  /**
   What the try block of `runGuildAgentWorkflow` came to; None is an error for the catch block.
   On a prompt world it stops only where it must.
   */
  method Attempt(world: World, instance: Id) returns (t: Trace, result: Option<RunStatus>)
    ensures Observed(world, t) && Signalled(world, t.readAt) && t.recordedAfter == []
    ensures t.executedAfter == if ExecutesAfter(t.seen, instance) then [|t.seen|] else []
    ensures t.executedAt == if ExecutesAfter(t.seen, instance) then [t.time - 1] else []
    ensures ExecutesAfter(t.seen, instance) ==> t.time > 0 && result == world.execute(t.time - 1)
    ensures !ExecutesAfter(t.seen, instance) ==>
              result == if SeenOver(t.seen, instance) then Some(t.seen[|t.seen| - 1].status) else None
    ensures Prompt(world) ==> t.seen == Shown(world, |t.seen|)
    ensures Prompt(world) ==> Closed(t.seen, instance) || Complete(t.seen, instance)
    ensures Closed(t.seen, instance) || Complete(t.seen, instance) || Stalled(world, t.time)
  {
    var opening: Opening;
    t, opening := OpenRun(world, instance);
    if !opening.Proceed? {
      return t, if opening.Ended? then Some(opening.status) else None;
    }
    var state := opening.state;
    ghost var gate := t.seen;
    assert gate[..|gate|] == gate;
    if state.approval == Some(Pending) {
      var read: Option<RunState>;
      t, read := AwaitQuorum(world, t);
      if read.None? {
        return t, None;
      }
      state := read.value;
      assert t.seen[..|gate|] == gate;
    }
    assert Complete(t.seen, instance);
    t, result := Decide(world, t, state);
  }

  /** The catch block threw: all its reads failed, or it saw the run alive and all its records failed. */
  ghost predicate GaveUp(world: World, attempted: nat, t: Trace) {
    || (&& |t.seen| == attempted && t.recordedAfter == [] && t.time >= 4
        && forall time :: t.time - 4 <= time < t.time ==> world.read(time).None?)
    || (&& |t.seen| == attempted + 1 && |t.recordedAfter| == 6 && t.time >= 6
        && forall time :: t.time - 6 <= time < t.time ==> !world.record(time))
  }

  /** The status is the terminal one seen last, or a failure that was recorded over the live one seen last. */
  ghost predicate Reported(world: World, t: Trace, status: RunStatus) {
    && t.seen != [] && t.time > 0
    && var last := t.seen[|t.seen| - 1].status;
       if last in {Succeeded, Failed, Killed} then status == last && t.recordedAfter == []
       else status == Failed && t.recordedAfter != [] && world.record(t.time - 1)
  }

  /** The catch block. A failure is recorded only over a live state that was just read. */
  method Recover(world: World, t: Trace) returns (t': Trace, result: Result)
    requires Observed(world, t) && t.recordedAfter == []
    ensures Observed(world, t') && t'.executedAfter == t.executedAfter && t'.executedAt == t.executedAt
    ensures t.seen <= t'.seen && t.readAt <= t'.readAt && t.time <= t'.time
    ensures forall n :: n in t'.recordedAfter ==> n == |t'.seen| > 0 && !Terminal(t'.seen[n - 1].status)
    ensures result.Returned? ==> |t'.seen| == |t.seen| + 1 && Reported(world, t', result.status)
    ensures result.Threw? ==> GaveUp(world, |t.seen|, t')
    ensures |t'.seen| > |t.seen| ==> |t'.readAt| > |t.seen| && t'.readAt[|t.seen|] >= t.time
  {
    var state: Option<RunState>;
    t', state := ReadState(world, t);
    if state.None? {
      return t', Threw;
    }
    if Terminal(state.value.status) {
      return t', Returned(state.value.status);
    }
    var done;
    t', done := RecordFailure(world, t');
    return t', if done then Returned(Failed) else Threw;
  }

  /** What the workflow returns or throws after `attempted` observations and, perhaps, an execution. */
  ghost predicate Answers(world: World, instance: Id, t: Trace, attempted: nat, result: Result)
    requires attempted <= |t.seen|
  {
    var seen := t.seen[..attempted];
    var ended := if t.executedAt != [] then world.execute(t.executedAt[0])
                 else if SeenOver(seen, instance) then Some(seen[|seen| - 1].status) else None;
    match ended
    case Some(status) => result == Returned(status) && |t.seen| == attempted && t.recordedAfter == []
    case None =>
      match result
      case Returned(status) => |t.seen| == attempted + 1 && Reported(world, t, status)
      case Threw => GaveUp(world, attempted, t)
  }

  /**
   `runGuildAgentWorkflow`. The run is executed at most once, exactly after the observations that
   make it ready. If the execution returns, so does the workflow, with its status; if it throws, or
   something before it did, the run is read once more, and a failure is recorded only over a live
   state. If the world never resets an approval, a run that needed opening is executed only on an
   observed approval. `attempted` is the number of observations the try block made.
   */
  method RunGuildAgentWorkflow(world: World, configuredGuild: Id, payloadGuild: Id, instance: Id)
    returns (t: Trace, result: Result, ghost attempted: nat)
    ensures payloadGuild != configuredGuild ==> t == START && result == Threw
    ensures Observed(world, t) && attempted <= |t.seen| && Signalled(world, t.readAt[..attempted])
    ensures t.executedAfter ==
            if payloadGuild == configuredGuild && ExecutesAfter(t.seen[..attempted], instance) then [attempted] else []
    ensures |t.executedAt| == |t.executedAfter|
    ensures payloadGuild == configuredGuild ==> Answers(world, instance, t, attempted, result)
    ensures t.executedAt != [] && |t.seen| > attempted ==>
              |t.readAt| > attempted && t.executedAt[0] < t.readAt[attempted]
    ensures NeverResets(world) && t.executedAfter != [] &&
            t.seen[0].status == Planning && t.seen[0].riskLevel >= 2 ==>
              attempted > 0 && t.seen[attempted - 1].approval == Some(Approved)
    ensures Prompt(world) && payloadGuild == configuredGuild && t.executedAfter == [] ==>
              forall n: nat :: !ExecutesAfter(Shown(world, n), instance)
    ensures payloadGuild == configuredGuild && !Closed(t.seen[..attempted], instance) &&
            !Complete(t.seen[..attempted], instance) ==>
              exists time :: 0 <= time <= t.time && Stalled(world, time)
    ensures forall n :: n in t.recordedAfter ==>
              n == |t.seen| > 0 && t.seen[n - 1].status !in {Succeeded, Failed, Killed}
  {
    t, attempted := START, 0;
    if payloadGuild != configuredGuild {
      return t, Threw, 0;
    }
    var outcome: Option<RunStatus>;
    t, outcome := Attempt(world, instance);
    attempted := |t.seen|;
    assert t.seen[..attempted] == t.seen && t.readAt[..attempted] == t.readAt;
    ExecutionIsApproved(world, t, instance);
    RefusalIsFinal(world, t, instance);
    if outcome.Some? {
      return t, Returned(outcome.value), attempted;
    }
    ghost var tried := t;
    t, result := Recover(world, t);
    assert t.seen[..attempted] == tried.seen && t.readAt[..attempted] == tried.readAt;
  }

  // ----- execution needs an approval -----

  /** Once the world has shown an approval record, it always shows one. */
  ghost predicate NeverResets(world: World) {
    forall i, j :: i < j && world.read(i).Some? && world.read(j).Some? && world.read(i).value.approval.Some? ==>
                     world.read(j).value.approval.Some?
  }

  /** How many transitions a status has at most before it. */
  function Remaining(status: RunStatus): nat {
    match status case Planning => 3 case AwaitingApproval => 2 case Running => 1 case _ => 0
  }

  /** `to` can be reached from `status` by transitions of the table. */
  predicate Leads(status: RunStatus, to: RunStatus)
    decreases Remaining(status)
  {
    status == to || exists next :: next in Successors(status) && Leads(next, to)
  }

  /** Where the table leads: forward only, and nowhere from a run that is over. */
  lemma LeadsMeans(status: RunStatus, to: RunStatus)
    ensures Leads(status, to) <==>
            match status
            case Planning => true
            case AwaitingApproval => to != Planning
            case Running => to in {Running, Succeeded, Failed, Killed}
            case _ => to == status
    decreases Remaining(status)
  {
    forall next | next in Successors(status) {
      LeadsMeans(next, to);
    }
  }

  /** The world moves the run along the transition table only. */
  ghost predicate FollowsTable(world: World) {
    forall i, j :: i < j && world.read(i).Some? && world.read(j).Some? ==>
                     Leads(world.read(i).value.status, world.read(j).value.status)
  }

  /**
   Whatever the world does at whatever times: if it never resets an approval, a run first seen in
   planning at risk 2 or higher is executed only after an observed approval.
   */
  lemma ExecutionIsApproved(world: World, t: Trace, instance: Id)
    requires Observed(world, t)
    ensures NeverResets(world) && ExecutesAfter(t.seen, instance) && NeedsOpening(t.seen[0]) ==>
              t.seen[|t.seen| - 1].approval == Some(Approved)
  {
    if |t.seen| == 3 {
      assert ObservedAt(world, t, 1) && ObservedAt(world, t, 2);
    }
  }

  /** The transition table alone leaves one way around: a running run without approval record. */
  lemma LawfulExecution(world: World, t: Trace, instance: Id)
    requires Observed(world, t) && FollowsTable(world)
    requires ExecutesAfter(t.seen, instance) && NeedsOpening(t.seen[0])
    ensures var last := t.seen[|t.seen| - 1];
            last.approval == Some(Approved) || (last.status == Running && last.approval == None)
  {
    if |t.seen| == 3 {
      assert ObservedAt(world, t, 1) && ObservedAt(world, t, 2);
      LeadsMeans(t.seen[1].status, t.seen[2].status);
    }
  }

  /** A run that is approved and started, after which its approval record is gone. */
  function ForgetfulWorld(instance: Id): World {
    World(time => Some(if time < 2 then RunState(Planning, 2, instance, None)
                       else if time < 4 then RunState(AwaitingApproval, 2, instance, Some(Pending))
                       else RunState(Running, 2, instance, None)),
          time => true, time => Some(Succeeded), time => true)
  }

  /** That way is open: this world keeps to the table, and the run is executed without approval record. */
  lemma ForgottenApprovalIsExecuted(instance: Id)
    ensures var world := ForgetfulWorld(instance);
            && FollowsTable(world) && !NeverResets(world) && Prompt(world)
            && NeedsOpening(Shown(world, 3)[0]) && ExecutesAfter(Shown(world, 3), instance)
            && Shown(world, 3)[2].approval == None
  {
    var world := ForgetfulWorld(instance);
    assert Leads(Planning, AwaitingApproval) && Leads(AwaitingApproval, Running) && Leads(Planning, Running) by {
      assert AwaitingApproval in Successors(Planning) && Running in Successors(AwaitingApproval);
      assert Leads(Running, Running) && Leads(AwaitingApproval, AwaitingApproval);
    }
    assert world.read(2).value.approval.Some? && world.read(4).value.approval.None?;
  }
}
