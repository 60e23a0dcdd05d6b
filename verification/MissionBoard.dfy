// The task handlers of one mission, statement by statement, when no other transaction
// interferes, and their place in the concurrent protocol.
module MissionBoard {
  import opened Options
  import opened MissionProgress
  import opened MissionTransactions

  class Board {
    var mission: Mission
    var tasks: seq<Task>
    var notices: nat

    ghost predicate Valid()
      reads this
    {
      Agrees(mission, tasks) && AllConsistent(tasks)
    }

    ghost function State(): State
      reads this
    {
      MissionTransactions.State(mission, tasks, notices, map[])
    }

    constructor ()
      ensures Valid() && State() == MissionTransactions.State(Mission(Open, None), [], 0, map[])
    {
      mission, tasks, notices := Mission(Open, None), [], 0;
    }

    method RecalculateMissionStatus(now: Time) returns (completedNow: bool)
      modifies this`mission
      ensures mission == Recalculate(old(mission), tasks, now)
      ensures Rederived(old(mission), tasks, now, mission)
      ensures completedNow <==> old(mission).status != Completed && mission.status == Completed
    {
      var previousStatus := mission.status;
      if mission.status != Cancelled {
        var status := DerivedStatus(tasks);
        var completedAt := if status == Completed then Stamp(mission.completedAt, now) else None;
        mission := Mission(status, completedAt);
      }
      RecalculateMeaning(old(mission), tasks, now);
      completedNow := previousStatus != Completed && mission.status == Completed;
    }

    method Finish(now: Time)
      modifies this`mission, this`notices
      ensures mission == Recalculate(old(mission), tasks, now) && Rederived(old(mission), tasks, now, mission)
      ensures notices == old(notices) + CompletedNow(old(mission).status, mission)
      ensures notices == old(notices) + if old(mission).status != Completed && mission.status == Completed then 1 else 0
    {
      var completedNow := RecalculateMissionStatus(now);
      if completedNow {
        notices := notices + 1;
      }
    }

    // Toggling, editing and contributing; a refused request changes nothing. The state after an
    // accepted one is told twice: as what the protocol commits, and by the columns themselves.
    method PatchTask(task: nat, request: Request, now: Time) returns (done: bool)
      requires Valid()
      modifies this
      ensures Valid()
      ensures done <==> task < |old(tasks)| && Edit(old(tasks)[task], old(tasks)[task], request, now).Some?
      ensures !done ==> unchanged(this)
      ensures done ==> var edited := Edit(old(tasks)[task], old(tasks)[task], request, now).value;
                       State() == Committed(old(State()), Updated(task, edited), now)
      ensures done <==> task < |old(tasks)| && Allowed(old(tasks)[task], request)
      ensures done ==> |tasks| == |old(tasks)| && Patched(old(tasks)[task], request, now, tasks[task])
      ensures done ==> forall i :: 0 <= i < |tasks| && i != task ==> tasks[i] == old(tasks)[i]
      ensures done ==> Rederived(old(mission), tasks, now, mission)
      ensures done ==>
                notices == old(notices)
                           + if old(mission).status != Completed && mission.status == Completed then 1 else 0
    {
      if task >= |tasks| {
        return false;
      }
      var existing := tasks[task];
      var edited := Edit(existing, existing, request, now);
      assert Consistent(existing);
      EditMeaning(existing, request, now);
      if edited.None? {
        return false;
      }
      EditConsistent(existing, request, now);
      tasks := tasks[task := edited.value];
      RecalculateAgrees(mission, tasks, now);
      Finish(now);
      return true;
    }

    method CreateTask(target: Option<Amount>, now: Time)
      requires Valid()
      modifies this
      ensures Valid() && State() == Committed(old(State()), Inserted(Created(target)), now)
      ensures tasks == old(tasks) + [if target.Some? then Item(target.value, [], Open, None) else Checklist(Open, None)]
      ensures Rederived(old(mission), tasks, now, mission)
      ensures notices == old(notices) + if old(mission).status != Completed && mission.status == Completed then 1 else 0
    {
      var created := Created(target);
      assert target.Some? ==> Sum(created.contributions) == 0.0;
      tasks := tasks + [created];
      RecalculateAgrees(mission, tasks, now);
      Finish(now);
    }
  }

  // The guards of the handlers, over a task whose sum is within its target.
  ghost predicate Allowed(before: Task, request: Request) {
    match request
    case Toggle(status) => before.Checklist? && before.status != Cancelled && (status == Open || status == Completed)
    case EditTarget(target) => before.Item? && 0.0 < target && Sum(before.contributions) <= target
    case EditDetails => true
    case Contribute(quantity) =>
      && before.Item? && before.status != Cancelled
      && 0.0 < quantity && Sum(before.contributions) + quantity <= before.target
  }

  // The time stamp of a row that is now completed, or not: an older stamp is kept.
  ghost predicate Stamped(before: Option<Time>, now: Time, completed: bool, after: Option<Time>) {
    if !completed then after == None else if before.Some? then after == before else after == Some(now)
  }

  // What the columns hold after an allowed request.
  ghost predicate Patched(before: Task, request: Request, now: Time, after: Task) {
    match request
    case Toggle(status) =>
      && after.Checklist? && after.status == status
      && Stamped(before.completedAt, now, status == Completed, after.completedAt)
    case EditTarget(target) =>
      && before.Item? && after.Item? && after.target == target && after.contributions == before.contributions
      && ItemColumns(before, now, after)
    case EditDetails =>
      if before.Checklist? then after == before
      else
        && after.Item? && after.target == before.target && after.contributions == before.contributions
        && ItemColumns(before, now, after)
    case Contribute(quantity) =>
      && before.Item? && after.Item? && after.target == before.target
      && after.contributions == before.contributions + [quantity]
      && ItemColumns(before, now, after)
  }

  // Status and time stamp of an item task that had the columns of before.
  ghost predicate ItemColumns(before: Task, now: Time, after: Task)
    requires after.Item?
  {
    var sum := Sum(after.contributions);
    if before.status == Cancelled then after.status == Cancelled && after.completedAt == before.completedAt
    else
      && (after.status == Open <==> sum == 0.0)
      && (after.status == InProgress <==> 0.0 < sum < after.target)
      && (after.status == Completed <==> sum == after.target)
      && Stamped(before.completedAt, now, sum == after.target, after.completedAt)
  }

  // A checklist counts once it is completed, an item task by its contributions.
  predicate Reached(t: Task) {
    if t.Checklist? then t.status == Completed else t.status != Cancelled && Sum(t.contributions) >= t.target
  }

  predicate Begun(t: Task) {
    if t.Checklist? then t.status == Completed else t.status != Cancelled && |t.contributions| > 0
  }

  // The mission row after a recalculation over the tasks.
  ghost predicate Rederived(before: Mission, tasks: seq<Task>, now: Time, after: Mission) {
    if before.status == Cancelled then after == before
    else
      var active := exists i :: 0 <= i < |tasks| && tasks[i].status != Cancelled;
      var all := forall i :: 0 <= i < |tasks| && tasks[i].status != Cancelled ==> Reached(tasks[i]);
      var begun := exists i :: 0 <= i < |tasks| && Begun(tasks[i]);
      && (after.status == Completed <==> active && all)
      && (after.status == InProgress <==> !(active && all) && begun)
      && after.status != Cancelled
      && Stamped(before.completedAt, now, after.status == Completed, after.completedAt)
  }

  lemma TaskMeaning(t: Task)
    ensures Active(t) <==> t.status != Cancelled
    ensures Active(t) && Progress(t) == 100.0 <==> Reached(t)
    ensures Started(t) <==> Begun(t)
  {
    ProgressIsShare(t);
    if t.Item? {
      SumNonNegative(t.contributions);
      Share(Sum(t.contributions), t.target);
      if |t.contributions| > 0 {
        ShareIsPositive(Sum(t.contributions), t.target);
      }
    }
  }

  lemma ShareIsPositive(sum: real, target: Amount)
    requires sum > 0.0
    ensures sum / target * 100.0 > 0.0
  {
  }

  /** The recalculated row, told by the stored tasks and contributions. */
  lemma RecalculateMeaning(m: Mission, tasks: seq<Task>, now: Time)
    ensures Rederived(m, tasks, now, Recalculate(m, tasks, now))
  {
    DerivedStatusMeaning(tasks);
    forall i | 0 <= i < |tasks|
      ensures Active(tasks[i]) <==> tasks[i].status != Cancelled
      ensures Active(tasks[i]) && Progress(tasks[i]) == 100.0 <==> Reached(tasks[i])
      ensures Started(tasks[i]) <==> Begun(tasks[i])
    {
      TaskMeaning(tasks[i]);
    }
  }

  lemma ItemMeaning(before: Task, row: Task, now: Time)
    requires row.Item? && Sum(row.contributions) <= row.target && row.completedAt == before.completedAt
    requires before.status != Cancelled
    ensures ItemColumns(before, now, Refresh(row, now))
  {
    SumNonNegative(row.contributions);
  }

  /** An edit of a consistent task goes through exactly under the handlers' guards and then
      stores what the request asks for. */
  lemma EditMeaning(row: Task, request: Request, now: Time)
    requires Consistent(row)
    ensures Edit(row, row, request, now).Some? <==> Allowed(row, request)
    ensures Edit(row, row, request, now).Some? ==> Patched(row, request, now, Edit(row, row, request, now).value)
  {
    match request
    case Toggle(_) =>
    case EditTarget(target) =>
      if Allowed(row, request) && row.status != Cancelled { ItemMeaning(row, row.(target := target), now); }
    case EditDetails =>
      if row.Item? && row.status != Cancelled { ItemMeaning(row, row, now); }
    case Contribute(quantity) =>
      if Allowed(row, request) {
        SumPlus(row.contributions, quantity);
        ItemMeaning(row, row.(contributions := row.contributions + [quantity]), now);
      }
  }

  function Committed(s: State, change: Change, now: Time): State {
    var tasks := Seen(s.tasks, change);
    var mission := Recalculate(s.mission, tasks, now);
    State(mission, tasks, s.notices + CompletedNow(s.mission.status, mission), s.txns)
  }

  // ---- A lone handler is a run of the protocol ----

  ghost predicate Follows(states: seq<State>, steps: seq<Step>) {
    |states| == |steps| + 1 && forall i :: 0 <= i < |steps| ==> Next(states[i], steps[i], states[i + 1])
  }

  // From the write to the commit.
  function Tail(s: State, t: TxnId, change: Change, now: Time): seq<State> {
    var mission := Recalculate(s.mission, Seen(s.tasks, change), now);
    [Put(s, t, Wrote(change)), Put(s, t, MissionLocked(change, s.mission.status)),
     Put(s, t, Recalculated(change, s.mission.status, mission)), Committed(s, change, now)]
  }

  lemma TailFollows(s: State, t: TxnId, change: Change, now: Time)
    requires s.txns == map[]
    ensures var states := Tail(s, t, change, now);
            && Next(states[0], LockMission(t), states[1]) && Next(states[1], Recompute(t, now), states[2])
            && Next(states[2], Commit(t), states[3])
  {
    var states := Tail(s, t, change, now);
    assert states[1] == Put(states[0], t, MissionLocked(change, s.mission.status));
    assert states[2] == Put(states[1], t, states[2].txns[t]);
    assert states[2].txns - {t} == s.txns;
  }

  /** What the handler commits when it runs alone is what its protocol steps reach. */
  lemma PatchIsRun(s: State, t: TxnId, task: nat, request: Request, now: Time)
    requires s.txns == map[] && task < |s.tasks| && Edit(s.tasks[task], s.tasks[task], request, now).Some?
    ensures var change := Updated(task, Edit(s.tasks[task], s.tasks[task], request, now).value);
            Follows([s, Put(s, t, TaskLocked(task, s.tasks[task]))] + Tail(s, t, change, now),
                    [LockTask(t, task), Apply(t, request, now), LockMission(t), Recompute(t, now), Commit(t)])
  {
    var change := Updated(task, Edit(s.tasks[task], s.tasks[task], request, now).value);
    var locked, tail := Put(s, t, TaskLocked(task, s.tasks[task])), Tail(s, t, change, now);
    TailFollows(s, t, change, now);
    assert tail[0] == Put(locked, t, Wrote(change));
    assert Next(s, LockTask(t, task), locked) && Next(locked, Apply(t, request, now), tail[0]);
  }

  lemma CreateIsRun(s: State, t: TxnId, target: Option<Amount>, now: Time)
    requires s.txns == map[]
    ensures Follows([s] + Tail(s, t, Inserted(Created(target)), now),
                    [Insert(t, target), LockMission(t), Recompute(t, now), Commit(t)])
  {
    TailFollows(s, t, Inserted(Created(target)), now);
  }
}
