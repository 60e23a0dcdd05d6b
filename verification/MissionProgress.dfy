// Mission and task status as values derived from tasks and contributions. Quantities and
// percentages are exact reals.
module MissionProgress {
  import opened Options

  type Amount = q: real | q > 0.0 witness 1.0
  type Time = nat

  datatype Status = Open | InProgress | Completed | Cancelled

  // completedAt is the completed_at column.
  datatype Task =
    | Checklist(status: Status, completedAt: Option<Time>)
    | Item(target: Amount, contributions: seq<Amount>, status: Status, completedAt: Option<Time>)

  datatype Mission = Mission(status: Status, completedAt: Option<Time>)

  function Sum(qs: seq<Amount>): real {
    if |qs| == 0 then 0.0 else Sum(qs[..|qs| - 1]) + qs[|qs| - 1]
  }

  lemma {:induction false} SumNonNegative(qs: seq<Amount>)
    ensures Sum(qs) >= 0.0
    ensures |qs| > 0 ==> Sum(qs) > 0.0
  {
    if |qs| > 0 {
      SumNonNegative(qs[..|qs| - 1]);
    }
  }

  function Progress(t: Task): real {
    match t
    case Checklist(status, _) => if status == Completed then 100.0 else 0.0
    case Item(target, contributions, _, _) =>
      var percent := Sum(contributions) / target * 100.0;
      if percent < 100.0 then percent else 100.0
  }

  predicate Active(t: Task) {
    t.status != Cancelled
  }

  function Count(tasks: seq<Task>, p: Task -> bool, n: nat): (c: nat)
    requires n <= |tasks|
    ensures c <= n
  {
    if n == 0 then 0 else Count(tasks, p, n - 1) + if p(tasks[n - 1]) then 1 else 0
  }

  predicate Finished(t: Task) {
    Active(t) && Progress(t) == 100.0
  }

  predicate Started(t: Task) {
    Active(t) && Progress(t) > 0.0
  }

  // The three aggregates of the summary query, and the CASE over them.
  function DerivedStatus(tasks: seq<Task>): Status {
    var active := Count(tasks, Active, |tasks|);
    if active == 0 then Open
    else if Count(tasks, Finished, |tasks|) == active then Completed
    else if Count(tasks, Started, |tasks|) > 0 then InProgress
    else Open
  }

  function Stamp(at: Option<Time>, now: Time): Option<Time> {
    if at.Some? then at else Some(now)
  }

  function Recalculate(m: Mission, tasks: seq<Task>, now: Time): Mission {
    if m.status == Cancelled then m
    else
      var status := DerivedStatus(tasks);
      Mission(status, if status == Completed then Stamp(m.completedAt, now) else None)
  }

  // ---- The derived status in plain terms ----

  lemma {:induction false} CountAll(tasks: seq<Task>, p: Task -> bool, q: Task -> bool, n: nat)
    requires n <= |tasks| && forall t :: p(t) ==> q(t)
    ensures Count(tasks, p, n) <= Count(tasks, q, n)
    ensures Count(tasks, p, n) == Count(tasks, q, n) <==>
              forall i :: 0 <= i < n && q(tasks[i]) ==> p(tasks[i])
  {
    if n > 0 {
      CountAll(tasks, p, q, n - 1);
    }
  }

  lemma {:induction false} CountSome(tasks: seq<Task>, p: Task -> bool, n: nat)
    requires n <= |tasks|
    ensures Count(tasks, p, n) > 0 <==> exists i :: 0 <= i < n && p(tasks[i])
  {
    if n > 0 {
      CountSome(tasks, p, n - 1);
    }
  }

  ghost predicate SomeTask(tasks: seq<Task>, p: Task -> bool) {
    exists i :: 0 <= i < |tasks| && p(tasks[i])
  }

  /** Completed: there is an active task and every active one is at 100 percent.
      In progress: not completed, and some active task is above zero. */
  lemma DerivedStatusMeaning(tasks: seq<Task>)
    ensures DerivedStatus(tasks) == Completed <==>
              && SomeTask(tasks, Active)
              && forall i :: 0 <= i < |tasks| && Active(tasks[i]) ==> Progress(tasks[i]) == 100.0
    ensures DerivedStatus(tasks) == InProgress <==>
              DerivedStatus(tasks) != Completed && SomeTask(tasks, Started)
    ensures DerivedStatus(tasks) != Cancelled
  {
    CountAll(tasks, Finished, Active, |tasks|);
    CountSome(tasks, Active, |tasks|);
    CountSome(tasks, Started, |tasks|);
    if SomeTask(tasks, Started) {
      var i :| 0 <= i < |tasks| && Started(tasks[i]);
      assert Active(tasks[i]);
    }
  }

  // ---- The average shown to users ----

  function ProgressSum(tasks: seq<Task>, n: nat): real
    requires n <= |tasks|
  {
    if n == 0 then 0.0
    else ProgressSum(tasks, n - 1) + if Active(tasks[n - 1]) then Progress(tasks[n - 1]) else 0.0
  }

  function AverageProgress(tasks: seq<Task>): real {
    var active := Count(tasks, Active, |tasks|);
    if active == 0 then 0.0 else ProgressSum(tasks, |tasks|) / active as real
  }

  lemma ProgressCapped(t: Task)
    ensures Progress(t) <= 100.0
  {
  }

  lemma {:induction false} SumAgainstCap(tasks: seq<Task>, n: nat)
    requires n <= |tasks|
    ensures ProgressSum(tasks, n) <= 100.0 * Count(tasks, Active, n) as real
    ensures ProgressSum(tasks, n) == 100.0 * Count(tasks, Active, n) as real <==>
              Count(tasks, Finished, n) == Count(tasks, Active, n)
  {
    if n > 0 {
      SumAgainstCap(tasks, n - 1);
      CountAll(tasks, Finished, Active, n - 1);
      ProgressCapped(tasks[n - 1]);
    }
  }

  lemma QuotientIs(x: real, n: nat, q: real)
    requires n > 0
    ensures x / n as real == q <==> x == q * n as real
  {
  }

  /** A mission with active tasks is completed exactly when its unrounded average is 100. */
  lemma CompletedIffAverageIs100(tasks: seq<Task>)
    requires SomeTask(tasks, Active)
    ensures DerivedStatus(tasks) == Completed <==> AverageProgress(tasks) == 100.0
  {
    CountSome(tasks, Active, |tasks|);
    SumAgainstCap(tasks, |tasks|);
    QuotientIs(ProgressSum(tasks, |tasks|), Count(tasks, Active, |tasks|), 100.0);
  }

  // ---- Tasks ----

  function ItemStatus(sum: real, target: Amount): Status {
    if sum == 0.0 then Open else if sum >= target then Completed else InProgress
  }

  // What every stored task keeps: the sum stays within the target, and the status column and
  // the time stamp say where the sum stands.
  ghost predicate Consistent(t: Task) {
    && (t.Item? ==> Sum(t.contributions) <= t.target)
    && (t.Item? && Active(t) ==> t.status == ItemStatus(Sum(t.contributions), t.target))
    && (t.Checklist? ==> t.status != InProgress)
    && (Active(t) ==> (t.completedAt.Some? <==> t.status == Completed))
  }

  lemma ProductSign(x: real, t: Amount)
    ensures x * t > 0.0 <==> x > 0.0
    ensures x * t == 0.0 <==> x == 0.0
  {
  }

  lemma RatioMeaning(sum: real, target: Amount)
    requires 0.0 <= sum <= target
    ensures sum / target * 100.0 <= 100.0
    ensures sum / target * 100.0 == 100.0 <==> sum == target
    ensures sum / target * 100.0 > 0.0 <==> sum > 0.0
  {
    var r := sum / target;
    assert r * target == sum;
    assert (r - 1.0) * target == sum - target;
    ProductSign(r, target);
    ProductSign(r - 1.0, target);
  }

  /** The percentage and the status column of a stored task never disagree. */
  lemma StatusMatchesProgress(t: Task)
    requires Consistent(t) && Active(t)
    ensures Progress(t) == 100.0 <==> t.status == Completed
    ensures Progress(t) == 0.0 <==> t.status == Open
  {
    if t.Item? {
      SumNonNegative(t.contributions);
      RatioMeaning(Sum(t.contributions), t.target);
    }
  }

  /** The percentage is the sum's share of the target; a checklist has all or nothing. */
  lemma ProgressIsShare(t: Task)
    ensures t.Item? && Sum(t.contributions) <= t.target ==> Progress(t) * t.target == 100.0 * Sum(t.contributions)
    ensures t.Item? && Sum(t.contributions) > t.target ==> Progress(t) == 100.0
    ensures t.Checklist? ==> Progress(t) == if t.status == Completed then 100.0 else 0.0
  {
    if t.Item? {
      Share(Sum(t.contributions), t.target);
    }
  }

  lemma Share(sum: real, target: Amount)
    ensures var percent := sum / target * 100.0;
            percent * target == 100.0 * sum && (percent <= 100.0 <==> sum <= target)
  {
    var r := sum / target;
    assert r * target == sum;
    assert (r * 100.0) * target == 100.0 * (r * target);
    assert (r - 1.0) * target == sum - target;
    ProductSign(r - 1.0, target);
  }

  datatype Request =
    | Toggle(status: Status)
    | EditTarget(target: real)
    | EditDetails
    | Contribute(quantity: real)

  // The edits of one task. seen is the row read under its lock; row is the stored row that the
  // later statements read and update. None is a refused request.
  function Edit(seen: Task, row: Task, request: Request, now: Time): Option<Task> {
    match request
    case Toggle(status) =>
      if !seen.Checklist? || seen.status == Cancelled || (status != Open && status != Completed) then None
      else Some(row.(status := status,
                     completedAt := if status == Completed then Stamp(row.completedAt, now) else None))
    case EditTarget(target) =>
      if !seen.Item? || target <= 0.0 then None else EditItem(row, target, now)
    case EditDetails =>
      if seen.Item? then EditItem(row, seen.target, now) else Some(row)
    case Contribute(quantity) =>
      if !seen.Item? || seen.status == Cancelled || quantity <= 0.0 || !row.Item? then None
      else if Sum(row.contributions) + quantity > seen.target then None
      else Some(Refresh(row.(contributions := row.contributions + [quantity]), now))
  }

  function EditItem(row: Task, target: Amount, now: Time): Option<Task> {
    if !row.Item? || Sum(row.contributions) > target then None
    else if row.status == Cancelled then Some(row.(target := target))
    else Some(Refresh(row.(target := target), now))
  }

  function Refresh(row: Task, now: Time): Task
    requires row.Item?
  {
    var sum := Sum(row.contributions);
    row.(status := ItemStatus(sum, row.target),
         completedAt := if sum >= row.target then Stamp(row.completedAt, now) else None)
  }

  function Created(target: Option<Amount>): Task {
    if target.None? then Checklist(Open, None) else Item(target.value, [], Open, None)
  }

  // No request loses a contribution or changes the kind of a task.
  ghost predicate Grows(before: Task, after: Task) {
    && (before.Item? <==> after.Item?)
    && (before.Item? ==> before.contributions <= after.contributions)
  }

  lemma RefreshConsistent(row: Task, now: Time)
    requires row.Item? && Sum(row.contributions) <= row.target
    ensures Consistent(Refresh(row, now))
  {
    SumNonNegative(row.contributions);
  }

  lemma SumPlus(qs: seq<Amount>, q: Amount)
    ensures Sum(qs + [q]) == Sum(qs) + q
  {
    assert (qs + [q])[..|qs|] == qs;
  }

  lemma EditConsistent(row: Task, request: Request, now: Time)
    requires Consistent(row) && Edit(row, row, request, now).Some?
    ensures Consistent(Edit(row, row, request, now).value)
    ensures Grows(row, Edit(row, row, request, now).value)
  {
    match request
    case Toggle(_) =>
    case EditTarget(target) =>
      if row.status != Cancelled { RefreshConsistent(row.(target := target), now); }
    case EditDetails =>
      if row.Item? && row.status != Cancelled { RefreshConsistent(row, now); }
    case Contribute(quantity) =>
      SumPlus(row.contributions, quantity);
      RefreshConsistent(row.(contributions := row.contributions + [quantity]), now);
  }
}
