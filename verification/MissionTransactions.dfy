// The task handlers of one mission as concurrent transactions: lock the task row, write, lock
// the mission row, recalculate from the committed tasks and the own writes, commit or abort.
module MissionTransactions {
  import opened Options
  import opened MissionProgress

  datatype Change = Updated(task: nat, row: Task) | Inserted(row: Task)

  datatype Txn =
    | TaskLocked(task: nat, seen: Task)
    | Wrote(change: Change)
    | MissionLocked(change: Change, previous: Status)
    | Recalculated(change: Change, previous: Status, mission: Mission)

  type TxnId = nat

  // The committed rows, the number of committed batches of completion notices, and the open transactions.
  datatype State = State(mission: Mission, tasks: seq<Task>, notices: nat, txns: map<TxnId, Txn>)

  datatype Step =
    | LockTask(t: TxnId, task: nat)
    | Apply(t: TxnId, request: Request, now: Time)
    | Insert(t: TxnId, target: Option<Amount>)
    | LockMission(t: TxnId)
    | Recompute(t: TxnId, now: Time)
    | Commit(t: TxnId)
    | Abort(t: TxnId)

  predicate HoldsTask(txn: Txn, task: nat) {
    match txn
    case TaskLocked(i, _) => i == task
    case Wrote(change) => change.Updated? && change.task == task
    case MissionLocked(change, _) => change.Updated? && change.task == task
    case Recalculated(change, _, _) => change.Updated? && change.task == task
  }

  predicate HoldsMission(txn: Txn) {
    txn.MissionLocked? || txn.Recalculated?
  }

  ghost predicate TaskFree(s: State, task: nat) {
    forall t :: t in s.txns ==> !HoldsTask(s.txns[t], task)
  }

  ghost predicate MissionFree(s: State) {
    forall t :: t in s.txns ==> !HoldsMission(s.txns[t])
  }

  // What a transaction sees: the committed tasks with its own writes.
  function Seen(tasks: seq<Task>, change: Change): seq<Task> {
    match change
    case Updated(i, row) => if i < |tasks| then tasks[i := row] else tasks
    case Inserted(row) => tasks + [row]
  }

  function Put(s: State, t: TxnId, txn: Txn): State {
    s.(txns := s.txns[t := txn])
  }

  function CompletedNow(previous: Status, m: Mission): nat {
    if previous != Completed && m.status == Completed then 1 else 0
  }

  ghost predicate Next(s: State, step: Step, s': State) {
    match step
    case LockTask(t, i) =>
      t !in s.txns && i < |s.tasks| && TaskFree(s, i) && s' == Put(s, t, TaskLocked(i, s.tasks[i]))
    case Apply(t, request, now) =>
      && t in s.txns && s.txns[t].TaskLocked? && s.txns[t].task < |s.tasks|
      && (var i := s.txns[t].task;
          var edited := Edit(s.txns[t].seen, s.tasks[i], request, now);
          edited.Some? && s' == Put(s, t, Wrote(Updated(i, edited.value))))
    case Insert(t, target) =>
      t !in s.txns && s' == Put(s, t, Wrote(Inserted(Created(target))))
    case LockMission(t) =>
      && t in s.txns && s.txns[t].Wrote? && MissionFree(s)
      && s' == Put(s, t, MissionLocked(s.txns[t].change, s.mission.status))
    case Recompute(t, now) =>
      && t in s.txns && s.txns[t].MissionLocked?
      && (var txn := s.txns[t];
          s' == Put(s, t, Recalculated(txn.change, txn.previous,
                                       Recalculate(s.mission, Seen(s.tasks, txn.change), now))))
    case Commit(t) =>
      && t in s.txns && s.txns[t].Recalculated?
      && (var txn := s.txns[t];
          s' == State(txn.mission, Seen(s.tasks, txn.change),
                      s.notices + CompletedNow(txn.previous, txn.mission), s.txns - {t}))
    case Abort(t) =>
      t in s.txns && s' == s.(txns := s.txns - {t})
  }

  // ---- The invariant ----

  ghost predicate Agrees(m: Mission, tasks: seq<Task>) {
    m.status != Cancelled ==>
      m.status == DerivedStatus(tasks) && (m.completedAt.Some? <==> m.status == Completed)
  }

  ghost predicate AllConsistent(tasks: seq<Task>) {
    forall i :: 0 <= i < |tasks| ==> Consistent(tasks[i])
  }

  ghost predicate ChangeSafe(s: State, change: Change) {
    && Consistent(change.row)
    && (change.Updated? ==> change.task < |s.tasks| && Grows(s.tasks[change.task], change.row))
  }

  ghost predicate TxnSafe(s: State, txn: Txn) {
    match txn
    case TaskLocked(i, seen) => i < |s.tasks| && seen == s.tasks[i]
    case Wrote(change) => ChangeSafe(s, change)
    case MissionLocked(change, previous) => ChangeSafe(s, change) && previous == s.mission.status
    case Recalculated(change, previous, m) =>
      && ChangeSafe(s, change)
      && previous == s.mission.status
      && Agrees(m, Seen(s.tasks, change))
  }

  // A locked row has one holder.
  ghost predicate LocksExclusive(s: State) {
    forall t, u :: t in s.txns && u in s.txns && t != u ==>
      && !(HoldsMission(s.txns[t]) && HoldsMission(s.txns[u]))
      && (forall i :: HoldsTask(s.txns[t], i) ==> !HoldsTask(s.txns[u], i))
  }

  ghost predicate Inv(s: State) {
    && Agrees(s.mission, s.tasks)
    && AllConsistent(s.tasks)
    && LocksExclusive(s)
    && forall t :: t in s.txns ==> TxnSafe(s, s.txns[t])
  }

  lemma RecalculateAgrees(m: Mission, tasks: seq<Task>, now: Time)
    ensures Agrees(Recalculate(m, tasks, now), tasks)
    ensures Recalculate(m, tasks, now).status == Cancelled <==> m.status == Cancelled
  {
    DerivedStatusMeaning(tasks);
  }

  // Replacing one transaction by a safe one with the same or newly free locks.
  lemma PutKeepsInv(s: State, t: TxnId, txn: Txn)
    requires Inv(s) && TxnSafe(s, txn)
    requires forall u :: u in s.txns && u != t && HoldsMission(txn) ==> !HoldsMission(s.txns[u])
    requires forall u, i :: u in s.txns && u != t && HoldsTask(txn, i) ==> !HoldsTask(s.txns[u], i)
    ensures Inv(Put(s, t, txn))
  {
    var s' := Put(s, t, txn);
    forall u | u in s'.txns
      ensures TxnSafe(s', s'.txns[u])
    {
      assert TxnSafe(s, s'.txns[u]);
    }
    forall u, v | u in s'.txns && v in s'.txns && u != v
      ensures !(HoldsMission(s'.txns[u]) && HoldsMission(s'.txns[v]))
      ensures forall i :: HoldsTask(s'.txns[u], i) ==> !HoldsTask(s'.txns[v], i)
    {
    }
  }

  lemma DropKeepsInv(s: State, t: TxnId)
    requires Inv(s)
    ensures Inv(s.(txns := s.txns - {t}))
  {
    var s' := s.(txns := s.txns - {t});
    forall u | u in s'.txns
      ensures TxnSafe(s', s'.txns[u])
    {
      assert TxnSafe(s, s.txns[u]);
    }
  }

  // The other transactions do not notice a commit: it changed only rows they do not hold.
  lemma CommitFrame(s: State, t: TxnId, s': State, u: TxnId)
    requires Inv(s) && Next(s, Commit(t), s') && u in s'.txns
    ensures TxnSafe(s', s'.txns[u])
  {
    assert u != t && u in s.txns;
    assert TxnSafe(s, s.txns[t]) && TxnSafe(s, s.txns[u]);
    var change := s.txns[t].change;
    assert change.Updated? ==> HoldsTask(s.txns[t], change.task);
    assert change.Updated? ==> !HoldsTask(s.txns[u], change.task);
    assert HoldsMission(s.txns[t]);
  }

  lemma CommitKeepsInv(s: State, t: TxnId, s': State)
    requires Inv(s) && Next(s, Commit(t), s')
    ensures Inv(s')
  {
    assert TxnSafe(s, s.txns[t]);
    forall u | u in s'.txns
      ensures TxnSafe(s', s'.txns[u])
    {
      CommitFrame(s, t, s', u);
    }
  }

  lemma ApplyKeepsInv(s: State, t: TxnId, request: Request, now: Time, s': State)
    requires Inv(s) && Next(s, Apply(t, request, now), s')
    ensures Inv(s')
  {
    assert TxnSafe(s, s.txns[t]);
    var i := s.txns[t].task;
    assert Consistent(s.tasks[i]);
    EditConsistent(s.tasks[i], request, now);
    assert HoldsTask(s.txns[t], i);
    PutKeepsInv(s, t, s'.txns[t]);
  }

  lemma StepKeepsInv(s: State, step: Step, s': State)
    requires Inv(s) && Next(s, step, s')
    ensures Inv(s')
  {
    match step
    case LockTask(t, i) => PutKeepsInv(s, t, TaskLocked(i, s.tasks[i]));
    case Apply(t, request, now) => ApplyKeepsInv(s, t, request, now, s');
    case Insert(t, target) => PutKeepsInv(s, t, Wrote(Inserted(Created(target))));
    case LockMission(t) =>
      assert TxnSafe(s, s.txns[t]);
      PutKeepsInv(s, t, s'.txns[t]);
    case Recompute(t, now) =>
      assert TxnSafe(s, s.txns[t]);
      RecalculateAgrees(s.mission, Seen(s.tasks, s.txns[t].change), now);
      PutKeepsInv(s, t, s'.txns[t]);
    case Commit(t) => CommitKeepsInv(s, t, s');
    case Abort(t) => DropKeepsInv(s, t);
  }

  // ---- Runs ----

  ghost predicate Settled(s: State) {
    Agrees(s.mission, s.tasks) && AllConsistent(s.tasks) && s.txns == map[]
  }

  ghost predicate Run(states: seq<State>, steps: seq<Step>) {
    && |states| == |steps| + 1
    && Settled(states[0])
    && forall i :: 0 <= i < |steps| ==> Next(states[i], steps[i], states[i + 1])
  }

  lemma {:induction false} RunInv(states: seq<State>, steps: seq<Step>, i: nat)
    requires Run(states, steps) && i < |states|
    ensures Inv(states[i])
  {
    if i > 0 {
      RunInv(states, steps, i - 1);
      StepKeepsInv(states[i - 1], steps[i - 1], states[i]);
    }
  }

  /** A freshly created mission is settled. */
  lemma NewMissionSettled()
    ensures Settled(State(Mission(Open, None), [], 0, map[]))
  {
  }

  /** In every interleaving the committed mission row is the one derived from the committed tasks. */
  lemma MissionRowIsDerived(states: seq<State>, steps: seq<Step>, i: nat)
    requires Run(states, steps) && i < |states| && states[i].mission.status != Cancelled
    ensures states[i].mission.status == DerivedStatus(states[i].tasks)
    ensures states[i].mission.completedAt.Some? <==> states[i].mission.status == Completed
  {
    RunInv(states, steps, i);
  }

  /** In every interleaving a committed item task stays within its target, and its status column
      tells where its sum stands. */
  lemma ItemTasksWithinTarget(states: seq<State>, steps: seq<Step>, i: nat, k: nat)
    requires Run(states, steps) && i < |states| && k < |states[i].tasks| && states[i].tasks[k].Item?
    ensures var task := states[i].tasks[k];
            && Sum(task.contributions) <= task.target
            && (Active(task) ==>
                  && (task.status == Open <==> Sum(task.contributions) == 0.0)
                  && (task.status == Completed <==> Sum(task.contributions) == task.target)
                  && (task.completedAt.Some? <==> task.status == Completed))
  {
    RunInv(states, steps, i);
    assert Consistent(states[i].tasks[k]);
  }

  /** No committed contribution is ever lost. */
  lemma {:induction false} ContributionsKept(states: seq<State>, steps: seq<Step>, i: nat, j: nat, k: nat)
    requires Run(states, steps) && i <= j < |states| && k < |states[i].tasks|
    ensures k < |states[j].tasks| && Grows(states[i].tasks[k], states[j].tasks[k])
  {
    if i < j {
      ContributionsKept(states, steps, i, j - 1, k);
      RunInv(states, steps, j - 1);
      var s, step := states[j - 1], steps[j - 1];
      assert Next(s, step, states[j]);
      if step.Commit? {
        assert TxnSafe(s, s.txns[step.t]);
      }
    }
  }

  // ---- Completion notices ----

  function Transitions(states: seq<State>, n: nat): nat
    requires 0 < |states| && n < |states|
  {
    if n == 0 then 0
    else Transitions(states, n - 1) + CompletedNow(states[n - 1].mission.status, states[n].mission)
  }

  /** One batch of notices is committed for each committed transition into completed. */
  lemma {:induction false} OneNoticePerCompletion(states: seq<State>, steps: seq<Step>, n: nat)
    requires Run(states, steps) && n < |states|
    ensures states[n].notices == states[0].notices + Transitions(states, n)
  {
    if n > 0 {
      OneNoticePerCompletion(states, steps, n - 1);
      RunInv(states, steps, n - 1);
      var s, step := states[n - 1], steps[n - 1];
      assert Next(s, step, states[n]);
      if step.Commit? {
        assert TxnSafe(s, s.txns[step.t]);
      }
    }
  }
}
