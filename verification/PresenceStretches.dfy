// One device on a stretch of a run on which nothing of its state is deleted.
module PresenceStretches {
  import opened Options
  import opened PresenceHistory
  import opened PresenceProtocol
  import opened PresenceRuns

  // Steps that delete the device's presence row or history rows.
  ghost predicate Disturbs(s: State, step: Step, d: DeviceId) {
    match step
    case CommitRevoke(t) => t in s.txns && s.txns[t].RevokeWritten? && s.txns[t].device == d
    case CommitDeactivate(t) => t in s.txns && s.txns[t].DeactivateSwept? && d in s.txns[t].swept
    case EraseHistory(u) => d in s.devices && s.devices[d].owner == u
    case Cleanup(bound) => d in s.history && Retained(s.history[d], bound, |s.history[d]|) != s.history[d]
    case _ => false
  }

  predicate CommitsFor(s: State, step: Step, d: DeviceId) {
    step.CommitPut? && CanAccept(s, step.t) && s.txns[step.t].device == d
  }

  // A recorded update of the device was decided on the history as it still is.
  ghost predicate Current(s: State, d: DeviceId) {
    forall t :: t in s.txns && s.txns[t].PutRecorded? && s.txns[t].device == d && d in s.history ==>
      s.txns[t].insert == NewestDiffers(s.history[d], s.txns[t].entry.kept)
  }

  ghost predicate Known(s: State, d: DeviceId) {
    d in s.devices && d in s.history
  }

  lemma OtherStepsKeepView(s: State, step: Step, s': State, d: DeviceId)
    requires Next(s, step, s') && Known(s, d) && !Disturbs(s, step, d) && !CommitsFor(s, step, d)
    ensures Known(s', d) && ViewOf(s', d) == ViewOf(s, d)
  {
    match step
    case CommitRevoke(_) =>
    case CommitDeactivate(_) =>
    case EraseHistory(_) =>
    case Cleanup(_) =>
    case CommitPut(_) =>
    case Pair(_, _) =>
    case _ => assert s'.devices == s.devices && s'.presence == s.presence && s'.history == s.history;
  }

  lemma OtherStepsKeepCurrent(s: State, step: Step, s': State, d: DeviceId)
    requires Next(s, step, s') && Known(s, d) && Current(s, d)
    requires !Disturbs(s, step, d) && !CommitsFor(s, step, d)
    ensures Current(s', d)
  {
    OtherStepsKeepView(s, step, s', d);
    forall t | t in s'.txns && s'.txns[t].PutRecorded? && s'.txns[t].device == d
      ensures s'.txns[t].insert == NewestDiffers(s'.history[d], s'.txns[t].entry.kept)
    {
      if !(step.RecordPut? && t == step.t) {
        assert t in s.txns && s.txns[t] == s'.txns[t];
      }
    }
  }

  // Nobody else has recorded an update of the device that is being committed.
  lemma CommitKeepsCurrent(s: State, t: TxnId, d: DeviceId)
    requires Inv(s) && CanAccept(s, t) && s.txns[t].device == d
    ensures Current(Accept(s, t), d)
  {
    forall v | v in s.txns && v != t && s.txns[v].PutRecorded? ensures s.txns[v].device != d {
      assert HoldsDevice(s.txns[v], s.txns[v].device) && HoldsDevice(s.txns[t], d);
    }
  }

  // The requests committed for the device from state i to state n, in commit order.
  function Committed(states: seq<State>, steps: seq<Step>, i: nat, n: nat, d: DeviceId): seq<Request>
    requires i <= n <= |steps| < |states|
    decreases n
  {
    if n == i then []
    else
      var s, step := states[n - 1], steps[n - 1];
      Committed(states, steps, i, n - 1, d) + if CommitsFor(s, step, d) then [RequestOf(s.txns[step.t])] else []
  }

  lemma {:induction false} HighMarkPrefix(mark: nat, rs: seq<Request>, r: Request, n: nat)
    requires n <= |rs|
    ensures HighMark(mark, rs + [r], n) == HighMark(mark, rs, n)
    ensures RecordHighs(mark, rs + [r], n) == RecordHighs(mark, rs, n)
  {
    if n > 0 {
      HighMarkPrefix(mark, rs, r, n - 1);
    }
  }

  // rs leads from u to v, and each of rs exceeded all before it.
  ghost predicate Leads(u: DeviceView, rs: seq<Request>, v: DeviceView) {
    v == HandleAll(u, rs) && RecordHighs(u.mark, rs, |rs|) == rs
  }

  lemma LeadsOn(u: DeviceView, rs: seq<Request>, v: DeviceView, r: Request)
    requires Leads(u, rs, v) && Answered(v, r) == Accepted
    ensures Leads(u, rs + [r], Handle(v, r))
  {
    HandleAppend(u, rs, r);
    HighMarkPrefix(u.mark, rs, r, |rs|);
    MarkIsHighMark(u, rs, |rs|);
  }

  // Where a run stands for one device after a stretch.
  ghost predicate Stands(s: State, d: DeviceId, u: DeviceView, rs: seq<Request>) {
    Known(s, d) && Current(s, d) && Leads(u, rs, ViewOf(s, d))
  }

  lemma StepStands(s: State, step: Step, s': State, d: DeviceId, u: DeviceView, rs: seq<Request>)
    requires Inv(s) && Next(s, step, s') && !Disturbs(s, step, d) && Stands(s, d, u, rs)
    ensures Stands(s', d, u, rs + if CommitsFor(s, step, d) then [RequestOf(s.txns[step.t])] else [])
  {
    if CommitsFor(s, step, d) {
      CommitIsHandle(s, step.t);
      CommitKeepsCurrent(s, step.t, d);
      LeadsOn(u, rs, ViewOf(s, d), RequestOf(s.txns[step.t]));
    } else {
      OtherStepsKeepView(s, step, s', d);
      OtherStepsKeepCurrent(s, step, s', d);
      assert rs + [] == rs;
    }
  }

  ghost predicate Undisturbed(states: seq<State>, steps: seq<Step>, i: nat, j: nat, d: DeviceId)
    requires i <= j <= |steps| < |states|
  {
    forall k :: i <= k < j ==> !Disturbs(states[k], steps[k], d)
  }

  lemma RunStands(states: seq<State>, steps: seq<Step>, i: nat, n: nat, d: DeviceId, u: DeviceView, rs: seq<Request>)
    requires Run(states, steps) && i < n < |states| && rs == Committed(states, steps, i, n - 1, d)
    requires !Disturbs(states[n - 1], steps[n - 1], d) && Stands(states[n - 1], d, u, rs)
    ensures Stands(states[n], d, u, Committed(states, steps, i, n, d))
  {
    RunInv(states, steps, n - 1);
    StepStands(states[n - 1], steps[n - 1], states[n], d, u, rs);
  }

  lemma {:induction false} StretchStands(states: seq<State>, steps: seq<Step>, i: nat, n: nat, d: DeviceId,
                                         u: DeviceView)
    returns (rs: seq<Request>)
    requires Run(states, steps) && i <= n < |states| && Stands(states[i], d, u, [])
    requires Undisturbed(states, steps, i, n, d)
    ensures rs == Committed(states, steps, i, n, d) && Stands(states[n], d, u, rs)
    decreases n
  {
    if i == n {
      rs := [];
    } else {
      var before := StretchStands(states, steps, i, n - 1, d, u);
      RunStands(states, steps, i, n, d, u, before);
      rs := Committed(states, steps, i, n, d);
    }
  }

  /** On any stretch of a run without a deletion, the device's mark, presence row and history come
      from the requests committed for it, handled one after the other, and these are their own
      record highs; whatever else was sent, late, twice or out of order, left no trace. */
  lemma StretchIsHandled(states: seq<State>, steps: seq<Step>, i: nat, j: nat, d: DeviceId)
    requires Run(states, steps) && i <= j < |states| && Known(states[i], d) && Current(states[i], d)
    requires Undisturbed(states, steps, i, j, d)
    ensures Known(states[j], d)
    ensures var rs := Committed(states, steps, i, j, d);
            && ViewOf(states[j], d) == HandleAll(ViewOf(states[i], d), rs)
            && RecordHighs(states[i].devices[d].mark, rs, |rs|) == rs
  {
    var rs := StretchStands(states, steps, i, j, d, ViewOf(states[i], d));
  }

  // ---- Which snapshot a repeat repeats ----

  // Some step before n commits an update of the device with this revision and snapshot.
  ghost predicate AcceptedBefore(states: seq<State>, steps: seq<Step>, n: nat, d: DeviceId, revision: nat,
                                 snapshot: Snapshot)
    requires n <= |steps| < |states|
  {
    exists k :: 0 <= k < n && AcceptedAt(states, steps, k, d, revision, snapshot)
  }

  ghost predicate AcceptedAt(states: seq<State>, steps: seq<Step>, k: nat, d: DeviceId, revision: nat,
                             snapshot: Snapshot)
    requires k < |steps| < |states|
  {
    && steps[k].CommitPut? && steps[k].t in states[k].txns && states[k].txns[steps[k].t].PutRecorded?
    && var txn := states[k].txns[steps[k].t];
       txn.device == d && txn.entry.revision == revision && txn.snapshot == snapshot
  }

  // Only a commit writes a presence row.
  lemma OnlyCommitsShow(s: State, step: Step, s': State, d: DeviceId)
    requires Next(s, step, s') && d in s'.presence
    ensures (d in s.presence && s'.presence[d] == s.presence[d])
            || (CommitsFor(s, step, d)
                && s'.presence[d] == Presence(s.txns[step.t].entry.revision, s.txns[step.t].snapshot))
  {
    if !step.CommitPut? && !step.CommitRevoke? && !step.CommitDeactivate? {
      assert s'.presence == s.presence;
    }
  }

  /** A stored presence row, and so an answer that an update is a repeat, is of the revision and the
      snapshot that were accepted together. */
  lemma {:induction false} ShownWasAccepted(states: seq<State>, steps: seq<Step>, n: nat, d: DeviceId)
    requires Run(states, steps) && n < |states| && d !in states[0].presence && d in states[n].presence
    ensures AcceptedBefore(states, steps, n, d, states[n].presence[d].revision, states[n].presence[d].snapshot)
  {
    if n > 0 {
      var s, step, s' := states[n - 1], steps[n - 1], states[n];
      OnlyCommitsShow(s, step, s', d);
      if d in s.presence && s'.presence[d] == s.presence[d] {
        ShownWasAccepted(states, steps, n - 1, d);
        var k :| 0 <= k < n - 1 && AcceptedAt(states, steps, k, d, s.presence[d].revision, s.presence[d].snapshot);
        assert AcceptedAt(states, steps, k, d, s'.presence[d].revision, s'.presence[d].snapshot);
      } else {
        assert AcceptedAt(states, steps, n - 1, d, s'.presence[d].revision, s'.presence[d].snapshot);
      }
    }
  }

  /** Over every run a revision is called a repeat only for the snapshot that was accepted under it;
      any other snapshot under the current revision is a conflict. */
  lemma RepeatOnlyOfAccepted(states: seq<State>, steps: seq<Step>, n: nat, d: DeviceId, r: Request)
    requires Run(states, steps) && n < |states| && d !in states[0].presence && Known(states[n], d)
    ensures Answered(ViewOf(states[n], d), r) == Repeated ==>
              AcceptedBefore(states, steps, n, d, r.revision, r.snapshot)
    ensures r.revision == states[n].devices[d].mark && d in states[n].presence ==>
              Answered(ViewOf(states[n], d), r)
              == if states[n].presence[d].snapshot == r.snapshot then Repeated else Conflict(r.revision)
  {
    if d in states[n].presence {
      ShownWasAccepted(states, steps, n, d);
      RunInv(states, steps, n);
      assert PresenceSafe(states[n], d);
    }
  }

  // ---- Deactivations disturb the devices of their own account only ----

  ghost predicate SweptOwned(s: State) {
    forall t, d :: t in s.txns && s.txns[t].DeactivateSwept? && d in s.txns[t].swept ==>
      d in s.devices && s.devices[d].owner == s.txns[t].user
  }

  lemma StepKeepsSweptOwned(s: State, step: Step, s': State)
    requires SweptOwned(s) && Next(s, step, s')
    ensures SweptOwned(s')
  {
    assert forall d :: d in s.devices ==> d in s'.devices && s'.devices[d].owner == s.devices[d].owner;
    forall t, d | t in s'.txns && s'.txns[t].DeactivateSwept? && d in s'.txns[t].swept
      ensures d in s'.devices && s'.devices[d].owner == s'.txns[t].user
    {
      if !(step.SweepDeactivate? && t == step.t) {
        assert t in s.txns && s.txns[t] == s'.txns[t];
      }
    }
  }

  lemma {:induction false} RunSweepsOwned(states: seq<State>, steps: seq<Step>, i: nat)
    requires Run(states, steps) && i < |states|
    ensures SweptOwned(states[i])
  {
    if i > 0 {
      RunSweepsOwned(states, steps, i - 1);
      StepKeepsSweptOwned(states[i - 1], steps[i - 1], states[i]);
    }
  }

  lemma OnlyOwnDeactivationDisturbs(states: seq<State>, steps: seq<Step>, i: nat, d: DeviceId)
    requires Run(states, steps) && i < |steps| && steps[i].CommitDeactivate? && Disturbs(states[i], steps[i], d)
    ensures d in states[i].devices && states[i].devices[d].owner == states[i].txns[steps[i].t].user
  {
    RunSweepsOwned(states, steps, i);
  }
}
