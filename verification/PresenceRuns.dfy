// What holds over whole runs of the presence protocol, and what a lone device sees.
module PresenceRuns {
  import opened Options
  import opened PresenceHistory
  import opened PresenceProtocol

  // ---- Runs ----

  ghost predicate Settled(s: State) {
    Inv(s) && s.txns == map[]
  }

  ghost predicate Run(states: seq<State>, steps: seq<Step>) {
    && |states| == |steps| + 1
    && Settled(states[0])
    && forall i :: 0 <= i < |steps| ==> Next(states[i], steps[i], states[i + 1])
  }

  // A database without devices is such a start.
  lemma FreshIsSettled(s: State)
    requires s.devices == map[] && s.presence == map[] && s.history == map[] && s.log == map[] && s.txns == map[]
    ensures Settled(s) && Undeleted(s)
  {
  }

  lemma {:induction false} RunInv(states: seq<State>, steps: seq<Step>, i: nat)
    requires Run(states, steps) && i < |states|
    ensures Inv(states[i])
  {
    if i > 0 {
      RunInv(states, steps, i - 1);
      StepKeepsInv(states[i - 1], steps[i - 1], states[i]);
    }
  }

  /** Whatever races with what, a committed presence row belongs to an unrevoked device of an
      active account and carries the device's high-water mark. */
  lemma ShownPresenceIsLive(states: seq<State>, steps: seq<Step>, i: nat, d: DeviceId)
    requires Run(states, steps) && i < |states| && d in states[i].presence
    ensures var s := states[i];
            && d in s.devices && !s.devices[d].revoked
            && s.devices[d].owner in s.active && s.active[s.devices[d].owner]
            && s.presence[d].revision == s.devices[d].mark
  {
    RunInv(states, steps, i);
    assert PresenceSafe(states[i], d);
  }

  // The mark has not fallen, the log has only grown, and a revoked device has stayed as it was.
  ghost predicate Grew(s: State, s': State, d: DeviceId) {
    && d in s.devices && d in s.log && d in s'.devices && d in s'.log
    && s.devices[d].mark <= s'.devices[d].mark
    && s.log[d] <= s'.log[d]
    && (s.devices[d].revoked ==> s'.devices[d].revoked && s.log[d] == s'.log[d])
  }

  lemma GrewTransitive(a: State, b: State, c: State, d: DeviceId)
    requires Grew(a, b, d) && Grew(b, c, d)
    ensures Grew(a, c, d)
  {
  }

  lemma AcceptGrew(s: State, t: TxnId, d: DeviceId)
    requires Inv(s) && CanAccept(s, t) && d in s.devices
    ensures Grew(s, Accept(s, t), d)
  {
    assert DeviceSafe(s, d) && TxnSafe(s, s.txns[t]);
  }

  // The other steps accept nothing; at most they revoke.
  lemma OtherStepGrew(s: State, step: Step, s': State, d: DeviceId)
    requires Next(s, step, s') && !step.CommitPut? && d in s.devices && d in s.log
    ensures Grew(s, s', d)
  {
    if !step.CommitRevoke? && !step.Pair? {
      assert s'.devices == s.devices && s'.log == s.log;
    }
  }

  lemma StepGrew(s: State, step: Step, s': State, d: DeviceId)
    requires Inv(s) && Next(s, step, s') && d in s.devices
    ensures Grew(s, s', d)
  {
    if step.CommitPut? {
      AcceptGrew(s, step.t, d);
    } else {
      assert DeviceSafe(s, d);
      OtherStepGrew(s, step, s', d);
    }
  }

  lemma RunGrew(states: seq<State>, steps: seq<Step>, i: nat, d: DeviceId)
    requires Run(states, steps) && i < |steps| && d in states[i].devices
    ensures Grew(states[i], states[i + 1], d)
  {
    RunInv(states, steps, i);
    StepGrew(states[i], steps[i], states[i + 1], d);
  }

  lemma RunHasLog(states: seq<State>, steps: seq<Step>, i: nat, d: DeviceId)
    requires Run(states, steps) && i < |states| && d in states[i].devices
    ensures Grew(states[i], states[i], d)
  {
    RunInv(states, steps, i);
    assert DeviceSafe(states[i], d);
  }

  /** The mark never falls, the log of accepted snapshots only grows, and a revoked device stays
      revoked and is never answered with an acceptance again. */
  lemma {:induction false} MarkNeverFalls(states: seq<State>, steps: seq<Step>, i: nat, j: nat, d: DeviceId)
    requires Run(states, steps) && i <= j < |states| && d in states[i].devices
    ensures Grew(states[i], states[j], d)
  {
    if i == j {
      RunHasLog(states, steps, i, d);
    } else {
      MarkNeverFalls(states, steps, i, j - 1, d);
      RunGrew(states, steps, j - 1, d);
      GrewTransitive(states[i], states[j - 1], states[j], d);
    }
  }

  /** Each revision of a device is accepted at most once, in rising order, and the newest is the mark. */
  lemma RevisionsAcceptedOnce(states: seq<State>, steps: seq<Step>, i: nat, d: DeviceId)
    requires Run(states, steps) && i < |states| && d in states[i].devices
    ensures var log := if d in states[i].log then states[i].log[d] else [];
            && (forall a, b :: 0 <= a < b < |log| ==> log[a].revision < log[b].revision)
            && (|log| > 0 ==> log[|log| - 1].revision == states[i].devices[d].mark)
  {
    RunInv(states, steps, i);
    assert DeviceSafe(states[i], d);
  }

  /** Whatever was deleted, neighbouring rows differ, and every accepted snapshot not older than
      the oldest retained row can be looked up. */
  lemma RetainedHistoryIsFaithful(states: seq<State>, steps: seq<Step>, i: nat, d: DeviceId, e: Entry)
    requires Run(states, steps) && i < |states| && d in states[i].devices
    requires d in states[i].history && d in states[i].log && e in states[i].log[d]
    ensures var history := states[i].history[d];
            && (forall k :: 0 < k < |history| ==> history[k - 1].kept != history[k].kept)
            && (|history| > 0 && history[0].revision <= e.revision ==>
                  Lookup(history, e.revision, |history|) == Some(e.kept))
  {
    RunInv(states, steps, i);
    assert DeviceSafe(states[i], d);
  }

  /** The unique (device, revision) constraint on history rows never comes into play. */
  lemma NoRevisionConflict(states: seq<State>, steps: seq<Step>, i: nat, t: TxnId)
    requires Run(states, steps) && i < |states| && t in states[i].txns
    requires states[i].txns[t].PutWritten? || states[i].txns[t].PutRecorded?
    requires states[i].txns[t].device in states[i].history
    ensures forall x :: x in states[i].history[states[i].txns[t].device] ==>
              x.revision < states[i].txns[t].entry.revision
  {
    var s := states[i];
    RunInv(states, steps, i);
    assert TxnSafe(s, s.txns[t]);
    assert DeviceSafe(s, s.txns[t].device);
  }

  // ---- Runs without deletions ----

  ghost predicate AllChanges(s: State) {
    forall d :: d in s.devices && d in s.history && d in s.log ==> s.history[d] == HistoryOf(s.log[d])
  }

  // Every recorded update was decided on the history as it still is.
  ghost predicate AllCurrent(s: State) {
    forall t :: t in s.txns && s.txns[t].PutRecorded? && s.txns[t].device in s.history ==>
      s.txns[t].insert == NewestDiffers(s.history[s.txns[t].device], s.txns[t].entry.kept)
  }

  ghost predicate Undeleted(s: State) {
    AllChanges(s) && AllCurrent(s)
  }

  lemma RecordOne(history: seq<Entry>, log: seq<Entry>, e: Entry, insert: bool)
    requires history == HistoryOf(log) && insert == NewestDiffers(history, e.kept)
    ensures Append(history, e, insert) == HistoryOf(log + [e])
  {
    assert (log + [e])[..|log|] == log;
  }

  lemma AcceptOwnHistory(s: State, t: TxnId, d: DeviceId)
    requires CanAccept(s, t) && d == s.txns[t].device && s.history[d] == HistoryOf(s.log[d])
    requires s.txns[t].insert == NewestDiffers(s.history[d], s.txns[t].entry.kept)
    ensures Accept(s, t).history[d] == HistoryOf(Accept(s, t).log[d])
  {
    RecordOne(s.history[d], s.log[d], s.txns[t].entry, s.txns[t].insert);
  }

  lemma NobodyElseRecords(s: State, t: TxnId, v: TxnId)
    requires Inv(s) && CanAccept(s, t) && v in s.txns && v != t && s.txns[v].PutRecorded?
    ensures s.txns[v].device != s.txns[t].device
  {
    assert HoldsDevice(s.txns[v], s.txns[v].device) && HoldsDevice(s.txns[t], s.txns[t].device);
  }

  lemma AcceptHistories(s: State, t: TxnId)
    requires AllChanges(s) && AllCurrent(s) && CanAccept(s, t) && s.txns[t].device in s.devices
    ensures AllChanges(Accept(s, t))
  {
    var s', d0 := Accept(s, t), s.txns[t].device;
    AcceptOwnHistory(s, t, d0);
    forall d | d in s'.devices && d in s'.history && d in s'.log ensures s'.history[d] == HistoryOf(s'.log[d]) {
      if d != d0 { assert s'.history[d] == s.history[d] && s'.log[d] == s.log[d]; }
    }
  }

  lemma AcceptCurrent(s: State, t: TxnId)
    requires Inv(s) && AllCurrent(s) && CanAccept(s, t)
    ensures AllCurrent(Accept(s, t))
  {
    var s' := Accept(s, t);
    forall v | v in s'.txns && s'.txns[v].PutRecorded? && s'.txns[v].device in s'.history
      ensures s'.txns[v].insert == NewestDiffers(s'.history[s'.txns[v].device], s'.txns[v].entry.kept)
    {
      NobodyElseRecords(s, t, v);
    }
  }

  lemma AcceptUndeleted(s: State, t: TxnId)
    requires Inv(s) && Undeleted(s) && CanAccept(s, t)
    ensures Undeleted(Accept(s, t))
  {
    AcceptHistories(s, t);
    AcceptCurrent(s, t);
  }

  lemma StepUndeleted(s: State, step: Step, s': State)
    requires Inv(s) && Undeleted(s) && Next(s, step, s') && !step.EraseHistory? && !step.Cleanup?
    ensures Undeleted(s')
  {
    if step.CommitPut? {
      AcceptUndeleted(s, step.t);
    } else if step.Pair? {
      PairUndeleted(s, step, s');
    } else {
      QuietUndeleted(s, step, s');
    }
  }

  // The other steps leave the histories and the decided inserts alone; recording decides one.
  lemma QuietUndeleted(s: State, step: Step, s': State)
    requires Undeleted(s) && Next(s, step, s')
    requires !step.CommitPut? && !step.Pair? && !step.EraseHistory? && !step.Cleanup?
    ensures Undeleted(s')
  {
    assert s'.history == s.history && s'.log == s.log && s'.devices.Keys == s.devices.Keys;
    forall v | v in s'.txns && s'.txns[v].PutRecorded? && s'.txns[v].device in s'.history
      ensures s'.txns[v].insert == NewestDiffers(s'.history[s'.txns[v].device], s'.txns[v].entry.kept)
    {
      if step.RecordPut? && v == step.t {
      } else {
        assert v in s.txns && s.txns[v] == s'.txns[v];
      }
    }
  }

  lemma PairUndeleted(s: State, step: Step, s': State)
    requires Inv(s) && Undeleted(s) && Next(s, step, s') && step.Pair?
    ensures Undeleted(s')
  {
    forall t | t in s'.txns && s'.txns[t].PutRecorded?
      ensures s'.txns[t].device != step.device
    {
      assert TxnSafe(s, s.txns[t]);
    }
  }

  lemma {:induction false} UndeletedHistoryIsChanges(states: seq<State>, steps: seq<Step>, i: nat)
    requires Run(states, steps) && i < |states| && Undeleted(states[0])
    requires forall k :: 0 <= k < |steps| ==> !steps[k].EraseHistory? && !steps[k].Cleanup?
    ensures Undeleted(states[i])
  {
    if i > 0 {
      UndeletedHistoryIsChanges(states, steps, i - 1);
      RunInv(states, steps, i - 1);
      StepUndeleted(states[i - 1], steps[i - 1], states[i]);
    }
  }

  /** As long as nothing is deleted, the history is the accepted log without consecutive duplicates. */
  lemma HistoryIsAcceptedChanges(states: seq<State>, steps: seq<Step>, i: nat, d: DeviceId)
    requires Run(states, steps) && i < |states| && Undeleted(states[0])
    requires forall k :: 0 <= k < |steps| ==> !steps[k].EraseHistory? && !steps[k].Cleanup?
    requires d in states[i].devices && d in states[i].history && d in states[i].log
    ensures states[i].history[d] == Changes(states[i].log[d], |states[i].log[d]|)
  {
    UndeletedHistoryIsChanges(states, steps, i);
    HistoryIsChanges(states[i].log[d]);
  }

  // ---- One device between revocations, deactivations and deletions ----

  datatype DeviceView = DeviceView(mark: nat, presence: Option<Presence>, history: seq<Entry>)

  datatype Request = Request(revision: nat, snapshot: Snapshot, id: nat, now: Time)

  datatype Answer = Accepted | Repeated | Stale(current: nat) | Conflict(current: nat)

  function Answered(v: DeviceView, r: Request): Answer {
    if r.revision < v.mark then Stale(v.mark)
    else if r.revision > v.mark then Accepted
    else if v.presence.Some? && v.presence.value.snapshot == r.snapshot then Repeated
    else Conflict(v.mark)
  }

  function Handle(v: DeviceView, r: Request): DeviceView {
    if Answered(v, r).Accepted?
    then DeviceView(r.revision, Some(Presence(r.revision, r.snapshot)),
                    Record(v.history, Entry(r.id, r.revision, r.snapshot.kept, r.now)))
    else v
  }

  function ViewOf(s: State, d: DeviceId): DeviceView
    requires d in s.devices && d in s.history
  {
    DeviceView(s.devices[d].mark, if d in s.presence then Some(s.presence[d]) else None, s.history[d])
  }

  function RequestOf(txn: Txn): Request
    requires txn.PutRecorded?
  {
    Request(txn.entry.revision, txn.snapshot, txn.entry.id, txn.entry.receivedAt)
  }

  /** The committed effect of an accepted transaction is that of one request handled alone. */
  lemma CommitIsHandle(s: State, t: TxnId)
    requires Inv(s) && CanAccept(s, t)
    requires s.txns[t].insert == NewestDiffers(s.history[s.txns[t].device], s.txns[t].entry.kept)
    ensures var d, r := s.txns[t].device, RequestOf(s.txns[t]);
            && Answered(ViewOf(s, d), r) == Accepted
            && ViewOf(Accept(s, t), d) == Handle(ViewOf(s, d), r)
  {
    assert TxnSafe(s, s.txns[t]);
  }

  ghost predicate Follows(states: seq<State>, steps: seq<Step>) {
    && |states| == |steps| + 1
    && forall i :: 0 <= i < |steps| ==> Next(states[i], steps[i], states[i + 1])
  }

  lemma FollowsOn(states: seq<State>, steps: seq<Step>, step: Step, s': State)
    returns (all: seq<State>, done: seq<Step>)
    requires Follows(states, steps) && Next(states[|steps|], step, s')
    ensures all == states + [s'] && done == steps + [step] && Follows(all, done) && all[|done|] == s'
  {
    all, done := states + [s'], steps + [step];
    forall i | 0 <= i < |done| ensures Next(all[i], done[i], all[i + 1]) {
      assert i < |steps| ==> Next(states[i], steps[i], states[i + 1]);
    }
  }

  // The state of a lone request that has written everything and not yet committed.
  function RecordedAlone(s: State, t: TxnId, d: DeviceId, r: Request): State
    requires d in s.devices && d in s.history
  {
    var e := Entry(r.id, r.revision, r.snapshot.kept, r.now);
    Put(s, t, PutRecorded(d, s.devices[d].owner, e, r.snapshot, NewestDiffers(s.history[d], e.kept)))
      .(clock := r.now)
  }

  lemma LonePutRecords(s: State, t: TxnId, d: DeviceId, r: Request) returns (states: seq<State>, steps: seq<Step>)
    requires s.txns == map[] && Live(s, d) && d in s.history
    requires r.revision > s.devices[d].mark && r.now > s.clock
    ensures Follows(states, steps) && states[0] == s && states[|steps|] == RecordedAlone(s, t, d, r)
  {
    var u, e := s.devices[d].owner, Entry(r.id, r.revision, r.snapshot.kept, r.now);
    states, steps := FollowsOn([s], [], LockPut(t, d), Put(s, t, PutLocked(d, u, s.devices[d].mark)));
    states, steps := FollowsOn(states, steps, WritePut(t, r.id, r.revision, r.snapshot, r.now),
                               Put(s, t, PutWritten(d, u, e, r.snapshot)).(clock := r.now));
    states, steps := FollowsOn(states, steps, RecordPut(t), RecordedAlone(s, t, d, r));
  }

  lemma AcceptedAlone(s: State, t: TxnId, d: DeviceId, r: Request)
    requires s.txns == map[] && d in s.devices && d in s.history && d in s.log && r.revision > s.devices[d].mark
    ensures CanAccept(RecordedAlone(s, t, d, r), t)
    ensures var after := Accept(RecordedAlone(s, t, d, r), t);
            && after.txns == map[] && d in after.devices && d in after.history
            && ViewOf(after, d) == Handle(ViewOf(s, d), r)
            && d in after.log && after.log[d] == s.log[d] + [Entry(r.id, r.revision, r.snapshot.kept, r.now)]
  {
  }

  /** When nobody else is at work, a live device's request above its mark goes through. */
  lemma LonePutCommits(s: State, t: TxnId, d: DeviceId, r: Request) returns (states: seq<State>, steps: seq<Step>)
    requires s.txns == map[] && Live(s, d) && d in s.history && d in s.log
    requires r.revision > s.devices[d].mark && r.now > s.clock
    ensures Follows(states, steps) && states[0] == s
    ensures var after := states[|steps|];
            && after.txns == map[] && d in after.devices && d in after.history
            && ViewOf(after, d) == Handle(ViewOf(s, d), r)
            && d in after.log && after.log[d] == s.log[d] + [Entry(r.id, r.revision, r.snapshot.kept, r.now)]
  {
    states, steps := LonePutRecords(s, t, d, r);
    AcceptedAlone(s, t, d, r);
    states, steps := FollowsOn(states, steps, CommitPut(t), Accept(RecordedAlone(s, t, d, r), t));
  }

  lemma LoneRevokeWrites(s: State, t: TxnId, d: DeviceId) returns (states: seq<State>, steps: seq<Step>)
    requires s.txns == map[] && d in s.devices
    ensures Follows(states, steps) && states[0] == s && states[|steps|] == Put(s, t, RevokeWritten(d))
  {
    states, steps := FollowsOn([s], [], LockRevoke(t, d), Put(s, t, RevokeLocked(d)));
    states, steps := FollowsOn(states, steps, WriteRevoke(t), Put(s, t, RevokeWritten(d)));
  }

  /** A lone revocation goes through: the device is marked as revoked and loses its presence row,
      and nothing else changes. */
  lemma LoneRevokeCommits(s: State, t: TxnId, d: DeviceId) returns (states: seq<State>, steps: seq<Step>)
    requires s.txns == map[] && d in s.devices
    ensures Follows(states, steps) && states[0] == s
    ensures states[|steps|]
         == s.(devices := s.devices[d := Device(s.devices[d].owner, true, s.devices[d].mark)],
               presence := s.presence - {d})
  {
    states, steps := LoneRevokeWrites(s, t, d);
    states, steps := FollowsOn(states, steps, CommitRevoke(t),
                               s.(devices := s.devices[d := s.devices[d].(revoked := true)],
                                  presence := s.presence - {d}));
  }

  lemma SweepsAlone(s: State, t: TxnId, u: UserId, owned: set<DeviceId>)
    requires owned == set d | d in s.presence && d in s.devices && s.devices[d].owner == u
    ensures Next(Put(s, t, DeactivateWritten(u)), SweepDeactivate(t), Put(s, t, DeactivateSwept(u, owned)))
  {
    var locked := Put(s, t, DeactivateWritten(u));
    var found := set d | d in locked.presence && d in locked.devices && locked.devices[d].owner == locked.txns[t].user;
    assert owned == found;
    assert Put(locked, t, DeactivateSwept(u, found)) == Put(s, t, DeactivateSwept(u, owned));
  }

  lemma LoneDeactivateWrites(s: State, t: TxnId, u: UserId, owned: set<DeviceId>)
    returns (states: seq<State>, steps: seq<Step>)
    requires s.txns == map[] && u in s.active
    requires owned == set d | d in s.presence && d in s.devices && s.devices[d].owner == u
    ensures Follows(states, steps) && states[0] == s && states[|steps|] == Put(s, t, DeactivateSwept(u, owned))
  {
    states, steps := FollowsOn([s], [], WriteDeactivate(t, u), Put(s, t, DeactivateWritten(u)));
    SweepsAlone(s, t, u, owned);
    states, steps := FollowsOn(states, steps, SweepDeactivate(t), Put(s, t, DeactivateSwept(u, owned)));
  }

  /** So does a lone deactivation: the account is inactive and none of its devices is shown. */
  lemma LoneDeactivateCommits(s: State, t: TxnId, u: UserId) returns (states: seq<State>, steps: seq<Step>)
    requires s.txns == map[] && u in s.active
    ensures Follows(states, steps) && states[0] == s
    ensures var after := states[|steps|];
            && after == s.(active := s.active[u := false], presence := after.presence)
            && forall d :: d in s.presence && d in s.devices && s.devices[d].owner == u ==> d !in after.presence
    ensures var after := states[|steps|];
            forall d :: d in s.presence && !(d in s.devices && s.devices[d].owner == u) ==>
              d in after.presence && after.presence[d] == s.presence[d]
  {
    var owned := set d | d in s.presence && d in s.devices && s.devices[d].owner == u;
    states, steps := LoneDeactivateWrites(s, t, u, owned);
    states, steps := FollowsOn(states, steps, CommitDeactivate(t),
                               s.(active := s.active[u := false], presence := s.presence - owned));
  }

  function HandleFirst(v: DeviceView, rs: seq<Request>, n: nat): DeviceView
    requires n <= |rs|
  {
    if n == 0 then v else Handle(HandleFirst(v, rs, n - 1), rs[n - 1])
  }

  function HandleAll(v: DeviceView, rs: seq<Request>): DeviceView {
    HandleFirst(v, rs, |rs|)
  }

  function HighMark(mark: nat, rs: seq<Request>, n: nat): nat
    requires n <= |rs|
  {
    if n == 0 then mark
    else
      var before := HighMark(mark, rs, n - 1);
      if rs[n - 1].revision > before then rs[n - 1].revision else before
  }

  // The requests that exceed every revision before them.
  function RecordHighs(mark: nat, rs: seq<Request>, n: nat): seq<Request>
    requires n <= |rs|
  {
    if n == 0 then []
    else RecordHighs(mark, rs, n - 1) +
         if rs[n - 1].revision > HighMark(mark, rs, n - 1) then [rs[n - 1]] else []
  }

  lemma {:induction false} MarkIsHighMark(v: DeviceView, rs: seq<Request>, n: nat)
    requires n <= |rs|
    ensures HandleFirst(v, rs, n).mark == HighMark(v.mark, rs, n)
  {
    if n > 0 {
      MarkIsHighMark(v, rs, n - 1);
    }
  }

  lemma {:induction false} HandlePrefix(v: DeviceView, a: seq<Request>, b: seq<Request>, n: nat)
    requires n <= |a| <= |b| && a == b[..|a|]
    ensures HandleFirst(v, a, n) == HandleFirst(v, b, n)
  {
    if n > 0 {
      HandlePrefix(v, a, b, n - 1);
    }
  }

  lemma HandleAppend(v: DeviceView, rs: seq<Request>, r: Request)
    ensures HandleAll(v, rs + [r]) == Handle(HandleAll(v, rs), r)
  {
    HandlePrefix(v, rs, rs + [r], |rs|);
  }

  lemma {:induction false} RecordHighsFirst(v: DeviceView, rs: seq<Request>, n: nat)
    requires n <= |rs|
    ensures HandleFirst(v, rs, n) == HandleAll(v, RecordHighs(v.mark, rs, n))
  {
    if n > 0 {
      RecordHighsFirst(v, rs, n - 1);
      MarkIsHighMark(v, rs, n - 1);
      HandleAppend(v, RecordHighs(v.mark, rs, n - 1), rs[n - 1]);
      assert RecordHighs(v.mark, rs, n - 1) + [] == RecordHighs(v.mark, rs, n - 1);
    }
  }

  /** Duplicated, delayed and reordered requests end where the record-high requests alone end. */
  lemma OnlyRecordHighsMatter(v: DeviceView, rs: seq<Request>)
    ensures HandleAll(v, rs) == HandleAll(v, RecordHighs(v.mark, rs, |rs|))
  {
    RecordHighsFirst(v, rs, |rs|);
  }

  lemma {:induction false} LowRequestsIgnored(v: DeviceView, rs: seq<Request>, n: nat)
    requires n <= |rs| && forall r :: r in rs ==> r.revision <= v.mark
    ensures HandleFirst(v, rs, n) == v
  {
    if n > 0 {
      LowRequestsIgnored(v, rs, n - 1);
      assert rs[n - 1] in rs;
    }
  }

  /** A retry of an accepted request is recognised and changes nothing, until a higher revision is accepted. */
  lemma RetryIsRecognised(v: DeviceView, r: Request, rest: seq<Request>, retry: Request)
    requires Answered(v, r) == Accepted && forall x :: x in rest ==> x.revision <= r.revision
    requires retry.revision == r.revision && retry.snapshot == r.snapshot
    ensures var after := HandleAll(Handle(v, r), rest);
            after == Handle(v, r) && Answered(after, retry) == Repeated && Handle(after, retry) == after
  {
    LowRequestsIgnored(Handle(v, r), rest, |rest|);
  }
}
