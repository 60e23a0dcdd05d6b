// Presence updates, device revocation, account deactivation and history deletion as concurrent
// transactions with row locks on devices and users.
module PresenceProtocol {
  import opened Options
  import opened PresenceHistory

  type UserId = nat
  type DeviceId = nat
  type TxnId = nat

  // The persisted projection of a presence body; shard and party_count are dropped before this point.
  datatype Snapshot = Snapshot(kept: Kept, sessionActive: Option<bool>, quantumDestination: Option<string>,
                               quantumState: Option<string>, lastEventAt: Option<string>)

  datatype Device = Device(owner: UserId, revoked: bool, mark: nat)

  datatype Presence = Presence(revision: nat, snapshot: Snapshot)

  datatype Txn =
    | PutLocked(device: DeviceId, user: UserId, mark: nat)
    | PutWritten(device: DeviceId, user: UserId, entry: Entry, snapshot: Snapshot)
    | PutRecorded(device: DeviceId, user: UserId, entry: Entry, snapshot: Snapshot, insert: bool)
    | RevokeLocked(device: DeviceId)
    | RevokeWritten(device: DeviceId)
    | DeactivateWritten(user: UserId)
    | DeactivateSwept(user: UserId, swept: set<DeviceId>)

  // log holds, per device, the snapshots that were answered with accepted: true.
  datatype State = State(
    active: map<UserId, bool>, devices: map<DeviceId, Device>, presence: map<DeviceId, Presence>,
    history: map<DeviceId, seq<Entry>>, log: map<DeviceId, seq<Entry>>, clock: Time, txns: map<TxnId, Txn>)

  datatype Step =
    | LockPut(t: TxnId, device: DeviceId)
    | WritePut(t: TxnId, id: nat, revision: nat, snapshot: Snapshot, now: Time)
    | RecordPut(t: TxnId)
    | CommitPut(t: TxnId)
    | LockRevoke(t: TxnId, device: DeviceId)
    | WriteRevoke(t: TxnId)
    | CommitRevoke(t: TxnId)
    | WriteDeactivate(t: TxnId, user: UserId)
    | SweepDeactivate(t: TxnId)
    | CommitDeactivate(t: TxnId)
    | Abort(t: TxnId)
    | Reactivate(user: UserId)
    | Pair(device: DeviceId, user: UserId)
    | EraseHistory(user: UserId)
    | Cleanup(bound: Bound)

  predicate HoldsDevice(txn: Txn, d: DeviceId) {
    (txn.PutLocked? || txn.PutWritten? || txn.PutRecorded? || txn.RevokeLocked? || txn.RevokeWritten?)
    && txn.device == d
  }

  predicate HoldsUser(txn: Txn, u: UserId) {
    (txn.PutLocked? || txn.PutWritten? || txn.PutRecorded? || txn.DeactivateWritten? || txn.DeactivateSwept?)
    && txn.user == u
  }

  ghost predicate DeviceFree(s: State, d: DeviceId) {
    forall t :: t in s.txns ==> !HoldsDevice(s.txns[t], d)
  }

  ghost predicate UserFree(s: State, u: UserId) {
    forall t :: t in s.txns ==> !HoldsUser(s.txns[t], u)
  }

  // The WHERE clause of the locking query.
  predicate Live(s: State, d: DeviceId) {
    d in s.devices && !s.devices[d].revoked && s.devices[d].owner in s.active && s.active[s.devices[d].owner]
  }

  function Put(s: State, t: TxnId, txn: Txn): State {
    s.(txns := s.txns[t := txn])
  }

  function Done(s: State, t: TxnId): State {
    s.(txns := s.txns - {t})
  }

  predicate NewestDiffers(history: seq<Entry>, kept: Kept) {
    |history| > 0 ==> history[|history| - 1].kept != kept
  }

  predicate CanAccept(s: State, t: TxnId) {
    && t in s.txns && s.txns[t].PutRecorded?
    && s.txns[t].device in s.devices && s.txns[t].device in s.history && s.txns[t].device in s.log
  }

  // A committed presence update: mark, presence row, history row, and the accepted answer.
  function Accept(s: State, t: TxnId): State
    requires CanAccept(s, t)
  {
    var txn := s.txns[t];
    var d := txn.device;
    s.(devices := s.devices[d := s.devices[d].(mark := txn.entry.revision)],
       presence := s.presence[d := Presence(txn.entry.revision, txn.snapshot)],
       history := s.history[d := Append(s.history[d], txn.entry, txn.insert)],
       log := s.log[d := s.log[d] + [txn.entry]],
       txns := s.txns - {t})
  }

  ghost predicate Next(s: State, step: Step, s': State) {
    match step
    case LockPut(t, d) =>
      && t !in s.txns && Live(s, d) && DeviceFree(s, d) && UserFree(s, s.devices[d].owner)
      && s' == Put(s, t, PutLocked(d, s.devices[d].owner, s.devices[d].mark))
    case WritePut(t, id, revision, snapshot, now) =>
      && t in s.txns && s.txns[t].PutLocked? && revision > s.txns[t].mark && now > s.clock
      && s' == Put(s, t, PutWritten(s.txns[t].device, s.txns[t].user, Entry(id, revision, snapshot.kept, now),
                                    snapshot)).(clock := now)
    case RecordPut(t) =>
      && t in s.txns && s.txns[t].PutWritten? && s.txns[t].device in s.history
      && (var txn := s.txns[t];
          s' == Put(s, t, PutRecorded(txn.device, txn.user, txn.entry, txn.snapshot,
                                      NewestDiffers(s.history[txn.device], txn.entry.kept))))
    case CommitPut(t) =>
      CanAccept(s, t) && s' == Accept(s, t)
    case LockRevoke(t, d) =>
      t !in s.txns && d in s.devices && DeviceFree(s, d) && s' == Put(s, t, RevokeLocked(d))
    case WriteRevoke(t) =>
      t in s.txns && s.txns[t].RevokeLocked? && s' == Put(s, t, RevokeWritten(s.txns[t].device))
    case CommitRevoke(t) =>
      && t in s.txns && s.txns[t].RevokeWritten? && s.txns[t].device in s.devices
      && (var d := s.txns[t].device;
          s' == Done(s, t).(devices := s.devices[d := s.devices[d].(revoked := true)],
                            presence := s.presence - {d}))
    case WriteDeactivate(t, u) =>
      t !in s.txns && u in s.active && UserFree(s, u) && s' == Put(s, t, DeactivateWritten(u))
    case SweepDeactivate(t) =>
      && t in s.txns && s.txns[t].DeactivateWritten?
      && s' == Put(s, t, DeactivateSwept(s.txns[t].user,
                                         set d | d in s.presence && d in s.devices
                                                 && s.devices[d].owner == s.txns[t].user))
    case CommitDeactivate(t) =>
      && t in s.txns && s.txns[t].DeactivateSwept?
      && s' == Done(s, t).(active := s.active[s.txns[t].user := false],
                           presence := s.presence - s.txns[t].swept)
    case Abort(t) =>
      t in s.txns && s' == Done(s, t)
    case Reactivate(u) =>
      UserFree(s, u) && s' == s.(active := s.active[u := true])
    case Pair(d, u) =>
      && d !in s.devices && u in s.active && s.active[u]
      && s' == s.(devices := s.devices[d := Device(u, false, 0)], history := s.history[d := []],
                  log := s.log[d := []])
    case EraseHistory(u) =>
      s' == s.(history := map d | d in s.history ::
                 if d in s.devices && s.devices[d].owner == u then [] else s.history[d])
    case Cleanup(bound) =>
      s' == s.(history := map d | d in s.history :: Retained(s.history[d], bound, |s.history[d]|))
  }

  // ---- The invariant ----

  ghost predicate LogSafe(log: seq<Entry>, mark: nat, clock: Time) {
    && Increasing(log)
    && (forall e :: e in log ==> e.revision <= mark && e.receivedAt <= clock)
    && (if |log| == 0 then mark == 0 else log[|log| - 1].revision == mark)
  }

  ghost predicate DeviceSafe(s: State, d: DeviceId)
    requires d in s.devices
  {
    && d in s.history && d in s.log
    && LogSafe(s.log[d], s.devices[d].mark, s.clock)
    && Faithful(s.history[d], s.log[d])
  }

  // A presence row is only shown for a live device, and carries its high-water mark.
  ghost predicate PresenceSafe(s: State, d: DeviceId)
    requires d in s.presence
  {
    Live(s, d) && s.presence[d].revision == s.devices[d].mark
  }

  ghost predicate PutSafe(s: State, d: DeviceId, u: UserId) {
    Live(s, d) && s.devices[d].owner == u
  }

  ghost predicate EntrySafe(s: State, d: DeviceId, e: Entry, snapshot: Snapshot)
    requires d in s.devices
  {
    && e.revision > s.devices[d].mark
    && (d in s.log ==> Newer(s.log[d], e))
    && e.receivedAt <= s.clock
    && e.kept == snapshot.kept
  }

  ghost predicate TxnSafe(s: State, txn: Txn) {
    match txn
    case PutLocked(d, u, mark) => PutSafe(s, d, u) && mark == s.devices[d].mark
    case PutWritten(d, u, e, snapshot) => PutSafe(s, d, u) && EntrySafe(s, d, e, snapshot)
    case PutRecorded(d, u, e, snapshot, insert) =>
      && PutSafe(s, d, u) && EntrySafe(s, d, e, snapshot)
      && (d in s.history ==> Decided(s.history[d], e, insert))
    case RevokeLocked(d) => d in s.devices
    case RevokeWritten(d) => d in s.devices
    case DeactivateWritten(u) => u in s.active
    case DeactivateSwept(u, swept) =>
      u in s.active && forall d :: d in s.presence && d in s.devices && s.devices[d].owner == u ==> d in swept
  }

  ghost predicate Apart(a: Txn, b: Txn) {
    && (forall d :: HoldsDevice(a, d) ==> !HoldsDevice(b, d))
    && (forall u :: HoldsUser(a, u) ==> !HoldsUser(b, u))
  }

  ghost predicate LocksExclusive(s: State) {
    forall t, v :: t in s.txns && v in s.txns && t != v ==> Apart(s.txns[t], s.txns[v])
  }

  ghost predicate RowsSafe(s: State) {
    && (forall d :: d in s.devices ==> DeviceSafe(s, d))
    && (forall d :: d in s.presence ==> PresenceSafe(s, d))
  }

  ghost predicate TxnsSafe(s: State) {
    forall t :: t in s.txns ==> TxnSafe(s, s.txns[t])
  }

  ghost predicate Inv(s: State) {
    RowsSafe(s) && LocksExclusive(s) && TxnsSafe(s)
  }

  // ---- Steps that only move one transaction forward ----

  // The stored rows are the same, and the clock has not gone back.
  ghost predicate SameRows(s: State, s': State) {
    && s'.devices == s.devices && s'.presence == s.presence && s'.history == s.history && s'.log == s.log
    && s'.active == s.active && s'.clock >= s.clock
  }

  lemma SameRowsSafe(s: State, s': State)
    requires RowsSafe(s) && SameRows(s, s')
    ensures RowsSafe(s')
  {
    forall d | d in s'.devices ensures DeviceSafe(s', d) {
      assert DeviceSafe(s, d);
    }
    forall d | d in s'.presence ensures PresenceSafe(s', d) {
      assert PresenceSafe(s, d);
    }
  }

  lemma SameRowsTxn(s: State, s': State, txn: Txn)
    requires TxnSafe(s, txn) && SameRows(s, s')
    ensures TxnSafe(s', txn)
  {
  }

  ghost predicate Fits(s: State, t: TxnId, txn: Txn) {
    forall v :: v in s.txns && v != t ==> Apart(txn, s.txns[v])
  }

  lemma PutLocks(s: State, t: TxnId, txn: Txn)
    requires LocksExclusive(s) && Fits(s, t, txn)
    ensures LocksExclusive(Put(s, t, txn))
  {
    forall v, w | v in Put(s, t, txn).txns && w in Put(s, t, txn).txns && v != w
      ensures Apart(Put(s, t, txn).txns[v], Put(s, t, txn).txns[w])
    {
      if w == t { assert Apart(txn, s.txns[v]); }
    }
  }

  lemma PutKeepsInv(s: State, t: TxnId, txn: Txn)
    requires Inv(s) && TxnSafe(s, txn) && Fits(s, t, txn)
    ensures Inv(Put(s, t, txn))
  {
    var s' := Put(s, t, txn);
    PutLocks(s, t, txn);
    SameRowsSafe(s, s');
    forall v | v in s'.txns ensures TxnSafe(s', s'.txns[v]) {
      SameRowsTxn(s, s', s'.txns[v]);
    }
  }

  lemma DropKeepsInv(s: State, t: TxnId)
    requires Inv(s)
    ensures Inv(Done(s, t))
  {
    var s' := Done(s, t);
    SameRowsSafe(s, s');
    forall v | v in s'.txns ensures TxnSafe(s', s'.txns[v]) {
      SameRowsTxn(s, s', s'.txns[v]);
    }
  }

  // The clock may only advance; everything else a transaction relies on stays.
  lemma TickKeepsInv(s: State, now: Time)
    requires Inv(s) && now >= s.clock
    ensures Inv(s.(clock := now))
  {
    var s' := s.(clock := now);
    SameRowsSafe(s, s');
    forall v | v in s'.txns ensures TxnSafe(s', s'.txns[v]) {
      SameRowsTxn(s, s', s'.txns[v]);
    }
  }

  // A transaction that holds on to what it has.
  lemma HoldsOn(s: State, t: TxnId, txn: Txn)
    requires LocksExclusive(s) && t in s.txns
    requires forall d :: HoldsDevice(txn, d) ==> HoldsDevice(s.txns[t], d)
    requires forall u :: HoldsUser(txn, u) ==> HoldsUser(s.txns[t], u)
    ensures Fits(s, t, txn)
  {
    forall v | v in s.txns && v != t ensures Apart(txn, s.txns[v]) {
      assert Apart(s.txns[t], s.txns[v]);
    }
  }

  // ---- Steps that change committed rows: what the others may rely on ----

  lemma LogGrows(log: seq<Entry>, mark: nat, clock: Time, e: Entry)
    requires LogSafe(log, mark, clock) && Newer(log, e) && e.revision > mark && e.receivedAt <= clock
    ensures LogSafe(log + [e], e.revision, clock)
  {
    forall i | 0 <= i < |log|
      ensures log[i].revision < e.revision && log[i].receivedAt < e.receivedAt
    {
      assert log[i] in log;
    }
  }

  lemma AcceptDevice(s: State, t: TxnId, d: DeviceId)
    requires Inv(s) && CanAccept(s, t) && d in s.devices
    ensures DeviceSafe(Accept(s, t), d)
  {
    assert DeviceSafe(s, d);
    assert TxnSafe(s, s.txns[t]);
    if d == s.txns[t].device {
      AcceptOwnDevice(s, t, d);
    }
  }

  lemma AcceptOwnDevice(s: State, t: TxnId, d: DeviceId)
    requires CanAccept(s, t) && d == s.txns[t].device && DeviceSafe(s, d) && TxnSafe(s, s.txns[t])
    ensures DeviceSafe(Accept(s, t), d)
  {
    var txn := s.txns[t];
    LogGrows(s.log[d], s.devices[d].mark, s.clock, txn.entry);
    AppendFaithful(s.history[d], s.log[d], txn.entry, txn.insert);
  }

  lemma AcceptPresence(s: State, t: TxnId, d: DeviceId)
    requires Inv(s) && CanAccept(s, t) && d in Accept(s, t).presence
    ensures PresenceSafe(Accept(s, t), d)
  {
    assert TxnSafe(s, s.txns[t]);
    if d != s.txns[t].device { assert PresenceSafe(s, d); }
  }

  // An update of another device and user is not touched.
  lemma AcceptOthers(s: State, t: TxnId, v: TxnId)
    requires Inv(s) && CanAccept(s, t) && v in s.txns && v != t
    ensures TxnSafe(Accept(s, t), s.txns[v])
  {
    assert TxnSafe(s, s.txns[t]) && TxnSafe(s, s.txns[v]) && Apart(s.txns[t], s.txns[v]);
    AcceptApart(s, t, s.txns[v]);
  }

  lemma AcceptApart(s: State, t: TxnId, other: Txn)
    requires CanAccept(s, t) && TxnSafe(s, s.txns[t]) && TxnSafe(s, other) && Apart(s.txns[t], other)
    ensures TxnSafe(Accept(s, t), other)
  {
    var txn := s.txns[t];
    assert HoldsDevice(txn, txn.device) && !HoldsDevice(other, txn.device);
    assert HoldsUser(txn, txn.user) && !HoldsUser(other, txn.user);
  }

  lemma AcceptKeepsInv(s: State, t: TxnId)
    requires Inv(s) && CanAccept(s, t)
    ensures Inv(Accept(s, t))
  {
    var s' := Accept(s, t);
    forall d | d in s'.devices
      ensures DeviceSafe(s', d)
    {
      AcceptDevice(s, t, d);
    }
    forall d | d in s'.presence
      ensures PresenceSafe(s', d)
    {
      AcceptPresence(s, t, d);
    }
    forall v | v in s'.txns
      ensures TxnSafe(s', s'.txns[v])
    {
      AcceptOthers(s, t, v);
    }
    FewerLocks(s, s');
  }

  lemma FewerLocks(s: State, s': State)
    requires LocksExclusive(s)
    requires forall v :: v in s'.txns ==> v in s.txns && s'.txns[v] == s.txns[v]
    ensures LocksExclusive(s')
  {
  }

  lemma RevokeApart(s: State, d0: DeviceId, other: Txn, s': State)
    requires TxnSafe(s, other) && !HoldsDevice(other, d0) && d0 in s.devices
    requires s' == s.(devices := s.devices[d0 := s.devices[d0].(revoked := true)], presence := s.presence - {d0},
                      txns := s'.txns)
    ensures TxnSafe(s', other)
  {
  }

  lemma RevokeOthers(s: State, t: TxnId, s': State, v: TxnId)
    requires Inv(s) && Next(s, CommitRevoke(t), s') && v in s'.txns
    ensures TxnSafe(s', s'.txns[v])
  {
    var d0 := s.txns[t].device;
    assert HoldsDevice(s.txns[t], d0);
    assert TxnSafe(s, s.txns[v]) && Apart(s.txns[t], s.txns[v]);
    RevokeApart(s, d0, s.txns[v], s');
  }

  lemma RevokeRows(s: State, t: TxnId, s': State, d: DeviceId)
    requires Inv(s) && Next(s, CommitRevoke(t), s')
    ensures d in s'.devices ==> DeviceSafe(s', d)
    ensures d in s'.presence ==> PresenceSafe(s', d)
  {
    assert d in s.devices ==> DeviceSafe(s, d);
    assert d in s.presence ==> PresenceSafe(s, d);
  }

  lemma RevokeKeepsInv(s: State, t: TxnId, s': State)
    requires Inv(s) && Next(s, CommitRevoke(t), s')
    ensures Inv(s')
  {
    forall d ensures d in s'.devices ==> DeviceSafe(s', d)
             ensures d in s'.presence ==> PresenceSafe(s', d)
    {
      RevokeRows(s, t, s', d);
    }
    forall v | v in s'.txns ensures TxnSafe(s', s'.txns[v]) {
      RevokeOthers(s, t, s', v);
    }
    FewerLocks(s, s');
  }

  lemma DeactivateApart(s: State, u0: UserId, swept: set<DeviceId>, other: Txn, s': State)
    requires TxnSafe(s, other) && !HoldsUser(other, u0)
    requires s' == s.(active := s.active[u0 := false], presence := s.presence - swept, txns := s'.txns)
    ensures TxnSafe(s', other)
  {
  }

  lemma DeactivateOthers(s: State, t: TxnId, s': State, v: TxnId)
    requires Inv(s) && Next(s, CommitDeactivate(t), s') && v in s'.txns
    ensures TxnSafe(s', s'.txns[v])
  {
    var u0 := s.txns[t].user;
    assert HoldsUser(s.txns[t], u0);
    assert TxnSafe(s, s.txns[v]) && Apart(s.txns[t], s.txns[v]);
    DeactivateApart(s, u0, s.txns[t].swept, s.txns[v], s');
  }

  // The rows that stay are those of other accounts' devices.
  lemma SweptAway(s: State, u0: UserId, swept: set<DeviceId>, d: DeviceId)
    requires TxnSafe(s, DeactivateSwept(u0, swept)) && d in s.presence && PresenceSafe(s, d) && d !in swept
    ensures s.devices[d].owner != u0
  {
  }

  lemma DeactivatePresence(s: State, t: TxnId, s': State, d: DeviceId)
    requires Inv(s) && Next(s, CommitDeactivate(t), s') && d in s'.presence
    ensures PresenceSafe(s', d)
  {
    assert TxnSafe(s, s.txns[t]);
    assert PresenceSafe(s, d);
    SweptAway(s, s.txns[t].user, s.txns[t].swept, d);
  }

  lemma DeactivateKeepsInv(s: State, t: TxnId, s': State)
    requires Inv(s) && Next(s, CommitDeactivate(t), s')
    ensures Inv(s')
  {
    forall d | d in s'.devices
      ensures DeviceSafe(s', d)
    {
      assert DeviceSafe(s, d);
    }
    forall d | d in s'.presence
      ensures PresenceSafe(s', d)
    {
      DeactivatePresence(s, t, s', d);
    }
    forall v | v in s'.txns
      ensures TxnSafe(s', s'.txns[v])
    {
      DeactivateOthers(s, t, s', v);
    }
    FewerLocks(s, s');
  }

  lemma ReactivateApart(s: State, u: UserId, txn: Txn)
    requires TxnSafe(s, txn)
    ensures TxnSafe(s.(active := s.active[u := true]), txn)
  {
  }

  lemma ReactivateRows(s: State, u: UserId)
    requires RowsSafe(s)
    ensures RowsSafe(s.(active := s.active[u := true]))
  {
    var s' := s.(active := s.active[u := true]);
    forall d | d in s'.devices ensures DeviceSafe(s', d) {
      assert DeviceSafe(s, d);
    }
    forall d | d in s'.presence ensures PresenceSafe(s', d) {
      assert PresenceSafe(s, d);
    }
  }

  lemma ReactivateKeepsInv(s: State, u: UserId, s': State)
    requires Inv(s) && Next(s, Reactivate(u), s')
    ensures Inv(s')
  {
    ReactivateRows(s, u);
    forall v | v in s'.txns ensures TxnSafe(s', s'.txns[v]) {
      ReactivateApart(s, u, s.txns[v]);
    }
  }

  lemma PairOthers(s: State, d0: DeviceId, u: UserId, s': State, v: TxnId)
    requires Inv(s) && Next(s, Pair(d0, u), s') && v in s'.txns
    ensures TxnSafe(s', s'.txns[v])
  {
    assert TxnSafe(s, s.txns[v]);
    assert d0 !in s.presence by {
      assert d0 in s.presence ==> PresenceSafe(s, d0);
    }
  }

  lemma PairRows(s: State, d0: DeviceId, u: UserId, s': State, d: DeviceId)
    requires Inv(s) && Next(s, Pair(d0, u), s')
    ensures d in s'.devices ==> DeviceSafe(s', d)
    ensures d in s'.presence ==> PresenceSafe(s', d)
  {
    assert d in s.devices ==> DeviceSafe(s, d);
    assert d in s.presence ==> PresenceSafe(s, d);
  }

  lemma PairKeepsInv(s: State, d0: DeviceId, u: UserId, s': State)
    requires Inv(s) && Next(s, Pair(d0, u), s')
    ensures Inv(s')
  {
    forall d ensures d in s'.devices ==> DeviceSafe(s', d)
             ensures d in s'.presence ==> PresenceSafe(s', d)
    {
      PairRows(s, d0, u, s', d);
    }
    forall v | v in s'.txns ensures TxnSafe(s', s'.txns[v]) {
      PairOthers(s, d0, u, s', v);
    }
    FewerLocks(s, s');
  }

  // Histories may be shortened at any time.
  lemma ShortenKeepsInv(s: State, history: map<DeviceId, seq<Entry>>)
    requires Inv(s) && history.Keys == s.history.Keys
    requires forall d :: d in s.history && d in s.log && Faithful(s.history[d], s.log[d]) ==>
               && Faithful(history[d], s.log[d])
               && (forall e, insert :: Decided(s.history[d], e, insert) ==> Decided(history[d], e, insert))
    ensures Inv(s.(history := history))
  {
    var s' := s.(history := history);
    forall d | d in s'.devices
      ensures DeviceSafe(s', d)
    {
      assert DeviceSafe(s, d);
    }
    forall d | d in s'.presence
      ensures PresenceSafe(s', d)
    {
      assert PresenceSafe(s, d);
    }
    forall v | v in s'.txns
      ensures TxnSafe(s', s'.txns[v])
    {
      assert TxnSafe(s, s.txns[v]);
      if s.txns[v].PutRecorded? { assert DeviceSafe(s, s.txns[v].device); }
    }
  }

  lemma EraseKeepsInv(s: State, u: UserId, s': State)
    requires Inv(s) && Next(s, EraseHistory(u), s')
    ensures Inv(s')
  {
    forall d | d in s.history && d in s.log && Faithful(s.history[d], s.log[d])
      ensures Faithful(s'.history[d], s.log[d])
    {
      SuffixFaithful(s.history[d], s.log[d], |s.history[d]|);
    }
    ShortenKeepsInv(s, s'.history);
  }

  lemma CleanupKeepsInv(s: State, bound: Bound, s': State)
    requires Inv(s) && Next(s, Cleanup(bound), s')
    ensures Inv(s')
  {
    forall d | d in s.history && d in s.log && Faithful(s.history[d], s.log[d])
      ensures Faithful(s'.history[d], s.log[d])
      ensures forall e, insert :: Decided(s.history[d], e, insert) ==> Decided(s'.history[d], e, insert)
    {
      CleanupFaithful(s.history[d], s.log[d], bound);
      forall e, insert | Decided(s.history[d], e, insert)
        ensures Decided(s'.history[d], e, insert)
      {
        CleanupDecided(s.history[d], e, insert, bound);
      }
    }
    ShortenKeepsInv(s, s'.history);
  }

  lemma WriteFits(s: State, step: Step, s': State)
    requires Inv(s) && step.WritePut? && Next(s, step, s')
    ensures step.t in s'.txns && Fits(s, step.t, s'.txns[step.t])
    ensures TxnSafe(s.(clock := step.now), s'.txns[step.t])
  {
    var txn := s.txns[step.t];
    assert TxnSafe(s, txn) && DeviceSafe(s, txn.device);
    HoldsOn(s, step.t, s'.txns[step.t]);
  }

  lemma WriteKeepsInv(s: State, step: Step, s': State)
    requires Inv(s) && step.WritePut? && Next(s, step, s')
    ensures Inv(s')
  {
    WriteFits(s, step, s');
    TickKeepsInv(s, step.now);
    PutKeepsInv(s.(clock := step.now), step.t, s'.txns[step.t]);
  }

  lemma RecordKeepsInv(s: State, t: TxnId, s': State)
    requires Inv(s) && Next(s, RecordPut(t), s')
    ensures Inv(s')
  {
    assert TxnSafe(s, s.txns[t]);
    HoldsOn(s, t, s'.txns[t]);
    PutKeepsInv(s, t, s'.txns[t]);
  }

  // A transaction that begins with locks nobody holds.
  lemma FreeLocksFit(s: State, t: TxnId, txn: Txn)
    requires t !in s.txns
    requires forall d :: HoldsDevice(txn, d) ==> DeviceFree(s, d)
    requires forall u :: HoldsUser(txn, u) ==> UserFree(s, u)
    ensures Fits(s, t, txn)
  {
  }

  lemma LockPutKeepsInv(s: State, t: TxnId, d: DeviceId, s': State)
    requires Inv(s) && Next(s, LockPut(t, d), s')
    ensures Inv(s')
  {
    FreeLocksFit(s, t, s'.txns[t]);
    PutKeepsInv(s, t, s'.txns[t]);
  }

  lemma LockRevokeKeepsInv(s: State, t: TxnId, d: DeviceId, s': State)
    requires Inv(s) && Next(s, LockRevoke(t, d), s')
    ensures Inv(s')
  {
    FreeLocksFit(s, t, s'.txns[t]);
    PutKeepsInv(s, t, s'.txns[t]);
  }

  lemma WriteDeactivateKeepsInv(s: State, t: TxnId, u: UserId, s': State)
    requires Inv(s) && Next(s, WriteDeactivate(t, u), s')
    ensures Inv(s')
  {
    FreeLocksFit(s, t, s'.txns[t]);
    PutKeepsInv(s, t, s'.txns[t]);
  }

  lemma WriteRevokeKeepsInv(s: State, t: TxnId, s': State)
    requires Inv(s) && Next(s, WriteRevoke(t), s')
    ensures Inv(s')
  {
    assert TxnSafe(s, s.txns[t]);
    HoldsOn(s, t, s'.txns[t]);
    PutKeepsInv(s, t, s'.txns[t]);
  }

  lemma SweepKeepsInv(s: State, t: TxnId, s': State)
    requires Inv(s) && Next(s, SweepDeactivate(t), s')
    ensures Inv(s')
  {
    assert TxnSafe(s, s.txns[t]);
    HoldsOn(s, t, s'.txns[t]);
    PutKeepsInv(s, t, s'.txns[t]);
  }

  lemma StepKeepsInv(s: State, step: Step, s': State)
    requires Inv(s) && Next(s, step, s')
    ensures Inv(s')
  {
    match step
    case WritePut(_, _, _, _, _) => WriteKeepsInv(s, step, s');
    case RecordPut(t) => RecordKeepsInv(s, t, s');
    case CommitPut(t) => AcceptKeepsInv(s, t);
    case CommitRevoke(t) => RevokeKeepsInv(s, t, s');
    case CommitDeactivate(t) => DeactivateKeepsInv(s, t, s');
    case Abort(t) => DropKeepsInv(s, t);
    case Reactivate(u) => ReactivateKeepsInv(s, u, s');
    case Pair(d, u) => PairKeepsInv(s, d, u, s');
    case EraseHistory(u) => EraseKeepsInv(s, u, s');
    case Cleanup(bound) => CleanupKeepsInv(s, bound, s');
    case WriteRevoke(t) => WriteRevokeKeepsInv(s, t, s');
    case SweepDeactivate(t) => SweepKeepsInv(s, t, s');
    case LockPut(t, d) => LockPutKeepsInv(s, t, d, s');
    case LockRevoke(t, d) => LockRevokeKeepsInv(s, t, d, s');
    case WriteDeactivate(t, u) => WriteDeactivateKeepsInv(s, t, u, s');
  }
}
