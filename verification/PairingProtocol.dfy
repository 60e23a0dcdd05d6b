// Pairing codes: creation, claim, account deactivation and clean-up as concurrent transactions.
// A transaction locks the user row before any code row. Its `started` time is the time it
// began, which may lie well before the lock was granted. Newly drawn codes never repeat an
// earlier one.
module PairingProtocol {
  import opened Options

  type UserId = nat
  type CodeId = nat
  type TxnId = nat
  type Time = nat

  const RETENTION: nat := 30 * 24 * 3600
  const LIFETIME: nat := 10 * 60

  datatype Code = Code(owner: UserId, expiresAt: Time, consumedAt: Option<Time>, invalidatedAt: Option<Time>) {
    predicate Unused() {
      consumedAt.None? && invalidatedAt.None?
    }
  }

  datatype Device = Device(owner: UserId, code: CodeId)

  datatype Txn =
    | CreateLocked(user: UserId, started: Time)
    | CreateSwept(user: UserId, started: Time, swept: set<CodeId>)
    | CreateInserted(user: UserId, started: Time, swept: set<CodeId>, drawn: CodeId)
    | ClaimLooked(code: CodeId, owner: UserId)
    | ClaimUser(code: CodeId, user: UserId, started: Time, active: bool)
    | ClaimCode(code: CodeId, user: UserId, started: Time, active: bool, seen: Code)
    | ClaimInvalidated(code: CodeId, user: UserId, started: Time)
    | ClaimConsumed(code: CodeId, user: UserId, started: Time)
    | DeactivateWritten(user: UserId, started: Time)
    | DeactivateSwept(user: UserId, started: Time, swept: set<CodeId>)

  // used holds every code ever drawn.
  datatype State = State(active: map<UserId, bool>, codes: map<CodeId, Code>, devices: seq<Device>,
                         used: set<CodeId>, clock: Time, txns: map<TxnId, Txn>)

  datatype Step =
    | LockCreate(t: TxnId, user: UserId, began: Time)
    | SweepCreate(t: TxnId)
    | InsertCode(t: TxnId, drawn: CodeId)
    | CommitCreate(t: TxnId)
    | LookUp(t: TxnId, code: CodeId)
    | LockOwner(t: TxnId, began: Time)
    | LockCode(t: TxnId)
    | Invalidate(t: TxnId)
    | CommitInvalidate(t: TxnId)
    | Consume(t: TxnId)
    | CommitClaim(t: TxnId)
    | WriteDeactivate(t: TxnId, user: UserId, began: Time)
    | SweepDeactivate(t: TxnId)
    | CommitDeactivate(t: TxnId)
    | Abort(t: TxnId)
    | Reactivate(user: UserId)
    | Cleanup(doomed: set<CodeId>)
    | Tick(now: Time)

  predicate HoldsUser(txn: Txn, u: UserId) {
    !txn.ClaimLooked? && txn.user == u
  }

  predicate HoldsCode(txn: Txn, c: CodeId) {
    match txn
    case CreateSwept(_, _, swept) => c in swept
    case CreateInserted(_, _, swept, _) => c in swept
    case ClaimCode(code, _, _, _, _) => c == code
    case ClaimInvalidated(code, _, _) => c == code
    case ClaimConsumed(code, _, _) => c == code
    case DeactivateSwept(_, _, swept) => c in swept
    case _ => false
  }

  ghost predicate UserFree(s: State, u: UserId) {
    forall t :: t in s.txns ==> !HoldsUser(s.txns[t], u)
  }

  ghost predicate CodeFree(s: State, c: CodeId) {
    forall t :: t in s.txns ==> !HoldsCode(s.txns[t], c)
  }

  predicate IsActive(s: State, u: UserId) {
    u in s.active && s.active[u]
  }

  // The rows of the UPDATE ... WHERE consumed_at IS NULL AND invalidated_at IS NULL.
  function UnusedOf(s: State, u: UserId): set<CodeId> {
    set c | c in s.codes && s.codes[c].owner == u && s.codes[c].Unused()
  }

  function InvalidateAll(codes: map<CodeId, Code>, swept: set<CodeId>, at: Time): map<CodeId, Code> {
    map c | c in codes :: if c in swept then codes[c].(invalidatedAt := Some(at)) else codes[c]
  }

  predicate Doomed(c: Code, now: Time) {
    || (c.consumedAt.Some? && c.consumedAt.value + RETENTION <= now)
    || (c.invalidatedAt.Some? && c.invalidatedAt.value + RETENTION <= now)
    || (c.Unused() && c.expiresAt + RETENTION <= now)
  }

  function Put(s: State, t: TxnId, txn: Txn): State {
    s.(txns := s.txns[t := txn])
  }

  function Done(s: State, t: TxnId): State {
    s.(txns := s.txns - {t})
  }

  ghost predicate NextCreate(s: State, step: Step, s': State) {
    match step
    case LockCreate(t, u, began) =>
      && t !in s.txns && UserFree(s, u) && IsActive(s, u) && began <= s.clock
      && s' == Put(s, t, CreateLocked(u, began))
    case SweepCreate(t) =>
      && t in s.txns && s.txns[t].CreateLocked?
      && (forall c :: c in UnusedOf(s, s.txns[t].user) ==> CodeFree(s, c))
      && s' == Put(s, t, CreateSwept(s.txns[t].user, s.txns[t].started, UnusedOf(s, s.txns[t].user)))
    case InsertCode(t, drawn) =>
      && t in s.txns && s.txns[t].CreateSwept? && drawn !in s.used
      && s' == Put(s, t, CreateInserted(s.txns[t].user, s.txns[t].started, s.txns[t].swept, drawn))
               .(used := s.used + {drawn})
    case CommitCreate(t) =>
      && t in s.txns && s.txns[t].CreateInserted?
      && (var txn := s.txns[t];
          s' == Done(s, t).(codes := InvalidateAll(s.codes, txn.swept, txn.started)
                              [txn.drawn := Code(txn.user, txn.started + LIFETIME, None, None)]))
    case _ => false
  }

  ghost predicate NextClaim(s: State, step: Step, s': State) {
    match step
    case LookUp(t, c) =>
      t !in s.txns && c in s.codes && s' == Put(s, t, ClaimLooked(c, s.codes[c].owner))
    case LockOwner(t, began) =>
      && t in s.txns && s.txns[t].ClaimLooked?
      && (var txn := s.txns[t];
          && txn.owner in s.active && UserFree(s, txn.owner) && began <= s.clock
          && s' == Put(s, t, ClaimUser(txn.code, txn.owner, began, s.active[txn.owner])))
    case LockCode(t) =>
      && t in s.txns && s.txns[t].ClaimUser?
      && (var txn := s.txns[t];
          && txn.code in s.codes && CodeFree(s, txn.code)
          && s' == Put(s, t, ClaimCode(txn.code, txn.user, txn.started, txn.active, s.codes[txn.code])))
    case Invalidate(t) =>
      && t in s.txns && s.txns[t].ClaimCode?
      && (var txn := s.txns[t];
          && txn.seen.Unused() && txn.seen.expiresAt > txn.started && !txn.active
          && s' == Put(s, t, ClaimInvalidated(txn.code, txn.user, txn.started)))
    case CommitInvalidate(t) =>
      && t in s.txns && s.txns[t].ClaimInvalidated?
      && s' == Done(s, t).(codes := InvalidateAll(s.codes, {s.txns[t].code}, s.txns[t].started))
    case Consume(t) =>
      && t in s.txns && s.txns[t].ClaimCode?
      && (var txn := s.txns[t];
          && txn.seen.Unused() && txn.seen.expiresAt > txn.started && txn.active
          && s' == Put(s, t, ClaimConsumed(txn.code, txn.user, txn.started)))
    case CommitClaim(t) =>
      && t in s.txns && s.txns[t].ClaimConsumed? && s.txns[t].code in s.codes
      && (var txn := s.txns[t];
          s' == Done(s, t).(codes := s.codes[txn.code := s.codes[txn.code].(consumedAt := Some(txn.started))],
                            devices := s.devices + [Device(txn.user, txn.code)]))
    case _ => false
  }

  ghost predicate NextOther(s: State, step: Step, s': State) {
    match step
    case WriteDeactivate(t, u, began) =>
      && t !in s.txns && u in s.active && UserFree(s, u) && began <= s.clock
      && s' == Put(s, t, DeactivateWritten(u, began))
    case SweepDeactivate(t) =>
      && t in s.txns && s.txns[t].DeactivateWritten?
      && (forall c :: c in UnusedOf(s, s.txns[t].user) ==> CodeFree(s, c))
      && s' == Put(s, t, DeactivateSwept(s.txns[t].user, s.txns[t].started, UnusedOf(s, s.txns[t].user)))
    case CommitDeactivate(t) =>
      && t in s.txns && s.txns[t].DeactivateSwept?
      && s' == Done(s, t).(active := s.active[s.txns[t].user := false],
                           codes := InvalidateAll(s.codes, s.txns[t].swept, s.txns[t].started))
    case Abort(t) =>
      t in s.txns && s' == Done(s, t)
    case Reactivate(u) =>
      UserFree(s, u) && s' == s.(active := s.active[u := true])
    case Cleanup(doomed) =>
      && (forall c :: c in doomed ==> c in s.codes && CodeFree(s, c) && Doomed(s.codes[c], s.clock))
      && s' == s.(codes := s.codes - doomed)
    case Tick(now) =>
      now >= s.clock && s' == s.(clock := now)
    case _ => false
  }

  ghost predicate Next(s: State, step: Step, s': State) {
    NextCreate(s, step, s') || NextClaim(s, step, s') || NextOther(s, step, s')
  }

  // ---- The invariant ----

  predicate Rivals(codes: map<CodeId, Code>, c: CodeId, d: CodeId) {
    && c in codes && d in codes && c != d
    && codes[c].owner == codes[d].owner && codes[c].Unused() && codes[d].Unused()
  }

  ghost predicate OneUnusedEach(codes: map<CodeId, Code>) {
    forall c, d :: !Rivals(codes, c, d)
  }

  // Consumed and invalidated exclude each other, and nothing is consumed at or after its expiry.
  predicate Sound(c: Code) {
    && (c.consumedAt.None? || c.invalidatedAt.None?)
    && (c.consumedAt.Some? ==> c.consumedAt.value < c.expiresAt)
  }

  ghost predicate CodesSafe(s: State) {
    forall c :: c in s.codes ==> c in s.used && Sound(s.codes[c])
  }

  ghost predicate DevicesSafe(s: State) {
    && (forall i :: 0 <= i < |s.devices| ==> s.devices[i].code in s.used)
    && (forall i :: 0 <= i < |s.devices| && s.devices[i].code in s.codes ==>
          s.codes[s.devices[i].code].consumedAt.Some?)
    && (forall i, j :: 0 <= i < j < |s.devices| ==> s.devices[i].code != s.devices[j].code)
  }

  // The swept rows are the user's unused codes, all of them.
  ghost predicate SweptSafe(s: State, u: UserId, swept: set<CodeId>) {
    && (forall c :: c in swept ==> c in s.codes && s.codes[c].owner == u && s.codes[c].Unused())
    && (forall c :: c in s.codes && s.codes[c].owner == u && s.codes[c].Unused() ==> c in swept)
  }

  ghost predicate OwnedBy(s: State, c: CodeId, u: UserId) {
    c in s.used && (c in s.codes ==> s.codes[c].owner == u)
  }

  ghost predicate DrawnSafe(s: State, drawn: CodeId) {
    drawn in s.used && drawn !in s.codes && forall i :: 0 <= i < |s.devices| ==> s.devices[i].code != drawn
  }

  ghost predicate UnusedRow(s: State, c: CodeId, u: UserId) {
    c in s.codes && s.codes[c].owner == u && s.codes[c].Unused()
  }

  ghost predicate TxnSafe(s: State, txn: Txn) {
    match txn
    case CreateLocked(u, _) => IsActive(s, u)
    case CreateSwept(u, _, swept) => IsActive(s, u) && SweptSafe(s, u, swept)
    case CreateInserted(u, _, swept, drawn) => IsActive(s, u) && SweptSafe(s, u, swept) && DrawnSafe(s, drawn)
    case ClaimLooked(c, u) => OwnedBy(s, c, u)
    case ClaimUser(c, u, _, active) => OwnedBy(s, c, u) && active == IsActive(s, u)
    case ClaimCode(c, u, _, active, seen) =>
      OwnedBy(s, c, u) && c in s.codes && s.codes[c] == seen && active == IsActive(s, u)
    case ClaimInvalidated(c, u, _) => UnusedRow(s, c, u)
    case ClaimConsumed(c, u, started) => UnusedRow(s, c, u) && IsActive(s, u) && started < s.codes[c].expiresAt
    case DeactivateWritten(u, _) => true
    case DeactivateSwept(u, _, swept) => SweptSafe(s, u, swept)
  }

  // A claim's code was looked up in the table.
  predicate Claims(txn: Txn, c: CodeId) {
    && (txn.ClaimLooked? || txn.ClaimUser? || txn.ClaimCode? || txn.ClaimInvalidated? || txn.ClaimConsumed?)
    && txn.code == c
  }

  predicate Draws(txn: Txn, c: CodeId) {
    txn.CreateInserted? && txn.drawn == c
  }

  // No shared lock, no shared new code, and nobody claims a code that is not committed.
  ghost predicate Compatible(a: Txn, b: Txn) {
    && (forall u :: HoldsUser(a, u) ==> !HoldsUser(b, u))
    && (forall c :: HoldsCode(a, c) ==> !HoldsCode(b, c))
    && (forall c :: Draws(a, c) ==> !Draws(b, c) && !Claims(b, c))
    && (forall c :: Draws(b, c) ==> !Claims(a, c))
  }

  ghost predicate LocksExclusive(s: State) {
    forall t, v :: t in s.txns && v in s.txns && t != v ==> Compatible(s.txns[t], s.txns[v])
  }

  ghost predicate TxnsSafe(s: State) {
    forall t :: t in s.txns ==> TxnSafe(s, s.txns[t])
  }

  ghost predicate Inv(s: State) {
    OneUnusedEach(s.codes) && CodesSafe(s) && DevicesSafe(s) && LocksExclusive(s) && TxnsSafe(s)
  }

  // ---- Steps of one transaction before its commit ----

  ghost predicate Fits(s: State, t: TxnId, txn: Txn) {
    forall v :: v in s.txns && v != t ==> Compatible(txn, s.txns[v])
  }

  lemma CompatibleSymmetric(a: Txn, b: Txn)
    requires Compatible(a, b)
    ensures Compatible(b, a)
  {
  }

  lemma PutLocks(s: State, t: TxnId, txn: Txn)
    requires LocksExclusive(s) && Fits(s, t, txn)
    ensures LocksExclusive(Put(s, t, txn))
  {
    forall v, w | v in Put(s, t, txn).txns && w in Put(s, t, txn).txns && v != w
      ensures Compatible(Put(s, t, txn).txns[v], Put(s, t, txn).txns[w])
    {
      if w == t { CompatibleSymmetric(txn, s.txns[v]); }
    }
  }

  lemma SameTables(s: State, s': State, txn: Txn)
    requires TxnSafe(s, txn)
    requires s'.codes == s.codes && s'.active == s.active && s'.devices == s.devices && s.used <= s'.used
    ensures TxnSafe(s', txn)
  {
  }

  lemma PutKeepsInv(s: State, t: TxnId, txn: Txn)
    requires Inv(s) && TxnSafe(s, txn) && Fits(s, t, txn)
    ensures Inv(Put(s, t, txn))
  {
    var s' := Put(s, t, txn);
    PutLocks(s, t, txn);
    forall v | v in s'.txns
      ensures TxnSafe(s', s'.txns[v])
    {
      SameTables(s, s', s'.txns[v]);
    }
  }

  // Each of the following steps puts a transaction that fits.
  ghost predicate Puts(s: State, t: TxnId, txn: Txn, s': State) {
    s' == Put(s, t, txn) && TxnSafe(s, txn) && Fits(s, t, txn)
  }

  // txn holds what was held before and what is free, draws nothing and claims nothing new.
  ghost predicate GoesOn(s: State, was: Txn, txn: Txn) {
    && (forall u :: HoldsUser(txn, u) ==> HoldsUser(was, u) || UserFree(s, u))
    && (forall c :: HoldsCode(txn, c) ==> HoldsCode(was, c) || CodeFree(s, c))
    && (forall c :: Claims(txn, c) ==> Claims(was, c))
    && !txn.CreateInserted?
  }

  lemma GoesOnFits(s: State, t: TxnId, txn: Txn)
    requires LocksExclusive(s) && t in s.txns && GoesOn(s, s.txns[t], txn)
    ensures Fits(s, t, txn)
  {
    forall v | v in s.txns && v != t ensures Compatible(txn, s.txns[v]) {
      assert Compatible(s.txns[t], s.txns[v]);
    }
  }

  lemma SweepCreatePuts(s: State, t: TxnId, s': State)
    requires Inv(s) && NextCreate(s, SweepCreate(t), s')
    ensures Puts(s, t, CreateSwept(s.txns[t].user, s.txns[t].started, UnusedOf(s, s.txns[t].user)), s')
  {
    assert TxnSafe(s, s.txns[t]);
    GoesOnFits(s, t, s'.txns[t]);
  }

  // A code nobody has drawn before is nobody's.
  lemma UnknownCode(s: State, v: TxnId, c: CodeId)
    requires Inv(s) && v in s.txns && c !in s.used
    ensures !Draws(s.txns[v], c) && !Claims(s.txns[v], c)
  {
    assert TxnSafe(s, s.txns[v]);
  }

  lemma UseKeepsInv(s: State, c: CodeId)
    requires Inv(s)
    ensures Inv(s.(used := s.used + {c}))
  {
    var more := s.(used := s.used + {c});
    forall v | v in s.txns ensures TxnSafe(more, s.txns[v]) {
      SameTables(s, more, s.txns[v]);
    }
  }

  lemma InsertCodePuts(s: State, t: TxnId, drawn: CodeId, s': State)
    requires Inv(s) && NextCreate(s, InsertCode(t, drawn), s')
    ensures Puts(s.(used := s.used + {drawn}), t,
                 CreateInserted(s.txns[t].user, s.txns[t].started, s.txns[t].swept, drawn), s')
  {
    assert TxnSafe(s, s.txns[t]);
    forall v | v in s.txns && v != t ensures Compatible(s'.txns[t], s.txns[v]) {
      assert Compatible(s.txns[t], s.txns[v]);
      UnknownCode(s, v, drawn);
      DrawnCompatible(s.txns[t], s'.txns[t], s.txns[v]);
    }
  }

  lemma DrawnCompatible(was: Txn, txn: Txn, other: Txn)
    requires was.CreateSwept? && txn.CreateInserted? && txn.user == was.user && txn.swept == was.swept
    requires Compatible(was, other) && !Draws(other, txn.drawn) && !Claims(other, txn.drawn)
    ensures Compatible(txn, other)
  {
  }

  lemma InsertCodeKeeps(s: State, t: TxnId, drawn: CodeId, s': State)
    requires Inv(s) && NextCreate(s, InsertCode(t, drawn), s')
    ensures Inv(s')
  {
    InsertCodePuts(s, t, drawn, s');
    UseKeepsInv(s, drawn);
    PutKeepsInv(s.(used := s.used + {drawn}), t, s'.txns[t]);
  }

  lemma LookUpPuts(s: State, t: TxnId, c: CodeId, s': State)
    requires Inv(s) && NextClaim(s, LookUp(t, c), s')
    ensures Puts(s, t, ClaimLooked(c, s.codes[c].owner), s')
  {
    forall v | v in s.txns && v != t ensures Compatible(ClaimLooked(c, s.codes[c].owner), s.txns[v]) {
      assert TxnSafe(s, s.txns[v]);
    }
  }

  // A claim goes on from the locks it has, to the ones that are free.
  lemma LockOwnerPuts(s: State, t: TxnId, began: Time, s': State)
    requires Inv(s) && NextClaim(s, LockOwner(t, began), s')
    ensures t in s'.txns && Puts(s, t, s'.txns[t], s')
  {
    assert TxnSafe(s, s.txns[t]);
    GoesOnFits(s, t, s'.txns[t]);
  }

  lemma LockCodePuts(s: State, t: TxnId, s': State)
    requires Inv(s) && NextClaim(s, LockCode(t), s')
    ensures t in s'.txns && Puts(s, t, s'.txns[t], s')
  {
    assert TxnSafe(s, s.txns[t]);
    GoesOnFits(s, t, s'.txns[t]);
  }

  lemma InvalidatePuts(s: State, t: TxnId, s': State)
    requires Inv(s) && NextClaim(s, Invalidate(t), s')
    ensures t in s'.txns && Puts(s, t, s'.txns[t], s')
  {
    assert TxnSafe(s, s.txns[t]);
    GoesOnFits(s, t, s'.txns[t]);
  }

  lemma ConsumePuts(s: State, t: TxnId, s': State)
    requires Inv(s) && NextClaim(s, Consume(t), s')
    ensures t in s'.txns && Puts(s, t, s'.txns[t], s')
  {
    assert TxnSafe(s, s.txns[t]);
    GoesOnFits(s, t, s'.txns[t]);
  }

  lemma SweepDeactivatePuts(s: State, t: TxnId, s': State)
    requires Inv(s) && NextOther(s, SweepDeactivate(t), s')
    ensures Puts(s, t, DeactivateSwept(s.txns[t].user, s.txns[t].started, UnusedOf(s, s.txns[t].user)), s')
  {
    assert TxnSafe(s, s.txns[t]);
    GoesOnFits(s, t, s'.txns[t]);
  }

  lemma LockCreatePuts(s: State, t: TxnId, u: UserId, began: Time, s': State)
    requires Inv(s) && NextCreate(s, LockCreate(t, u, began), s')
    ensures Puts(s, t, CreateLocked(u, began), s')
  {
  }

  lemma WriteDeactivatePuts(s: State, t: TxnId, u: UserId, began: Time, s': State)
    requires Inv(s) && NextOther(s, WriteDeactivate(t, u, began), s')
    ensures Puts(s, t, DeactivateWritten(u, began), s')
  {
  }

  // ---- Commits ----

  // What a committing transaction may change while the others go on: codes it holds, the code
  // it drew, and the account of the user it holds.
  ghost predicate CodesDiscreet(s: State, s': State, mine: Txn) {
    && (forall c :: c in s.codes ==> c in s'.codes && s'.codes[c].owner == s.codes[c].owner)
    && (forall c :: c in s.codes && !HoldsCode(mine, c) ==> s'.codes[c] == s.codes[c])
    && (forall c :: c in s'.codes && c !in s.codes ==> Draws(mine, c) && HoldsUser(mine, s'.codes[c].owner))
    && (forall c :: c in s.codes && c in s'.codes && s'.codes[c].Unused() ==> s.codes[c].Unused())
    && (forall c :: HoldsCode(mine, c) && c in s.codes ==> HoldsUser(mine, s.codes[c].owner))
  }

  ghost predicate Discreet(s: State, s': State, mine: Txn) {
    && s'.used == s.used
    && CodesDiscreet(s, s', mine)
    && (forall u :: !HoldsUser(mine, u) ==> IsActive(s, u) == IsActive(s', u))
    && (forall i :: 0 <= i < |s'.devices| ==>
          (i < |s.devices| && s'.devices[i] == s.devices[i]) || s'.devices[i].code in s.codes)
  }

  lemma DiscreetSwept(s: State, s': State, mine: Txn, u: UserId, swept: set<CodeId>)
    requires CodesDiscreet(s, s', mine) && SweptSafe(s, u, swept) && !HoldsUser(mine, u)
    ensures SweptSafe(s', u, swept)
  {
  }

  lemma DiscreetDrawn(s: State, s': State, mine: Txn, drawn: CodeId)
    requires Discreet(s, s', mine) && DrawnSafe(s, drawn) && !Draws(mine, drawn)
    ensures DrawnSafe(s', drawn)
  {
  }

  lemma DiscreetCommit(s: State, s': State, mine: Txn, other: Txn)
    requires TxnSafe(s, other) && Compatible(mine, other) && Discreet(s, s', mine)
    ensures TxnSafe(s', other)
  {
    if !other.ClaimLooked? {
      assert HoldsUser(other, other.user);
    }
    match other
    case CreateSwept(u, _, swept) => DiscreetSwept(s, s', mine, u, swept);
    case CreateInserted(u, _, swept, drawn) =>
      assert Draws(other, drawn);
      DiscreetSwept(s, s', mine, u, swept);
      DiscreetDrawn(s, s', mine, drawn);
    case DeactivateSwept(u, _, swept) => DiscreetSwept(s, s', mine, u, swept);
    case ClaimLooked(c, u) => assert Claims(other, c);
    case ClaimUser(c, u, _, _) => assert Claims(other, c);
    case ClaimCode(c, _, _, _, _) => assert Claims(other, c) && HoldsCode(other, c);
    case ClaimInvalidated(c, _, _) => assert HoldsCode(other, c);
    case ClaimConsumed(c, _, _) => assert HoldsCode(other, c);
    case _ =>
  }

  lemma CommitKeepsInv(s: State, s': State, t: TxnId)
    requires Inv(s) && t in s.txns && Discreet(s, s', s.txns[t]) && s'.txns == s.txns - {t}
    requires OneUnusedEach(s'.codes) && CodesSafe(s') && DevicesSafe(s')
    ensures Inv(s')
  {
    forall v | v in s'.txns ensures TxnSafe(s', s'.txns[v]) {
      assert TxnSafe(s, s.txns[v]) && Compatible(s.txns[t], s.txns[v]);
      DiscreetCommit(s, s', s.txns[t], s.txns[v]);
    }
  }

  lemma SweepSound(s: State, u: UserId, swept: set<CodeId>, at: Time, codes: map<CodeId, Code>)
    requires OneUnusedEach(s.codes) && CodesSafe(s) && SweptSafe(s, u, swept)
    requires codes == InvalidateAll(s.codes, swept, at)
    ensures OneUnusedEach(codes)
    ensures forall c :: c in codes ==> c in s.codes && Sound(codes[c]) && codes[c].owner == s.codes[c].owner
    ensures forall c :: c in codes && codes[c].owner == u ==> !codes[c].Unused()
  {
    forall c, d ensures !Rivals(codes, c, d) {
      assert !Rivals(s.codes, c, d);
    }
  }

  lemma CreateDiscreet(s: State, txn: Txn, s': State)
    requires TxnSafe(s, txn) && txn.CreateInserted? && s'.used == s.used && s'.active == s.active
    requires s'.codes == InvalidateAll(s.codes, txn.swept, txn.started)
                           [txn.drawn := Code(txn.user, txn.started + LIFETIME, None, None)]
    requires s'.devices == s.devices
    ensures Discreet(s, s', txn)
  {
  }

  // The user's swept codes are all invalidated, so the new one is the only unused code.
  lemma CreateRows(s: State, txn: Txn, codes: map<CodeId, Code>)
    requires OneUnusedEach(s.codes) && CodesSafe(s) && TxnSafe(s, txn) && txn.CreateInserted?
    requires codes == InvalidateAll(s.codes, txn.swept, txn.started)
                        [txn.drawn := Code(txn.user, txn.started + LIFETIME, None, None)]
    ensures OneUnusedEach(codes)
    ensures forall c :: c in codes ==> c in s.used && Sound(codes[c])
    ensures forall c :: c in s.codes && s.codes[c].consumedAt.Some? ==> c in codes && codes[c].consumedAt.Some?
  {
    var before := InvalidateAll(s.codes, txn.swept, txn.started);
    SweepSound(s, txn.user, txn.swept, txn.started, before);
    forall c, d ensures !Rivals(codes, c, d) {
      assert !Rivals(before, c, d);
    }
  }

  lemma CommitCreateKeeps(s: State, t: TxnId, s': State)
    requires Inv(s) && NextCreate(s, CommitCreate(t), s')
    ensures Inv(s')
  {
    assert TxnSafe(s, s.txns[t]);
    CreateTables(s, s.txns[t], s');
    CommitKeepsInv(s, s', t);
  }

  lemma CreateTables(s: State, txn: Txn, s': State)
    requires OneUnusedEach(s.codes) && CodesSafe(s) && DevicesSafe(s) && TxnSafe(s, txn) && txn.CreateInserted?
    requires s'.used == s.used && s'.active == s.active && s'.devices == s.devices
    requires s'.codes == InvalidateAll(s.codes, txn.swept, txn.started)
                           [txn.drawn := Code(txn.user, txn.started + LIFETIME, None, None)]
    ensures Discreet(s, s', txn) && OneUnusedEach(s'.codes) && CodesSafe(s') && DevicesSafe(s')
  {
    CreateDiscreet(s, txn, s');
    CreateRows(s, txn, s'.codes);
  }

  lemma SweepDiscreet(s: State, txn: Txn, s': State)
    requires TxnSafe(s, txn) && txn.DeactivateSwept? && s'.used == s.used && s'.devices == s.devices
    requires s'.codes == InvalidateAll(s.codes, txn.swept, txn.started) && s'.active == s.active[txn.user := false]
    ensures Discreet(s, s', txn)
  {
  }

  lemma CommitDeactivateKeeps(s: State, t: TxnId, s': State)
    requires Inv(s) && NextOther(s, CommitDeactivate(t), s')
    ensures Inv(s')
  {
    var txn := s.txns[t];
    assert TxnSafe(s, txn);
    SweepDiscreet(s, txn, s');
    SweepSound(s, txn.user, txn.swept, txn.started, s'.codes);
    CommitKeepsInv(s, s', t);
  }

  lemma InvalidateDiscreet(s: State, txn: Txn, s': State)
    requires TxnSafe(s, txn) && txn.ClaimInvalidated? && s'.used == s.used && s'.devices == s.devices
    requires s'.codes == InvalidateAll(s.codes, {txn.code}, txn.started) && s'.active == s.active
    ensures Discreet(s, s', txn)
  {
  }

  lemma InvalidateSound(s: State, c: CodeId, at: Time, codes: map<CodeId, Code>)
    requires OneUnusedEach(s.codes) && CodesSafe(s) && c in s.codes && s.codes[c].Unused()
    requires codes == InvalidateAll(s.codes, {c}, at)
    ensures OneUnusedEach(codes)
    ensures forall d :: d in codes ==> d in s.codes && Sound(codes[d])
    ensures forall d :: d in codes && s.codes[d].consumedAt.Some? ==> codes[d].consumedAt.Some?
  {
    forall d, e ensures !Rivals(codes, d, e) {
      assert !Rivals(s.codes, d, e);
    }
  }

  lemma CommitInvalidateKeeps(s: State, t: TxnId, s': State)
    requires Inv(s) && NextClaim(s, CommitInvalidate(t), s')
    ensures Inv(s')
  {
    var txn := s.txns[t];
    assert TxnSafe(s, txn);
    InvalidateDiscreet(s, txn, s');
    InvalidateSound(s, txn.code, txn.started, s'.codes);
    CommitKeepsInv(s, s', t);
  }

  lemma ClaimRecordsDevice(s: State, c: CodeId, u: UserId, at: Time, s': State)
    requires DevicesSafe(s) && CodesSafe(s) && UnusedRow(s, c, u) && s'.used == s.used
    requires s'.codes == s.codes[c := s.codes[c].(consumedAt := Some(at))]
    requires s'.devices == s.devices + [Device(u, c)]
    ensures DevicesSafe(s')
  {
  }

  lemma ClaimDiscreet(s: State, txn: Txn, s': State)
    requires TxnSafe(s, txn) && txn.ClaimConsumed? && s'.used == s.used && s'.active == s.active
    requires s'.codes == s.codes[txn.code := s.codes[txn.code].(consumedAt := Some(txn.started))]
    requires s'.devices == s.devices + [Device(txn.user, txn.code)]
    ensures Discreet(s, s', txn)
  {
  }

  lemma CommitClaimKeeps(s: State, t: TxnId, s': State)
    requires Inv(s) && NextClaim(s, CommitClaim(t), s')
    ensures Inv(s')
  {
    var txn := s.txns[t];
    assert TxnSafe(s, txn);
    ClaimDiscreet(s, txn, s');
    ClaimRecordsDevice(s, txn.code, txn.user, txn.started, s');
    forall c, d ensures !Rivals(s'.codes, c, d) {
      assert !Rivals(s.codes, c, d);
    }
    CommitKeepsInv(s, s', t);
  }

  // ---- Single-step writers ----

  lemma AbortKeeps(s: State, t: TxnId, s': State)
    requires Inv(s) && NextOther(s, Abort(t), s')
    ensures Inv(s')
  {
    forall v | v in s'.txns ensures TxnSafe(s', s'.txns[v]) {
      SameTables(s, s', s.txns[v]);
    }
  }

  lemma ReactivateKeeps(s: State, u: UserId, s': State)
    requires Inv(s) && NextOther(s, Reactivate(u), s')
    ensures Inv(s')
  {
    forall v | v in s'.txns ensures TxnSafe(s', s'.txns[v]) {
      assert TxnSafe(s, s.txns[v]) && !HoldsUser(s.txns[v], u);
    }
  }

  // Clean-up only takes rows nobody has locked.
  lemma CleanupKeepsTxn(s: State, doomed: set<CodeId>, txn: Txn, s': State)
    requires TxnSafe(s, txn) && s' == s.(codes := s.codes - doomed)
    requires forall c :: c in doomed ==> !HoldsCode(txn, c)
    ensures TxnSafe(s', txn)
  {
    match txn
    case ClaimCode(c, _, _, _, _) => assert HoldsCode(txn, c);
    case ClaimInvalidated(c, _, _) => assert HoldsCode(txn, c);
    case ClaimConsumed(c, _, _) => assert HoldsCode(txn, c);
    case _ =>
  }

  lemma CleanupKeeps(s: State, doomed: set<CodeId>, s': State)
    requires Inv(s) && NextOther(s, Cleanup(doomed), s')
    ensures Inv(s')
  {
    forall v | v in s'.txns ensures TxnSafe(s', s'.txns[v]) {
      assert TxnSafe(s, s.txns[v]);
      CleanupKeepsTxn(s, doomed, s.txns[v], s');
    }
    forall c, d ensures !Rivals(s'.codes, c, d) {
      assert !Rivals(s.codes, c, d);
    }
  }

  lemma TickKeeps(s: State, now: Time, s': State)
    requires Inv(s) && NextOther(s, Tick(now), s')
    ensures Inv(s')
  {
    forall v | v in s'.txns ensures TxnSafe(s', s'.txns[v]) {
      SameTables(s, s', s.txns[v]);
    }
  }

  lemma CreateKeepsInv(s: State, step: Step, s': State)
    requires Inv(s) && NextCreate(s, step, s')
    ensures Inv(s')
  {
    match step
    case LockCreate(t, u, began) =>
      LockCreatePuts(s, t, u, began, s');
      PutKeepsInv(s, t, s'.txns[t]);
    case SweepCreate(t) =>
      SweepCreatePuts(s, t, s');
      PutKeepsInv(s, t, s'.txns[t]);
    case InsertCode(t, drawn) => InsertCodeKeeps(s, t, drawn, s');
    case CommitCreate(t) => CommitCreateKeeps(s, t, s');
  }

  lemma ClaimLocksKeepInv(s: State, step: Step, s': State)
    requires Inv(s) && NextClaim(s, step, s') && (step.LookUp? || step.LockOwner? || step.LockCode?)
    ensures Inv(s')
  {
    match step {
    case LookUp(t, c) => LookUpPuts(s, t, c, s');
    case LockOwner(t, began) => LockOwnerPuts(s, t, began, s');
    case LockCode(t) => LockCodePuts(s, t, s');
    }
    PutKeepsInv(s, step.t, s'.txns[step.t]);
  }

  lemma ClaimWritesKeepInv(s: State, step: Step, s': State)
    requires Inv(s) && NextClaim(s, step, s') && (step.Invalidate? || step.Consume?)
    ensures Inv(s')
  {
    match step {
    case Invalidate(t) => InvalidatePuts(s, t, s');
    case Consume(t) => ConsumePuts(s, t, s');
    }
    PutKeepsInv(s, step.t, s'.txns[step.t]);
  }

  lemma ClaimKeepsInv(s: State, step: Step, s': State)
    requires Inv(s) && NextClaim(s, step, s')
    ensures Inv(s')
  {
    match step
    case CommitInvalidate(t) => CommitInvalidateKeeps(s, t, s');
    case CommitClaim(t) => CommitClaimKeeps(s, t, s');
    case Invalidate(_) => ClaimWritesKeepInv(s, step, s');
    case Consume(_) => ClaimWritesKeepInv(s, step, s');
    case _ => ClaimLocksKeepInv(s, step, s');
  }

  lemma OtherKeepsInv(s: State, step: Step, s': State)
    requires Inv(s) && NextOther(s, step, s')
    ensures Inv(s')
  {
    match step
    case WriteDeactivate(t, u, began) =>
      WriteDeactivatePuts(s, t, u, began, s');
      PutKeepsInv(s, t, s'.txns[t]);
    case SweepDeactivate(t) =>
      SweepDeactivatePuts(s, t, s');
      PutKeepsInv(s, t, s'.txns[t]);
    case CommitDeactivate(t) => CommitDeactivateKeeps(s, t, s');
    case Abort(t) => AbortKeeps(s, t, s');
    case Reactivate(u) => ReactivateKeeps(s, u, s');
    case Cleanup(doomed) => CleanupKeeps(s, doomed, s');
    case Tick(now) => TickKeeps(s, now, s');
  }

  // Every step of every transaction keeps the invariant.
  lemma StepKeepsInv(s: State, step: Step, s': State)
    requires Inv(s) && Next(s, step, s')
    ensures Inv(s')
  {
    if NextCreate(s, step, s') {
      CreateKeepsInv(s, step, s');
    } else if NextClaim(s, step, s') {
      ClaimKeepsInv(s, step, s');
    } else {
      OtherKeepsInv(s, step, s');
    }
  }
}
