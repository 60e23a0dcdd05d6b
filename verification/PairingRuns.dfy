// What holds over every run of the pairing protocol.
module PairingRuns {
  import opened Options
  import opened PairingProtocol

  ghost predicate Fresh(s: State) {
    s.codes == map[] && s.devices == [] && s.txns == map[]
  }

  ghost predicate Run(trace: seq<State>) {
    && |trace| > 0
    && Fresh(trace[0])
    && forall i :: 0 < i < |trace| ==> MovesTo(trace, i)
  }

  ghost predicate MovesTo(trace: seq<State>, i: nat) {
    0 < i < |trace| && Moves(trace[i - 1], trace[i])
  }

  ghost predicate Moves(s: State, s': State) {
    exists step :: Next(s, step, s')
  }

  lemma MovesKeepInv(s: State, s': State)
    requires Inv(s) && Moves(s, s')
    ensures Inv(s')
  {
    var step :| Next(s, step, s');
    StepKeepsInv(s, step, s');
  }

  lemma {:induction false} RunKeepsInv(trace: seq<State>, i: nat)
    requires Run(trace) && i < |trace|
    ensures Inv(trace[i])
  {
    if i > 0 {
      RunKeepsInv(trace, i - 1);
      assert MovesTo(trace, i);
      MovesKeepInv(trace[i - 1], trace[i]);
    }
  }

  // At most one code of an account is neither consumed nor invalidated.
  lemma OneUnusedCodePerAccount(trace: seq<State>, i: nat, c: CodeId, d: CodeId)
    requires Run(trace) && i < |trace|
    requires c in trace[i].codes && d in trace[i].codes && trace[i].codes[c].owner == trace[i].codes[d].owner
    requires trace[i].codes[c].Unused() && trace[i].codes[d].Unused()
    ensures c == d
  {
    RunKeepsInv(trace, i);
    assert !Rivals(trace[i].codes, c, d);
  }

  // A code is never both consumed and invalidated, and is consumed only before it expires.
  lemma ConsumedOrInvalidated(trace: seq<State>, i: nat, c: CodeId)
    requires Run(trace) && i < |trace| && c in trace[i].codes
    ensures var row := trace[i].codes[c];
            && (row.consumedAt.Some? ==> row.invalidatedAt.None? && row.consumedAt.value < row.expiresAt)
            && (row.invalidatedAt.Some? ==> row.consumedAt.None?)
  {
    RunKeepsInv(trace, i);
  }

  lemma OneDevicePerCode(trace: seq<State>, i: nat, d: nat, e: nat)
    requires Run(trace) && i < |trace| && d < e < |trace[i].devices|
    ensures trace[i].devices[d].code != trace[i].devices[e].code
  {
    RunKeepsInv(trace, i);
  }

  // ---- A used code stays as it is ----

  ghost predicate Gone(s: State, c: CodeId) {
    c in s.used && c !in s.codes && forall t :: t in s.txns ==> !Draws(s.txns[t], c)
  }

  // Used as row says, or deleted for good.
  ghost predicate Sealed(s: State, c: CodeId, row: Code) {
    (c in s.codes && s.codes[c] == row && !row.Unused()) || Gone(s, c)
  }

  lemma CreateKeepsSeal(s: State, step: Step, s': State, c: CodeId, row: Code)
    requires Inv(s) && NextCreate(s, step, s') && Sealed(s, c, row)
    ensures Sealed(s', c, row)
  {
    if step.CommitCreate? {
      assert TxnSafe(s, s.txns[step.t]);
    }
  }

  lemma ClaimKeepsSeal(s: State, step: Step, s': State, c: CodeId, row: Code)
    requires Inv(s) && NextClaim(s, step, s') && Sealed(s, c, row)
    ensures Sealed(s', c, row)
  {
    if step.CommitClaim? || step.CommitInvalidate? {
      assert TxnSafe(s, s.txns[step.t]);
    }
  }

  lemma OtherKeepsSeal(s: State, step: Step, s': State, c: CodeId, row: Code)
    requires Inv(s) && NextOther(s, step, s') && Sealed(s, c, row)
    ensures Sealed(s', c, row)
  {
    if step.CommitDeactivate? {
      assert TxnSafe(s, s.txns[step.t]);
    }
    if step.Cleanup? && c in s.codes && c !in s'.codes {
      forall t | t in s'.txns ensures !Draws(s'.txns[t], c) {
        assert TxnSafe(s, s.txns[t]);
      }
    }
  }

  lemma MovesKeepSeal(s: State, s': State, c: CodeId, row: Code)
    requires Inv(s) && Moves(s, s') && Sealed(s, c, row)
    ensures Sealed(s', c, row)
  {
    var step :| Next(s, step, s');
    if NextCreate(s, step, s') {
      CreateKeepsSeal(s, step, s', c, row);
    } else if NextClaim(s, step, s') {
      ClaimKeepsSeal(s, step, s', c, row);
    } else {
      OtherKeepsSeal(s, step, s', c, row);
    }
  }

  lemma RunKeepsSeal(trace: seq<State>, i: nat, c: CodeId, row: Code)
    requires Run(trace) && 0 < i < |trace| && Sealed(trace[i - 1], c, row)
    ensures Sealed(trace[i], c, row)
  {
    RunKeepsInv(trace, i - 1);
    assert MovesTo(trace, i);
    MovesKeepSeal(trace[i - 1], trace[i], c, row);
  }

  lemma {:induction false} SealLasts(trace: seq<State>, i: nat, j: nat, c: CodeId, row: Code)
    requires Run(trace) && i <= j < |trace| && Sealed(trace[i], c, row)
    ensures Sealed(trace[j], c, row)
    decreases j
  {
    if i < j {
      SealLasts(trace, i, j - 1, c, row);
      RunKeepsSeal(trace, j, c, row);
    }
  }

  // Consumption and invalidation are never undone: the row stays as it is until clean-up
  // deletes it, and a deleted code does not come back.
  lemma UsedCodeIsSealed(trace: seq<State>, i: nat, j: nat, c: CodeId)
    requires Run(trace) && i <= j < |trace| && c in trace[i].codes && !trace[i].codes[c].Unused()
    ensures c in trace[j].codes ==> trace[j].codes[c] == trace[i].codes[c]
    ensures c !in trace[j].codes ==> forall k :: j <= k < |trace| ==> c !in trace[k].codes
  {
    SealLasts(trace, i, j, c, trace[i].codes[c]);
    if c !in trace[j].codes {
      forall k | j <= k < |trace| ensures c !in trace[k].codes {
        SealLasts(trace, j, k, c, Code(0, 0, None, None));
      }
    }
  }

  // ---- Where devices come from ----

  // Devices only appear, one at a time, by consuming an unused and unexpired code of an account
  // that is active before and after.
  ghost predicate PairedBy(s: State, s': State) {
    && |s'.devices| == |s.devices| + 1
    && var d := s'.devices[|s.devices|];
       && s'.devices == s.devices + [d]
       && IsActive(s, d.owner) && IsActive(s', d.owner)
       && UnusedRow(s, d.code, d.owner) && d.code in s'.codes
       && s'.codes[d.code].consumedAt.Some?
       && s'.codes[d.code].consumedAt.value < s.codes[d.code].expiresAt
  }

  lemma ClaimPairs(s: State, t: TxnId, s': State)
    requires Inv(s) && NextClaim(s, CommitClaim(t), s')
    ensures PairedBy(s, s')
  {
    assert TxnSafe(s, s.txns[t]);
  }

  lemma OnlyClaimsPair(s: State, step: Step, s': State)
    requires Next(s, step, s') && !step.CommitClaim?
    ensures s'.devices == s.devices
  {
    if NextCreate(s, step, s') {
    } else if NextClaim(s, step, s') {
    } else {
      assert NextOther(s, step, s');
    }
  }

  lemma DeviceOnlyForActiveOwner(trace: seq<State>, i: nat)
    requires Run(trace) && i + 1 < |trace|
    ensures trace[i + 1].devices == trace[i].devices || PairedBy(trace[i], trace[i + 1])
  {
    RunKeepsInv(trace, i);
    var s, s' := trace[i], trace[i + 1];
    assert MovesTo(trace, i + 1);
    var step :| Next(s, step, s');
    if step.CommitClaim? {
      ClaimPairs(s, step.t, s');
    } else {
      OnlyClaimsPair(s, step, s');
    }
  }

  // The guarded update that consumes the code always finds the row as it was read, so the
  // "pairing state changed" failure cannot happen.
  lemma ConsumingNeverMisses(trace: seq<State>, i: nat, t: TxnId)
    requires Run(trace) && i < |trace| && t in trace[i].txns
    requires trace[i].txns[t].ClaimCode? && trace[i].txns[t].seen.Unused()
    ensures UnusedRow(trace[i], trace[i].txns[t].code, trace[i].txns[t].user)
    ensures trace[i].txns[t].active == IsActive(trace[i], trace[i].txns[t].user)
  {
    RunKeepsInv(trace, i);
    assert TxnSafe(trace[i], trace[i].txns[t]);
  }

  ghost predicate NobodyPairs(s: State, u: UserId) {
    forall v :: v in s.txns && s.txns[v].ClaimConsumed? ==> s.txns[v].user != u
  }

  // When a deactivation commits, the account is left with no usable code and nobody can be
  // about to pair a device to it.
  lemma DeactivationClosesPairing(trace: seq<State>, i: nat, t: TxnId)
    requires Run(trace) && i + 1 < |trace| && NextOther(trace[i], CommitDeactivate(t), trace[i + 1])
    ensures var u := trace[i].txns[t].user;
            && !IsActive(trace[i + 1], u)
            && UnusedOf(trace[i + 1], u) == {}
            && NobodyPairs(trace[i + 1], u)
  {
    var s, s' := trace[i], trace[i + 1];
    var u := s.txns[t].user;
    RunKeepsInv(trace, i);
    RunKeepsInv(trace, i + 1);
    assert TxnSafe(s, s.txns[t]);
    forall v | v in s'.txns && s'.txns[v].ClaimConsumed? ensures s'.txns[v].user != u {
      assert TxnSafe(s', s'.txns[v]);
    }
  }

  // ---- What happens to the rows of codes ----

  // A new code is good for ten minutes from the start of its creation, and every other unused
  // code of the account is invalidated with it.
  ghost predicate CreatedBy(s: State, s': State, c: CodeId, txn: Txn) {
    && txn.CreateInserted? && txn.drawn == c && c in s'.codes && IsActive(s', txn.user)
    && s'.codes[c] == Code(txn.user, txn.started + 600, None, None)
    && forall d :: d in s.codes && s.codes[d].owner == txn.user && s.codes[d].Unused() ==>
         d in s'.codes && s'.codes[d] == s.codes[d].(invalidatedAt := Some(txn.started))
  }

  ghost predicate Created(s: State, s': State, c: CodeId) {
    exists t :: t in s.txns && CreatedBy(s, s', c, s.txns[t])
  }

  // Thirty days after it was consumed, was invalidated, or expired unused.
  predicate Forgotten(row: Code, now: Time) {
    || (row.consumedAt.Some? && now - row.consumedAt.value >= 2592000)
    || (row.invalidatedAt.Some? && now - row.invalidatedAt.value >= 2592000)
    || (row.consumedAt.None? && row.invalidatedAt.None? && now - row.expiresAt >= 2592000)
  }

  ghost predicate Stamped(was: Code, row: Code) {
    && was.consumedAt.None? && was.invalidatedAt.None?
    && row == Code(was.owner, was.expiresAt, row.consumedAt, row.invalidatedAt)
    && (row.consumedAt.Some? <==> row.invalidatedAt.None?)
  }

  // A row is added by a creation, deleted once it is old enough, and otherwise only stamped, once.
  ghost predicate RowChange(s: State, s': State, c: CodeId) {
    && (c !in s.codes && c in s'.codes ==> Created(s, s', c))
    && (c in s.codes && c !in s'.codes ==> Forgotten(s.codes[c], s.clock))
    && (c in s.codes && c in s'.codes && s'.codes[c] != s.codes[c] ==> Stamped(s.codes[c], s'.codes[c]))
    && (c in s.codes && c in s'.codes && s'.codes[c].consumedAt != s.codes[c].consumedAt ==>
          s'.devices == s.devices + [Device(s.codes[c].owner, c)])
  }

  lemma CreateChange(s: State, step: Step, s': State, c: CodeId)
    requires Inv(s) && NextCreate(s, step, s')
    ensures RowChange(s, s', c)
  {
    if step.CommitCreate? {
      var txn := s.txns[step.t];
      assert TxnSafe(s, txn);
      if c == txn.drawn {
        forall d | d in s.codes && s.codes[d].owner == txn.user && s.codes[d].Unused()
          ensures d in s'.codes && s'.codes[d] == s.codes[d].(invalidatedAt := Some(txn.started))
        {
          assert d in txn.swept && d != txn.drawn;
        }
        assert CreatedBy(s, s', c, txn);
      }
    }
  }

  lemma ClaimChange(s: State, step: Step, s': State, c: CodeId)
    requires Inv(s) && NextClaim(s, step, s')
    ensures RowChange(s, s', c)
  {
    if step.CommitInvalidate? || step.CommitClaim? {
      assert TxnSafe(s, s.txns[step.t]);
    }
  }

  lemma OtherChange(s: State, step: Step, s': State, c: CodeId)
    requires Inv(s) && NextOther(s, step, s')
    ensures RowChange(s, s', c)
  {
    if step.CommitDeactivate? {
      assert TxnSafe(s, s.txns[step.t]);
    }
  }

  /** In every run, code rows appear, change and disappear in these ways only. */
  lemma CodeRowsChange(trace: seq<State>, i: nat, c: CodeId)
    requires Run(trace) && i + 1 < |trace|
    ensures RowChange(trace[i], trace[i + 1], c)
  {
    RunKeepsInv(trace, i);
    assert MovesTo(trace, i + 1);
    var s, s' := trace[i], trace[i + 1];
    var step :| Next(s, step, s');
    if NextCreate(s, step, s') {
      CreateChange(s, step, s', c);
    } else if NextClaim(s, step, s') {
      ClaimChange(s, step, s', c);
    } else {
      OtherChange(s, step, s', c);
    }
  }

  // ---- How long a code is good for ----

  ghost predicate Timely(s: State) {
    && (forall c :: c in s.codes ==> s.codes[c].expiresAt <= s.clock + 600)
    && (forall t :: t in s.txns && !s.txns[t].ClaimLooked? ==> s.txns[t].started <= s.clock)
  }

  lemma CreateIsTimely(s: State, step: Step, s': State)
    requires Timely(s) && NextCreate(s, step, s')
    ensures Timely(s')
  {
  }

  lemma ClaimIsTimely(s: State, step: Step, s': State)
    requires Timely(s) && NextClaim(s, step, s')
    ensures Timely(s')
  {
  }

  lemma OtherIsTimely(s: State, step: Step, s': State)
    requires Timely(s) && NextOther(s, step, s')
    ensures Timely(s')
  {
  }

  lemma {:induction false} RunIsTimely(trace: seq<State>, i: nat)
    requires Run(trace) && i < |trace|
    ensures Timely(trace[i])
  {
    if i > 0 {
      RunIsTimely(trace, i - 1);
      assert MovesTo(trace, i);
      MovesKeepTimely(trace[i - 1], trace[i]);
    }
  }

  lemma MovesKeepTimely(s: State, s': State)
    requires Timely(s) && Moves(s, s')
    ensures Timely(s')
  {
    var step :| Next(s, step, s');
    if NextCreate(s, step, s') {
      CreateIsTimely(s, step, s');
    } else if NextClaim(s, step, s') {
      ClaimIsTimely(s, step, s');
    } else {
      OtherIsTimely(s, step, s');
    }
  }

  /** No code is ever good for more than ten minutes from now. */
  lemma TenMinutes(trace: seq<State>, i: nat, c: CodeId)
    requires Run(trace) && i < |trace|
    ensures c in trace[i].codes ==> trace[i].codes[c].expiresAt <= trace[i].clock + 600
  {
    RunIsTimely(trace, i);
  }

  // ---- One transaction on its own ----

  ghost predicate Path(states: seq<State>) {
    |states| > 0 && forall i :: 0 < i < |states| ==> MovesTo(states, i)
  }

  lemma PathStep(states: seq<State>, step: Step, s': State) returns (all: seq<State>)
    requires Path(states) && Next(states[|states| - 1], step, s')
    ensures all == states + [s'] && Path(all) && all[|states|] == s'
  {
    all := states + [s'];
    assert Moves(all[|states| - 1], all[|states|]);
    forall i | 0 < i < |all| ensures MovesTo(all, i) {
      assert i < |states| ==> MovesTo(states, i);
    }
  }

  lemma LoneClaimReads(s: State, t: TxnId, c: CodeId) returns (states: seq<State>)
    requires s.txns == map[] && c in s.codes && s.codes[c].owner in s.active
    ensures Path(states) && states[0] == s
    ensures var u := s.codes[c].owner;
            states[|states| - 1] == Put(s, t, ClaimCode(c, u, s.clock, s.active[u], s.codes[c]))
  {
    var u := s.codes[c].owner;
    states := PathStep([s], LookUp(t, c), Put(s, t, ClaimLooked(c, u)));
    states := PathStep(states, LockOwner(t, s.clock), Put(s, t, ClaimUser(c, u, s.clock, s.active[u])));
    states := PathStep(states, LockCode(t), Put(s, t, ClaimCode(c, u, s.clock, s.active[u], s.codes[c])));
  }

  /** When nobody else is at work, an active account's unused and unexpired code pairs a device. */
  lemma LoneClaimPairs(s: State, t: TxnId, c: CodeId) returns (states: seq<State>)
    requires s.txns == map[] && c in s.codes && s.codes[c].Unused() && s.clock < s.codes[c].expiresAt
    requires IsActive(s, s.codes[c].owner)
    ensures Path(states) && states[0] == s
    ensures states[|states| - 1]
         == s.(codes := s.codes[c := Code(s.codes[c].owner, s.codes[c].expiresAt, Some(s.clock), None)],
               devices := s.devices + [Device(s.codes[c].owner, c)])
  {
    var u, seen := s.codes[c].owner, s.codes[c];
    states := LoneClaimReads(s, t, c);
    states := PathStep(states, Consume(t), Put(s, t, ClaimConsumed(c, u, s.clock)));
    states := PathStep(states, CommitClaim(t),
                       s.(codes := s.codes[c := seen.(consumedAt := Some(s.clock))],
                          devices := s.devices + [Device(u, c)]));
  }

  /** The code of an account that is no longer active is invalidated by the attempt to claim it. */
  lemma LoneClaimInvalidates(s: State, t: TxnId, c: CodeId) returns (states: seq<State>)
    requires s.txns == map[] && c in s.codes && s.codes[c].Unused() && s.clock < s.codes[c].expiresAt
    requires s.codes[c].owner in s.active && !s.active[s.codes[c].owner]
    ensures Path(states) && states[0] == s
    ensures states[|states| - 1]
         == s.(codes := s.codes[c := Code(s.codes[c].owner, s.codes[c].expiresAt, None, Some(s.clock))])
  {
    var u, seen := s.codes[c].owner, s.codes[c];
    states := LoneClaimReads(s, t, c);
    states := PathStep(states, Invalidate(t), Put(s, t, ClaimInvalidated(c, u, s.clock)));
    InvalidateOne(s.codes, c, s.clock);
    states := PathStep(states, CommitInvalidate(t),
                       s.(codes := s.codes[c := seen.(invalidatedAt := Some(s.clock))]));
  }

  lemma InvalidateOne(codes: map<CodeId, Code>, c: CodeId, at: Time)
    requires c in codes
    ensures InvalidateAll(codes, {c}, at) == codes[c := codes[c].(invalidatedAt := Some(at))]
  {
  }

  /** And an active account gets a new code, which takes the place of the one it had. */
  lemma LoneCreateDraws(s: State, t: TxnId, u: UserId, drawn: CodeId) returns (states: seq<State>)
    requires s.txns == map[] && IsActive(s, u) && drawn !in s.used && drawn !in s.codes
    ensures Path(states) && states[0] == s
    ensures var s' := states[|states| - 1];
            && s' == s.(codes := s'.codes, used := s.used + {drawn})
            && s'.codes.Keys == s.codes.Keys + {drawn}
            && s'.codes[drawn] == Code(u, s.clock + 600, None, None)
            && forall c :: c in s.codes ==>
                 s'.codes[c] == if s.codes[c].owner == u && s.codes[c].Unused()
                                then s.codes[c].(invalidatedAt := Some(s.clock)) else s.codes[c]
  {
    var swept := UnusedOf(s, u);
    states := PathStep([s], LockCreate(t, u, s.clock), Put(s, t, CreateLocked(u, s.clock)));
    states := PathStep(states, SweepCreate(t), Put(s, t, CreateSwept(u, s.clock, swept)));
    states := PathStep(states, InsertCode(t, drawn),
                       Put(s, t, CreateInserted(u, s.clock, swept, drawn)).(used := s.used + {drawn}));
    states := PathStep(states, CommitCreate(t),
                       s.(codes := InvalidateAll(s.codes, swept, s.clock)[drawn := Code(u, s.clock + 600, None, None)],
                          used := s.used + {drawn}));
  }

  /** A lone deactivation goes through and invalidates the account's unused codes. */
  lemma LoneDeactivateSweeps(s: State, t: TxnId, u: UserId) returns (states: seq<State>)
    requires s.txns == map[] && u in s.active
    ensures Path(states) && states[0] == s
    ensures var s' := states[|states| - 1];
            && s' == s.(active := s.active[u := false], codes := s'.codes) && s'.codes.Keys == s.codes.Keys
            && forall c :: c in s.codes ==>
                 s'.codes[c] == if s.codes[c].owner == u && s.codes[c].Unused()
                                then s.codes[c].(invalidatedAt := Some(s.clock)) else s.codes[c]
  {
    var swept := UnusedOf(s, u);
    states := PathStep([s], WriteDeactivate(t, u, s.clock), Put(s, t, DeactivateWritten(u, s.clock)));
    states := PathStep(states, SweepDeactivate(t), Put(s, t, DeactivateSwept(u, s.clock, swept)));
    states := PathStep(states, CommitDeactivate(t),
                       s.(active := s.active[u := false], codes := InvalidateAll(s.codes, swept, s.clock)));
  }
}
