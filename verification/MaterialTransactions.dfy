// Withdrawals and moves as concurrent transactions. A transaction holds the advisory lock of
// its user from its first step to its last, reads the committed contributions and then the
// committed withdrawals in two statements, appends, and commits. Contributions commit at any
// time without the lock. Committed rows may take any place in the created_at order.
module MaterialTransactions {
  import opened Options
  import opened MaterialKeys
  import opened MaterialReplay
  import opened MaterialLaws
  import opened MaterialExact
  import opened MaterialHandlers
  import opened MaterialLedger

  datatype Txn =
    | Locked(user: UserId)
    | HalfRead(user: UserId, cs: seq<Contribution>)
    | FullyRead(user: UserId, cs: seq<Contribution>, ws: seq<Withdrawal>)
    | Written(user: UserId, writes: Writes)

  type TxnId = nat

  datatype State = State(cs: seq<Contribution>, ws: seq<Withdrawal>, txns: map<TxnId, Txn>)

  datatype Step =
    | Lock(t: TxnId, user: UserId)
    | ReadContributions(t: TxnId)
    | ReadWithdrawals(t: TxnId)
    | Write(t: TxnId, op: Op)
    | Abort(t: TxnId)
    | Commit(t: TxnId)
    | Contribute(c: Contribution)

  ghost predicate LockFree(s: State, user: UserId) {
    forall t :: t in s.txns ==> s.txns[t].user != user
  }

  ghost predicate Next(s: State, step: Step, s': State) {
    match step
    case Lock(t, user) =>
      t !in s.txns && LockFree(s, user) && s' == s.(txns := s.txns[t := Locked(user)])
    case ReadContributions(t) =>
      t in s.txns && s.txns[t].Locked? && s' == s.(txns := s.txns[t := HalfRead(s.txns[t].user, s.cs)])
    case ReadWithdrawals(t) =>
      && t in s.txns && s.txns[t].HalfRead?
      && s' == s.(txns := s.txns[t := FullyRead(s.txns[t].user, s.txns[t].cs, s.ws)])
    case Write(t, op) =>
      && t in s.txns && s.txns[t].FullyRead?
      && (var outcome := Decide(NetRows(s.txns[t].cs, s.txns[t].ws), s.txns[t].user, op);
          outcome.Accepted? && s' == s.(txns := s.txns[t := Written(s.txns[t].user, outcome.writes)]))
    case Abort(t) =>
      t in s.txns && s' == s.(txns := s.txns - {t})
    case Commit(t) =>
      && t in s.txns && s.txns[t].Written?
      && s'.txns == s.txns - {t}
      && multiset(s'.cs) == multiset(s.cs + s.txns[t].writes.cs)
      && multiset(s'.ws) == multiset(s.ws + s.txns[t].writes.ws)
    case Contribute(c) =>
      && s'.txns == s.txns && s'.ws == s.ws
      && multiset(s'.cs) == multiset(s.cs + [c])
  }

  // ---- Sums do not depend on the order of the rows ----

  lemma SplitAt<T>(a: seq<T>, j: nat)
    requires j < |a|
    ensures a == a[..j] + ([a[j]] + a[j + 1..])
  {
  }

  lemma RemoveOne<T>(a: seq<T>, j: nat)
    requires j < |a|
    ensures multiset(a) == multiset(a[..j] + a[j + 1..]) + multiset{a[j]}
  {
    SplitAt(a, j);
  }

  lemma CancelOne<T>(a: multiset<T>, b: multiset<T>, x: T)
    requires a + multiset{x} == b + multiset{x}
    ensures a == b
  {
    assert a == a + multiset{x} - multiset{x};
    assert b == b + multiset{x} - multiset{x};
  }

  lemma SamePlace<T>(a: seq<T>, b: seq<T>) returns (j: nat)
    requires |a| > 0 && multiset(a) == multiset(b)
    ensures j < |b| && b[j] == a[|a| - 1]
    ensures multiset(a[..|a| - 1]) == multiset(b[..j] + b[j + 1..])
  {
    var x, front := a[|a| - 1], a[..|a| - 1];
    assert a == front + [x];
    assert x in multiset(a);
    assert x in multiset(b);
    j :| 0 <= j < |b| && b[j] == x;
    RemoveOne(b, j);
    CancelOne(multiset(front), multiset(b[..j] + b[j + 1..]), x);
  }

  lemma ContributedMiddle(l: seq<Contribution>, x: seq<Contribution>, r: seq<Contribution>, p: Slot -> bool)
    ensures Contributed(l + (x + r), p) == Contributed(l + r, p) + Contributed(x, p)
  {
    ContributedConcat(l, x + r, p);
    ContributedConcat(x, r, p);
    ContributedConcat(l, r, p);
  }

  lemma {:induction false} ContributedPermutation(a: seq<Contribution>, b: seq<Contribution>, p: Slot -> bool)
    requires multiset(a) == multiset(b)
    ensures Contributed(a, p) == Contributed(b, p)
  {
    if |a| == 0 {
      assert |multiset(b)| == 0;
    } else {
      var n := |a| - 1;
      var j := SamePlace(a, b);
      ContributedPermutation(a[..n], b[..j] + b[j + 1..], p);
      SplitAt(b, j);
      ContributedMiddle(b[..j], [b[j]], b[j + 1..], p);
      assert a == a[..n] + [b[j]];
      ContributedConcat(a[..n], [b[j]], p);
    }
  }

  lemma WithdrawnMiddle(l: seq<Withdrawal>, x: seq<Withdrawal>, r: seq<Withdrawal>, p: Withdrawal -> bool)
    ensures Withdrawn(l + (x + r), p) == Withdrawn(l + r, p) + Withdrawn(x, p)
  {
    WithdrawnConcat(l, x + r, p);
    WithdrawnConcat(x, r, p);
    WithdrawnConcat(l, r, p);
  }

  lemma {:induction false} WithdrawnPermutation(a: seq<Withdrawal>, b: seq<Withdrawal>, p: Withdrawal -> bool)
    requires multiset(a) == multiset(b)
    ensures Withdrawn(a, p) == Withdrawn(b, p)
  {
    if |a| == 0 {
      assert |multiset(b)| == 0;
    } else {
      var n := |a| - 1;
      var j := SamePlace(a, b);
      WithdrawnPermutation(a[..n], b[..j] + b[j + 1..], p);
      SplitAt(b, j);
      WithdrawnMiddle(b[..j], [b[j]], b[j + 1..], p);
      assert a == a[..n] + [b[j]];
      WithdrawnConcat(a[..n], [b[j]], p);
    }
  }

  lemma AppendedContributions(a: seq<Contribution>, b: seq<Contribution>, all: seq<Contribution>)
    requires multiset(all) == multiset(a + b)
    ensures forall k :: In(all, k) == In(a, k) + In(b, k)
  {
    forall k: Slot
      ensures In(all, k) == In(a, k) + In(b, k)
    {
      ContributedPermutation(all, a + b, Is(k));
      ContributedConcat(a, b, Is(k));
    }
  }

  lemma SameMembers<T>(a: seq<T>, b: seq<T>, all: seq<T>, x: T)
    requires multiset(all) == multiset(a + b)
    ensures x in all <==> x in a || x in b
  {
    assert x in all <==> x in multiset(all);
    assert x in a + b <==> x in multiset(a + b);
  }

  lemma AppendedWithdrawals(a: seq<Withdrawal>, b: seq<Withdrawal>, all: seq<Withdrawal>)
    requires multiset(all) == multiset(a + b)
    ensures forall k :: Out(all, k) == Out(a, k) + Out(b, k)
    ensures Exact(a) && Exact(b) ==> Exact(all)
  {
    forall k: Slot
      ensures Out(all, k) == Out(a, k) + Out(b, k)
    {
      WithdrawnPermutation(all, a + b, Hits(k));
      WithdrawnConcat(a, b, Hits(k));
    }
    forall w | w in all
      ensures w in a || w in b
    {
      assert w in multiset(all);
      assert w in multiset(a + b);
      assert w in a + b;
    }
  }

  // ---- The invariant ----

  // What a transaction has read may be older than what is committed, but for its own user's
  // slots no withdrawal is missing and no contribution is invented.
  ghost predicate ReadsAreSafe(s: State, user: UserId, cs: seq<Contribution>, ws: seq<Withdrawal>) {
    && Unambiguous(cs) && Exact(ws)
    && forall k: Slot :: k.user == user ==> In(cs, k) <= In(s.cs, k) && Out(ws, k) == Out(s.ws, k)
  }

  ghost predicate WritesAreSafe(s: State, user: UserId, writes: Writes) {
    && Exact(writes.ws)
    && (forall k: Slot :: k.user == user ==> Out(s.ws, k) + Out(writes.ws, k) <= In(s.cs, k))
    && (forall k: Slot :: k.user != user ==> Out(writes.ws, k) == 0.0 && In(writes.cs, k) == 0.0)
  }

  ghost predicate TxnSafe(s: State, txn: Txn) {
    match txn
    case Locked(_) => true
    case HalfRead(user, cs) => ReadsAreSafe(s, user, cs, s.ws)
    case FullyRead(user, cs, ws) => ReadsAreSafe(s, user, cs, ws)
    case Written(user, writes) => WritesAreSafe(s, user, writes)
  }

  ghost predicate OneTxnPerUser(s: State) {
    forall t, u :: t in s.txns && u in s.txns && s.txns[t].user == s.txns[u].user ==> t == u
  }

  ghost predicate Inv(s: State) {
    && Good(s.cs, s.ws)
    && OneTxnPerUser(s)
    && forall t :: t in s.txns ==> TxnSafe(s, s.txns[t])
  }

  // Another transaction may only add contributions to this user's slots.
  lemma TxnSafeFrame(s: State, s': State, txn: Txn)
    requires TxnSafe(s, txn) && Exact(s'.ws)
    requires forall k: Slot :: k.user == txn.user ==> In(s.cs, k) <= In(s'.cs, k) && Out(s.ws, k) == Out(s'.ws, k)
    ensures TxnSafe(s', txn)
  {
  }

  lemma WriteSafe(s: State, t: TxnId, op: Op)
    requires Inv(s) && t in s.txns && s.txns[t].FullyRead?
    requires Decide(NetRows(s.txns[t].cs, s.txns[t].ws), s.txns[t].user, op).Accepted?
    ensures WritesAreSafe(s, s.txns[t].user,
                          Decide(NetRows(s.txns[t].cs, s.txns[t].ws), s.txns[t].user, op).writes)
  {
    var txn := s.txns[t];
    var rows := NetRows(txn.cs, txn.ws);
    var writes := Decide(rows, txn.user, op).writes;
    assert TxnSafe(s, txn);
    NetRowsGood(txn.cs, txn.ws);
    DecisionCovered(rows, txn.user, op);
    forall k: Slot | k.user == txn.user
      ensures Out(s.ws, k) + Out(writes.ws, k) <= In(s.cs, k)
    {
      ViewIsBalance(txn.cs, txn.ws, k);
      assert Out(s.ws, k) <= In(s.cs, k);
      assert Out(writes.ws, k) <= Stock(rows, Is(k));
    }
  }

  lemma CommitGood(s: State, t: TxnId, s': State)
    requires Inv(s) && Next(s, Commit(t), s') && Unambiguous(s'.cs)
    ensures Good(s'.cs, s'.ws)
    ensures forall k :: In(s'.cs, k) == In(s.cs, k) + In(s.txns[t].writes.cs, k)
    ensures forall k :: Out(s'.ws, k) == Out(s.ws, k) + Out(s.txns[t].writes.ws, k)
  {
    var txn := s.txns[t];
    assert TxnSafe(s, txn);
    AppendedContributions(s.cs, txn.writes.cs, s'.cs);
    AppendedWithdrawals(s.ws, txn.writes.ws, s'.ws);
    forall k: Slot
      ensures Out(s'.ws, k) <= In(s'.cs, k)
    {
      InNonNegative(txn.writes.cs, k);
      assert Out(s.ws, k) <= In(s.cs, k);
    }
  }

  lemma CommitKeepsInv(s: State, t: TxnId, s': State)
    requires Inv(s) && Next(s, Commit(t), s') && Unambiguous(s'.cs)
    ensures Inv(s')
  {
    CommitGood(s, t, s');
    assert TxnSafe(s, s.txns[t]);
    forall u | u in s'.txns
      ensures TxnSafe(s', s'.txns[u])
    {
      assert s.txns[u].user != s.txns[t].user;
      TxnSafeFrame(s, s', s.txns[u]);
    }
  }

  lemma ContributeKeepsInv(s: State, c: Contribution, s': State)
    requires Inv(s) && Next(s, Contribute(c), s') && Unambiguous(s'.cs)
    ensures Inv(s')
  {
    AppendedContributions(s.cs, [c], s'.cs);
    forall k: Slot
      ensures In(s.cs, k) <= In(s'.cs, k)
      ensures Out(s'.ws, k) <= In(s'.cs, k)
    {
      InNonNegative([c], k);
      assert Out(s.ws, k) <= In(s.cs, k);
    }
    forall u | u in s'.txns
      ensures TxnSafe(s', s'.txns[u])
    {
      TxnSafeFrame(s, s', s.txns[u]);
    }
  }

  lemma LocalKeepsInv(s: State, t: TxnId, txn: Txn)
    requires Inv(s) && t in s.txns && txn.user == s.txns[t].user && TxnSafe(s, txn)
    ensures Inv(s.(txns := s.txns[t := txn]))
  {
    var s' := s.(txns := s.txns[t := txn]);
    forall u | u in s'.txns
      ensures TxnSafe(s', s'.txns[u])
    {
      assert TxnSafe(s, s'.txns[u]);
      TxnSafeFrame(s, s', s'.txns[u]);
    }
  }

  lemma LockKeepsInv(s: State, t: TxnId, user: UserId)
    requires Inv(s) && t !in s.txns && LockFree(s, user)
    ensures Inv(s.(txns := s.txns[t := Locked(user)]))
  {
    var s' := s.(txns := s.txns[t := Locked(user)]);
    forall u | u in s'.txns
      ensures TxnSafe(s', s'.txns[u])
    {
      assert TxnSafe(s, s'.txns[u]);
      TxnSafeFrame(s, s', s'.txns[u]);
    }
  }

  lemma AbortKeepsInv(s: State, t: TxnId)
    requires Inv(s)
    ensures Inv(s.(txns := s.txns - {t}))
  {
    var s' := s.(txns := s.txns - {t});
    forall u | u in s'.txns
      ensures TxnSafe(s', s'.txns[u])
    {
      TxnSafeFrame(s, s', s.txns[u]);
    }
  }

  lemma StepKeepsInv(s: State, step: Step, s': State)
    requires Inv(s) && Next(s, step, s') && Unambiguous(s'.cs)
    ensures Inv(s')
  {
    match step
    case Lock(t, user) => LockKeepsInv(s, t, user);
    case ReadContributions(t) => LocalKeepsInv(s, t, HalfRead(s.txns[t].user, s.cs));
    case ReadWithdrawals(t) =>
      assert TxnSafe(s, s.txns[t]);
      LocalKeepsInv(s, t, FullyRead(s.txns[t].user, s.txns[t].cs, s.ws));
    case Write(t, op) =>
      WriteSafe(s, t, op);
      LocalKeepsInv(s, t, s'.txns[t]);
    case Abort(t) => AbortKeepsInv(s, t);
    case Commit(t) => CommitKeepsInv(s, t, s');
    case Contribute(c) => ContributeKeepsInv(s, c, s');
  }

  // ---- Runs ----

  // Steps of any transactions from a ledger without overdrafts and without open transactions.
  ghost predicate Run(states: seq<State>, steps: seq<Step>) {
    && |states| == |steps| + 1
    && Good(states[0].cs, states[0].ws) && states[0].txns == map[]
    && forall i :: 0 <= i < |steps| ==> Next(states[i], steps[i], states[i + 1])
  }

  // Contributions are never removed, so a clash of keys stays.
  lemma StepKeepsContributions(s: State, step: Step, s': State, c: Contribution)
    requires Next(s, step, s') && c in s.cs
    ensures c in s'.cs
  {
    if step.Commit? {
      SameMembers(s.cs, s.txns[step.t].writes.cs, s'.cs, c);
    } else if step.Contribute? {
      SameMembers(s.cs, [step.c], s'.cs, c);
    }
  }

  lemma UnambiguousBefore(s: State, step: Step, s': State)
    requires Next(s, step, s') && Unambiguous(s'.cs)
    ensures Unambiguous(s.cs)
  {
    forall c | c in s.cs ensures c in s'.cs {
      StepKeepsContributions(s, step, s', c);
    }
  }

  lemma {:induction false} RunInv(states: seq<State>, steps: seq<Step>, i: nat)
    requires Run(states, steps) && i < |states| && Unambiguous(states[i].cs)
    ensures Inv(states[i])
  {
    if i > 0 {
      UnambiguousBefore(states[i - 1], steps[i - 1], states[i]);
      RunInv(states, steps, i - 1);
      StepKeepsInv(states[i - 1], steps[i - 1], states[i]);
    }
  }

  /** No interleaving overdraws a slot: at every moment the inventory shows what was contributed
      minus what was withdrawn, and that is never negative, as long as joined keys stand for
      their fields. */
  lemma NeverOverdrawn(states: seq<State>, steps: seq<Step>, i: nat, k: Slot)
    requires Run(states, steps) && i < |states| && Unambiguous(states[i].cs)
    ensures View(states[i].cs, states[i].ws, k) == In(states[i].cs, k) - Out(states[i].ws, k) >= 0.0
  {
    RunInv(states, steps, i);
    GoodView(states[i].cs, states[i].ws, k);
    assert Out(states[i].ws, k) <= In(states[i].cs, k);
  }

  /** A commit changes the view by what its transaction wrote, although it was decided on older reads. */
  lemma CommitEffect(states: seq<State>, steps: seq<Step>, i: nat, k: Slot)
    requires Run(states, steps) && i < |steps| && steps[i].Commit? && Unambiguous(states[i + 1].cs)
    ensures Next(states[i], steps[i], states[i + 1])
    ensures var writes := states[i].txns[steps[i].t].writes;
            View(states[i + 1].cs, states[i + 1].ws, k)
            == View(states[i].cs, states[i].ws, k) - Out(writes.ws, k) + In(writes.cs, k)
  {
    UnambiguousBefore(states[i], steps[i], states[i + 1]);
    NeverOverdrawn(states, steps, i, k);
    NeverOverdrawn(states, steps, i + 1, k);
    RunInv(states, steps, i);
    CommitGood(states[i], steps[i].t, states[i + 1]);
  }

  // ---- One request on its own ----

  ghost predicate Follows(states: seq<State>, steps: seq<Step>) {
    && |states| == |steps| + 1
    && forall i :: 0 <= i < |steps| ==> Next(states[i], steps[i], states[i + 1])
  }

  lemma FollowsOn(states: seq<State>, steps: seq<Step>, step: Step, s': State)
    returns (all: seq<State>, done: seq<Step>)
    requires Follows(states, steps) && Next(states[|steps|], step, s')
    ensures all == states + [s'] && done == steps + [step] && Follows(all, done) && all[|done|] == s'
  {
    all, done := states + [s'], steps + [step];
    forall i | 0 <= i < |done| ensures Next(all[i], done[i], all[i + 1]) {
      assert i < |steps| ==> Next(states[i], steps[i], states[i + 1]);
    }
  }

  lemma LoneRequestReads(s: State, t: TxnId, user: UserId) returns (states: seq<State>, steps: seq<Step>)
    requires s.txns == map[]
    ensures Follows(states, steps) && states[0] == s
    ensures states[|steps|] == s.(txns := map[t := FullyRead(user, s.cs, s.ws)])
  {
    states, steps := FollowsOn([s], [], Lock(t, user), s.(txns := map[t := Locked(user)]));
    states, steps := FollowsOn(states, steps, ReadContributions(t), s.(txns := map[t := HalfRead(user, s.cs)]));
    states, steps := FollowsOn(states, steps, ReadWithdrawals(t), s.(txns := map[t := FullyRead(user, s.cs, s.ws)]));
  }

  /** When nobody else is at work, an accepted request goes through and appends what was decided on
      the committed rows. */
  lemma LoneRequestCommits(s: State, t: TxnId, user: UserId, op: Op) returns (states: seq<State>, steps: seq<Step>)
    requires s.txns == map[] && Decide(NetRows(s.cs, s.ws), user, op).Accepted?
    ensures Follows(states, steps) && states[0] == s
    ensures var writes := Decide(NetRows(s.cs, s.ws), user, op).writes;
            states[|steps|] == State(s.cs + writes.cs, s.ws + writes.ws, map[])
  {
    var writes := Decide(NetRows(s.cs, s.ws), user, op).writes;
    states, steps := LoneRequestReads(s, t, user);
    states, steps := FollowsOn(states, steps, Write(t, op), s.(txns := map[t := Written(user, writes)]));
    states, steps := FollowsOn(states, steps, Commit(t), State(s.cs + writes.cs, s.ws + writes.ws, map[]));
  }

  // ---- Names that keep keys apart throughout ----

  ghost predicate TxnPlain(txn: Txn) {
    match txn
    case Locked(_) => true
    case HalfRead(_, cs) => PlainNames(cs)
    case FullyRead(_, cs, _) => PlainNames(cs)
    case Written(_, writes) => PlainNames(writes.cs)
  }

  ghost predicate AllPlain(s: State) {
    PlainNames(s.cs) && forall t :: t in s.txns ==> TxnPlain(s.txns[t])
  }

  lemma PlainAppended(a: seq<Contribution>, b: seq<Contribution>, all: seq<Contribution>)
    requires multiset(all) == multiset(a + b) && PlainNames(a) && PlainNames(b)
    ensures PlainNames(all)
  {
    forall c | c in all ensures Plain(c.material) {
      SameMembers(a, b, all, c);
    }
  }

  lemma WritePlain(txn: Txn, op: Op)
    requires txn.FullyRead? && PlainNames(txn.cs) && Decide(NetRows(txn.cs, txn.ws), txn.user, op).Accepted?
    ensures PlainNames(Decide(NetRows(txn.cs, txn.ws), txn.user, op).writes.cs)
  {
    DecisionPlain(txn.cs, txn.ws, txn.user, op);
    var cs := Decide(NetRows(txn.cs, txn.ws), txn.user, op).writes.cs;
    forall c | c in cs ensures Plain(c.material) {
      assert c in txn.cs + cs;
    }
  }

  lemma StepKeepsPlain(s: State, step: Step, s': State)
    requires AllPlain(s) && Next(s, step, s') && (step.Contribute? ==> Plain(step.c.material))
    ensures AllPlain(s')
  {
    match step
    case Write(t, op) => WritePlain(s.txns[t], op);
    case Commit(t) => PlainAppended(s.cs, s.txns[t].writes.cs, s'.cs);
    case Contribute(c) => PlainAppended(s.cs, [c], s'.cs);
    case _ =>
  }

  /** When every contribution comes with a plain name, keys stand for their fields in every state. */
  lemma {:induction false} PlainRunUnambiguous(states: seq<State>, steps: seq<Step>, i: nat)
    requires Run(states, steps) && i < |states| && PlainNames(states[0].cs)
    requires forall j :: 0 <= j < |steps| && steps[j].Contribute? ==> Plain(steps[j].c.material)
    ensures AllPlain(states[i]) && Unambiguous(states[i].cs)
  {
    if i > 0 {
      PlainRunUnambiguous(states, steps, i - 1);
      StepKeepsPlain(states[i - 1], steps[i - 1], states[i]);
    }
    PlainNamesUnambiguous(states[i].cs);
  }
}
