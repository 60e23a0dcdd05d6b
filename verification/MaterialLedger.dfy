// What an accepted request does to the inventory view, and the ledger as stored tables.
module MaterialLedger {
  import opened Options
  import opened MaterialKeys
  import opened MaterialReplay
  import opened MaterialLaws
  import opened MaterialExact
  import opened MaterialHandlers
  import opened MaterialAnswers

  ghost predicate Good(cs: seq<Contribution>, ws: seq<Withdrawal>) {
    Unambiguous(cs) && Exact(ws) && NoOverdraft(cs, ws)
  }

  lemma GoodView(cs: seq<Contribution>, ws: seq<Withdrawal>, k: Slot)
    requires Good(cs, ws)
    ensures View(cs, ws, k) == In(cs, k) - Out(ws, k)
  {
    ViewIsBalance(cs, ws, k);
    assert Out(ws, k) <= In(cs, k);
  }

  lemma {:induction false} InNonNegative(cs: seq<Contribution>, k: Slot)
    ensures In(cs, k) >= 0.0
  {
    if |cs| > 0 {
      InNonNegative(cs[..|cs| - 1], k);
    }
  }

  // An accepted request on a good ledger, whose writes bring no new clash of joined keys.
  ghost predicate Applies(cs: seq<Contribution>, ws: seq<Withdrawal>, user: UserId, op: Op) {
    && Good(cs, ws)
    && Decide(NetRows(cs, ws), user, op).Accepted?
    && Unambiguous(cs + Decide(NetRows(cs, ws), user, op).writes.cs)
  }

  // Withdrawals write no contribution, and moves of plain names bring no clash.
  lemma AcceptedApplies(cs: seq<Contribution>, ws: seq<Withdrawal>, user: UserId, op: Op)
    requires Good(cs, ws) && Decide(NetRows(cs, ws), user, op).Accepted?
    requires op.Withdraw? || PlainNames(cs)
    ensures Applies(cs, ws, user, op)
  {
    var writes := Decide(NetRows(cs, ws), user, op).writes;
    if op.Withdraw? {
      assert cs + writes.cs == cs;
    } else {
      DecisionPlain(cs, ws, user, op);
      PlainNamesUnambiguous(cs + writes.cs);
    }
  }

  /** Appending the writes of an accepted decision keeps the ledger free of overdrafts and moves
      the view of every slot by exactly what was written for that slot. */
  lemma AcceptedEffect(cs: seq<Contribution>, ws: seq<Withdrawal>, user: UserId, op: Op)
    requires Applies(cs, ws, user, op)
    ensures var writes := Decide(NetRows(cs, ws), user, op).writes;
            && Good(cs + writes.cs, ws + writes.ws)
            && forall k: Slot :: View(cs + writes.cs, ws + writes.ws, k)
                              == View(cs, ws, k) - Out(writes.ws, k) + In(writes.cs, k)
  {
    var rows := NetRows(cs, ws);
    var writes := Decide(rows, user, op).writes;
    NetRowsGood(cs, ws);
    DecisionCovered(rows, user, op);
    forall k: Slot
      ensures Out(ws + writes.ws, k) == Out(ws, k) + Out(writes.ws, k)
      ensures In(cs + writes.cs, k) == In(cs, k) + In(writes.cs, k)
      ensures Out(ws + writes.ws, k) <= In(cs + writes.cs, k)
    {
      WithdrawnConcat(ws, writes.ws, Hits(k));
      ContributedConcat(cs, writes.cs, Is(k));
      GoodView(cs, ws, k);
      InNonNegative(writes.cs, k);
    }
    forall k: Slot
      ensures View(cs + writes.cs, ws + writes.ws, k)
           == View(cs, ws, k) - Out(writes.ws, k) + In(writes.cs, k)
    {
      GoodView(cs, ws, k);
      GoodView(cs + writes.cs, ws + writes.ws, k);
    }
  }

  function Source(op: Op): Slot
    requires !op.MoveAll?
  {
    Slot(op.owner, Lower(op.material), op.band, op.quality, op.source)
  }

  function At(k: Slot, source: Slot, quantity: real): real {
    if k == source then quantity else 0.0
  }

  // A withdrawal lowers its source slot; a move also raises the destination slot.
  function Shift(op: Op, k: Slot): real
    requires !op.MoveAll?
  {
    (if op.Move? then At(k, Source(op).(location := op.destination), op.quantity) else 0.0)
    - At(k, Source(op), op.quantity)
  }

  lemma SingleWrites(rows: seq<Row>, user: UserId, op: Op, k: Slot)
    requires !op.MoveAll? && Decide(rows, user, op).Accepted?
    ensures In(Decide(rows, user, op).writes.cs, k) - Out(Decide(rows, user, op).writes.ws, k) == Shift(op, k)
  {
    var writes := Decide(rows, user, op).writes;
    OneOut(writes.ws[0], k);
    match op
    case Withdraw(_, _, _, _, _, _) => assert writes.cs == [];
    case Move(_, _, _, _, _, _, _) => OneIn(writes.cs[0], k);
  }

  /** An accepted withdrawal or move changes its source and destination slots by the amount
      asked for, and no other slot of anyone. */
  lemma SingleEffect(cs: seq<Contribution>, ws: seq<Withdrawal>, user: UserId, op: Op, k: Slot)
    requires Applies(cs, ws, user, op) && !op.MoveAll?
    ensures var writes := Decide(NetRows(cs, ws), user, op).writes;
            View(cs + writes.cs, ws + writes.ws, k) == View(cs, ws, k) + Shift(op, k)
  {
    AcceptedEffect(cs, ws, user, op);
    SingleWrites(NetRows(cs, ws), user, op, k);
  }

  /** After move-all, the destination holds everything of each quality and nothing is left elsewhere. */
  lemma MoveAllEffect(cs: seq<Contribution>, ws: seq<Withdrawal>, user: UserId, op: Op, k: Slot)
    requires Applies(cs, ws, user, op) && op.MoveAll?
    ensures var writes := Decide(NetRows(cs, ws), user, op).writes;
            View(cs + writes.cs, ws + writes.ws, k)
            == AfterMoveAll(user, op.destination, k, View(cs, ws, k), Stock(NetRows(cs, ws), Holding(k)))
  {
    var rows := NetRows(cs, ws);
    AcceptedEffect(cs, ws, user, op);
    MoveAllOut(rows, user, op.destination, |rows|, k);
    MoveAllIn(rows, user, op.destination, |rows|, k);
  }

  // ---- What a user holds over all locations ----

  lemma HoldingBalance(cs: seq<Contribution>, ws: seq<Withdrawal>, k: Slot)
    requires Good(cs, ws)
    ensures Stock(NetRows(cs, ws), Holding(k))
         == Contributed(cs, Holding(k)) - Withdrawn(ws, FromHolding(k))
  {
    NoOverdraftAbsorbs(cs, ws);
    forall w, s | w in ws && MatchesSlot(s, w)
      ensures Holding(k)(s) == FromHolding(k)(w)
    {
      MatchesTarget(s, w);
    }
    Conservation(cs, ws, Holding(k), FromHolding(k));
  }

  lemma SameHolding(row: Row, destination: string, k: Slot)
    requires row.Available() > 0.0
    ensures Holding(k)(Refill(row, destination).At()) == FromHolding(k)(Drain(row))
    ensures Refill(row, destination).quantity == Drain(row).quantity
  {
    DrainTarget(row);
  }

  lemma {:induction false} MoveAllBalanced(rows: seq<Row>, user: UserId, destination: string, n: nat, k: Slot)
    requires n <= |rows|
    ensures var writes := MoveAllFirst(rows, user, destination, n);
            Contributed(writes.cs, Holding(k)) == Withdrawn(writes.ws, FromHolding(k))
  {
    if n > 0 {
      MoveAllBalanced(rows, user, destination, n - 1, k);
      var row := rows[n - 1];
      if Moves(row, user) {
        var done := MoveAllFirst(rows, user, destination, n - 1);
        SameHolding(row, destination, k);
        InPlus(done.cs, Refill(row, destination), Holding(k));
        OutPlus(done.ws, Drain(row), FromHolding(k));
      }
    }
  }

  lemma MoveBalanced(w: Withdrawal, c: Contribution, k: Slot)
    requires Target(w).Some? && c.At() == Target(w).value.(location := c.location)
    requires w.quantity == c.quantity
    ensures Contributed([c], Holding(k)) == Withdrawn([w], FromHolding(k))
  {
    var cs, ws := [c], [w];
    assert cs[..|cs| - 1] == [] && ws[..|ws| - 1] == [];
    assert Contributed(cs[..|cs| - 1], Holding(k)) == 0.0;
    assert Withdrawn(ws[..|ws| - 1], FromHolding(k)) == 0.0;
  }

  /** Moving keeps each user's total of each material, band and quality. */
  lemma MovesKeepHoldings(cs: seq<Contribution>, ws: seq<Withdrawal>, user: UserId, op: Op, k: Slot)
    requires Applies(cs, ws, user, op) && !op.Withdraw?
    ensures var writes := Decide(NetRows(cs, ws), user, op).writes;
            Stock(NetRows(cs + writes.cs, ws + writes.ws), Holding(k)) == Stock(NetRows(cs, ws), Holding(k))
  {
    var rows := NetRows(cs, ws);
    var writes := Decide(rows, user, op).writes;
    AcceptedEffect(cs, ws, user, op);
    HoldingBalance(cs, ws, k);
    HoldingBalance(cs + writes.cs, ws + writes.ws, k);
    ContributedConcat(cs, writes.cs, Holding(k));
    WithdrawnConcat(ws, writes.ws, FromHolding(k));
    if op.Move? {
      MoveBalanced(writes.ws[0], writes.cs[0], k);
    } else {
      MoveAllBalanced(rows, user, op.destination, |rows|, k);
    }
  }

  ghost predicate KnownSlot(cs: seq<Contribution>, s: Slot) {
    exists c :: c in cs && c.At() == s
  }

  // Contributions to known slots bring no new clash.
  lemma KnownSlotsUnambiguous(cs: seq<Contribution>, ds: seq<Contribution>)
    requires Unambiguous(cs) && forall d :: d in ds ==> KnownSlot(cs, d.At())
    ensures Unambiguous(cs + ds)
  {
    forall c | c in cs + ds ensures KnownSlot(cs, c.At()) {
    }
    forall c, d | c in cs + ds && d in cs + ds && KeyOf(c.At()) == KeyOf(d.At())
      ensures c.At() == d.At()
    {
      assert KnownSlot(cs, c.At()) && KnownSlot(cs, d.At());
    }
  }

  lemma {:induction false} RefillsKnown(cs: seq<Contribution>, rows: seq<Row>, user: UserId, destination: string,
                                        n: nat)
    requires n <= |rows|
    requires forall i :: 0 <= i < |rows| ==> KnownSlot(cs, rows[i].At())
    requires forall i :: 0 <= i < |rows| && Moves(rows[i], user) ==> rows[i].first.location == destination
    ensures forall d :: d in MoveAllFirst(rows, user, destination, n).cs ==> KnownSlot(cs, d.At())
  {
    if n > 0 {
      RefillsKnown(cs, rows, user, destination, n - 1);
      var row := rows[n - 1];
      if Moves(row, user) {
        RefillTarget(row, destination, row.At());
      }
    }
  }

  lemma RowsKnown(cs: seq<Contribution>, ws: seq<Withdrawal>)
    ensures forall i :: 0 <= i < |NetRows(cs, ws)| ==> KnownSlot(cs, NetRows(cs, ws)[i].At())
  {
    GroupSound(cs);
    GroupRowsOf(cs);
    ReplayFrame(Group(cs), ws);
    forall i | 0 <= i < |NetRows(cs, ws)| ensures KnownSlot(cs, NetRows(cs, ws)[i].At()) {
      assert RowOf(Group(cs)[i], cs);
      assert NetRows(cs, ws)[i].(withdrawn := Group(cs)[i].withdrawn) == Group(cs)[i];
    }
  }

  // Once everything is at the destination, a move-all writes to known slots only.
  lemma SettledMoveAllApplies(cs: seq<Contribution>, ws: seq<Withdrawal>, user: UserId, op: Op)
    requires Good(cs, ws) && op.MoveAll? && op.destination != ""
    requires forall k: Slot :: k.user == user && k.location != op.destination ==> View(cs, ws, k) == 0.0
    ensures Applies(cs, ws, user, op)
  {
    var rows := NetRows(cs, ws);
    NetRowsGood(cs, ws);
    RowsKnown(cs, ws);
    forall i | 0 <= i < |rows| && Moves(rows[i], user) ensures rows[i].first.location == op.destination {
      StockOfRow(rows, i);
      assert View(cs, ws, rows[i].At()) > 0.0;
    }
    RefillsKnown(cs, rows, user, op.destination, |rows|);
    KnownSlotsUnambiguous(cs, Decide(rows, user, op).writes.cs);
  }

  lemma MovedElsewhereEmpty(cs: seq<Contribution>, ws: seq<Withdrawal>, user: UserId, op: Op)
    requires Applies(cs, ws, user, op) && op.MoveAll?
    ensures var once := Decide(NetRows(cs, ws), user, op).writes;
            forall k: Slot :: k.user == user && k.location != op.destination ==>
              View(cs + once.cs, ws + once.ws, k) == 0.0
  {
    var once := Decide(NetRows(cs, ws), user, op).writes;
    forall k: Slot | k.user == user && k.location != op.destination
      ensures View(cs + once.cs, ws + once.ws, k) == 0.0
    {
      MoveAllEffect(cs, ws, user, op, k);
    }
  }

  /** A second move-all to the same place shows the same inventory. */
  lemma MoveAllTwice(cs: seq<Contribution>, ws: seq<Withdrawal>, user: UserId, op: Op, k: Slot)
    requires Applies(cs, ws, user, op) && op.MoveAll?
    ensures var once := Decide(NetRows(cs, ws), user, op).writes;
            var cs', ws' := cs + once.cs, ws + once.ws;
            var twice := Decide(NetRows(cs', ws'), user, op).writes;
            View(cs' + twice.cs, ws' + twice.ws, k) == View(cs', ws', k)
  {
    var once := Decide(NetRows(cs, ws), user, op).writes;
    AcceptedEffect(cs, ws, user, op);
    MovedElsewhereEmpty(cs, ws, user, op);
    SettledMoveAllApplies(cs + once.cs, ws + once.ws, user, op);
    MoveAllEffect(cs, ws, user, op, k);
    MoveAllEffect(cs + once.cs, ws + once.ws, user, op, k);
    MovesKeepHoldings(cs, ws, user, op, k);
  }

  // ---- When withdrawals can overdraw ----

  // What the request withdraws, on top of what was withdrawn, is covered by contributions.
  ghost predicate KeepsBalance(cs: seq<Contribution>, ws: seq<Withdrawal>, user: UserId, op: Op) {
    Decide(NetRows(cs, ws), user, op).Accepted? ==>
      NoOverdraft(cs, ws + Decide(NetRows(cs, ws), user, op).writes.ws)
  }

  lemma UnambiguousKeepsBalance(cs: seq<Contribution>, ws: seq<Withdrawal>, user: UserId, op: Op)
    requires Good(cs, ws)
    ensures KeepsBalance(cs, ws, user, op)
  {
    var rows := NetRows(cs, ws);
    if Decide(rows, user, op).Accepted? {
      var writes := Decide(rows, user, op).writes;
      NetRowsGood(cs, ws);
      DecisionCovered(rows, user, op);
      forall k: Slot
        ensures Out(ws + writes.ws, k) <= In(cs, k)
      {
        WithdrawnConcat(ws, writes.ws, Hits(k));
        GoodView(cs, ws, k);
        assert Out(ws, k) <= In(cs, k);
      }
    }
  }

  function DrainRequest(row: Row): Op {
    Withdraw(row.first.user, row.first.material, row.first.band, row.first.quality, row.first.location,
             row.quantity)
  }

  lemma DrainAccepted(cs: seq<Contribution>, i: nat)
    requires i < |Group(cs)| && Group(cs)[i].first.material != ""
    requires Group(cs)[i].quantity > 0.0
    ensures var outcome := Decide(NetRows(cs, []), Group(cs)[i].first.user, DrainRequest(Group(cs)[i]));
            && outcome.Accepted?
            && Out(outcome.writes.ws, Group(cs)[i].At()) == Group(cs)[i].quantity
  {
    var rows := Group(cs);
    GroupRowsOf(cs);
    assert RowOf(rows[i], cs);
    GroupDistinctSlots(cs);
    assert FindSlot(rows, rows[i].At()) == i;
    var outcome := Decide(rows, rows[i].first.user, DrainRequest(rows[i]));
    OneOut(outcome.writes.ws[0], rows[i].At());
  }

  lemma MergedRowOverdraws(cs: seq<Contribution>, i: nat)
    requires i < |Group(cs)| && Group(cs)[i].first.material != ""
    requires Group(cs)[i].quantity != In(cs, Group(cs)[i].At())
    ensures !KeepsBalance(cs, [], Group(cs)[i].first.user, DrainRequest(Group(cs)[i]))
  {
    var row := Group(cs)[i];
    KeyedRow(cs, i);
    GroupRowsOf(cs);
    assert RowOf(row, cs);
    WiderCount(cs, Is(row.At()), HasKey(row.key));
    InNonNegative(cs, row.At());
    DrainAccepted(cs, i);
    var ws := Decide(NetRows(cs, []), row.first.user, DrainRequest(row)).writes.ws;
    assert [] + ws == ws;
  }

  // On every ledger without overdrafts, every request keeps it so.
  ghost predicate StockCheckSound(cs: seq<Contribution>) {
    forall ws, user: UserId, op :: Exact(ws) && NoOverdraft(cs, ws) ==> KeepsBalance(cs, ws, user, op)
  }

  lemma NothingWithdrawn(cs: seq<Contribution>)
    ensures Exact([]) && NoOverdraft(cs, [])
  {
    forall k: Slot ensures Out([], k) <= In(cs, k) {
      InNonNegative(cs, k);
    }
  }

  /** The stock check of withdrawals and moves protects every slot, whatever was withdrawn before,
      if and only if joined keys stand for their fields. */
  lemma StockCheckSoundIffUnambiguous(cs: seq<Contribution>)
    requires forall c :: c in cs ==> c.material != ""
    ensures StockCheckSound(cs) <==> Unambiguous(cs)
  {
    if Unambiguous(cs) {
      forall ws, user: UserId, op | Exact(ws) && NoOverdraft(cs, ws)
        ensures KeepsBalance(cs, ws, user, op)
      {
        UnambiguousKeepsBalance(cs, ws, user, op);
      }
    } else {
      RowsFaithfulIffUnambiguous(cs);
      var i :| 0 <= i < |Group(cs)| && Group(cs)[i].quantity != In(cs, Group(cs)[i].At());
      GroupRowsOf(cs);
      assert RowOf(Group(cs)[i], cs);
      MergedRowOverdraws(cs, i);
      NothingWithdrawn(cs);
    }
  }

  // ---- The two tables of one group ----

  method MoveAllWrites(rows: seq<Row>, user: UserId, destination: string) returns (writes: Writes)
    ensures writes == MoveAllFirst(rows, user, destination, |rows|) && |writes.ws| == |writes.cs|
  {
    writes := Writes([], []);
    for n := 0 to |rows|
      invariant writes == MoveAllFirst(rows, user, destination, n) && |writes.ws| == |writes.cs|
    {
      var row := rows[n];
      if row.first.user == user && row.Available() > 0.0 {
        writes := Writes(writes.ws + [Drain(row)], writes.cs + [Refill(row, destination)]);
      }
    }
  }

  class Ledger {
    var contributions: seq<Contribution>
    var withdrawals: seq<Withdrawal>

    ghost predicate Valid()
      reads this
    {
      Good(contributions, withdrawals)
    }

    ghost function Available(k: Slot): real
      reads this
    {
      View(contributions, withdrawals, k)
    }

    constructor ()
      ensures Valid() && contributions == [] && withdrawals == []
    {
      contributions, withdrawals := [], [];
    }

    method Contribute(c: Contribution)
      modifies this
      ensures contributions == old(contributions) + [c] && withdrawals == old(withdrawals)
      ensures old(Valid()) && Unambiguous(contributions) ==>
                Valid() && forall k :: Available(k) == old(Available(k)) + At(k, c.At(), c.quantity)
    {
      ghost var cs, ws := contributions, withdrawals;
      contributions := contributions + [c];
      if Good(cs, ws) && Unambiguous(contributions) {
        ContributeEffect(cs, ws, c);
      }
    }

    method WithdrawOrMove(user: UserId, op: Op) returns (outcome: Outcome)
      requires !op.MoveAll?
      modifies this
      ensures outcome == Decide(NetRows(old(contributions), old(withdrawals)), user, op)
      ensures Answers(NetRows(old(contributions), old(withdrawals)), user, op, outcome)
      ensures !outcome.Accepted? ==> unchanged(this)
      ensures outcome.Accepted? ==> contributions == old(contributions) + outcome.writes.cs
      ensures outcome.Accepted? ==> withdrawals == old(withdrawals) + outcome.writes.ws
      ensures old(Valid()) ==> (outcome.Accepted? <==> MayTake(user, op, old(Available(Source(op)))))
      ensures old(Valid()) && Unambiguous(contributions) ==> Valid()
      ensures old(Valid()) && Unambiguous(contributions) && outcome.Accepted? ==>
                forall k :: Available(k) == old(Available(k)) + Shift(op, k)
    {
      ghost var cs, ws := contributions, withdrawals;
      var rows := MaterialInventoryNetRows(contributions, withdrawals);
      outcome := Decide(rows, user, op);
      DecisionMeaning(rows, user, op);
      if outcome.Accepted? {
        contributions := contributions + outcome.writes.cs;
        withdrawals := withdrawals + outcome.writes.ws;
      }
      if Good(cs, ws) {
        AcceptanceIff(cs, ws, user, op);
        if outcome.Accepted? && Unambiguous(contributions) {
          SingleOutcome(cs, ws, user, op);
        }
      }
    }

    ghost function Held(k: Slot): real
      reads this
    {
      Stock(NetRows(contributions, withdrawals), Holding(k))
    }

    // None: refused for want of a destination.
    method MoveEverything(user: UserId, destination: string) returns (moved: Option<nat>)
      modifies this
      ensures moved.Some? <==> destination != ""
      ensures moved.None? ==> unchanged(this)
      ensures moved.Some? ==>
                var rows := NetRows(old(contributions), old(withdrawals));
                var writes := MoveAllFirst(rows, user, destination, |rows|);
                && moved.value == |writes.ws| == |writes.cs|
                && contributions == old(contributions) + writes.cs && withdrawals == old(withdrawals) + writes.ws
                && exists picks :: CarriesFirst(rows, user, destination, writes, picks, |rows|)
      ensures old(Valid()) && Unambiguous(contributions) ==> Valid()
      ensures old(Valid()) && Unambiguous(contributions) && moved.Some? ==>
                && (forall k :: Available(k) == AfterMoveAll(user, destination, k, old(Available(k)), old(Held(k))))
                && (forall k :: Held(k) == old(Held(k)))
    {
      ghost var cs, ws := contributions, withdrawals;
      if destination == "" {
        return None;
      }
      var rows := MaterialInventoryNetRows(contributions, withdrawals);
      var writes := MoveAllWrites(rows, user, destination);
      ghost var picks := MoveAllMeaning(rows, user, destination, |rows|);
      contributions := contributions + writes.cs;
      withdrawals := withdrawals + writes.ws;
      if Good(cs, ws) && Unambiguous(contributions) {
        MoveAllOutcome(cs, ws, user, destination, writes);
      }
      return Some(|writes.ws|);
    }
  }

  lemma SingleOutcome(cs: seq<Contribution>, ws: seq<Withdrawal>, user: UserId, op: Op)
    requires Applies(cs, ws, user, op) && !op.MoveAll?
    ensures var writes := Decide(NetRows(cs, ws), user, op).writes;
            && Good(cs + writes.cs, ws + writes.ws)
            && forall k :: View(cs + writes.cs, ws + writes.ws, k) == View(cs, ws, k) + Shift(op, k)
  {
    var writes := Decide(NetRows(cs, ws), user, op).writes;
    AcceptedEffect(cs, ws, user, op);
    forall k: Slot
      ensures View(cs + writes.cs, ws + writes.ws, k) == View(cs, ws, k) + Shift(op, k)
    {
      SingleEffect(cs, ws, user, op, k);
    }
  }

  function AfterMoveAll(user: UserId, destination: string, k: Slot, available: real, held: real): real {
    if k.user != user then available else if k.location == destination then held else 0.0
  }

  lemma MoveAllOutcome(cs: seq<Contribution>, ws: seq<Withdrawal>, user: UserId, destination: string,
                       writes: Writes)
    requires Good(cs, ws) && destination != ""
    requires writes == MoveAllFirst(NetRows(cs, ws), user, destination, |NetRows(cs, ws)|)
    requires Unambiguous(cs + writes.cs)
    ensures Good(cs + writes.cs, ws + writes.ws)
    ensures forall k :: View(cs + writes.cs, ws + writes.ws, k)
              == AfterMoveAll(user, destination, k, View(cs, ws, k), Stock(NetRows(cs, ws), Holding(k)))
    ensures forall k :: Stock(NetRows(cs + writes.cs, ws + writes.ws), Holding(k))
              == Stock(NetRows(cs, ws), Holding(k))
  {
    var op := MoveAll(destination);
    AcceptedEffect(cs, ws, user, op);
    forall k
      ensures View(cs + writes.cs, ws + writes.ws, k)
           == AfterMoveAll(user, destination, k, View(cs, ws, k), Stock(NetRows(cs, ws), Holding(k)))
    {
      MoveAllEffect(cs, ws, user, op, k);
    }
    forall k
      ensures Stock(NetRows(cs + writes.cs, ws + writes.ws), Holding(k))
           == Stock(NetRows(cs, ws), Holding(k))
    {
      MovesKeepHoldings(cs, ws, user, op, k);
    }
  }

  predicate MayTake(user: UserId, op: Op, available: real)
    requires !op.MoveAll?
  {
    && op.owner == user
    && op.material != ""
    && 0.0 < op.quantity <= available
    && (op.Move? ==> op.destination != "" && op.destination != op.source)
  }

  lemma ContributeEffect(cs: seq<Contribution>, ws: seq<Withdrawal>, c: Contribution)
    requires Good(cs, ws) && Unambiguous(cs + [c])
    ensures Good(cs + [c], ws)
    ensures forall k :: View(cs + [c], ws, k) == View(cs, ws, k) + At(k, c.At(), c.quantity)
  {
    forall k: Slot
      ensures In(cs + [c], k) == In(cs, k) + At(k, c.At(), c.quantity)
      ensures Out(ws, k) <= In(cs + [c], k)
    {
      ContributedConcat(cs, [c], Is(k));
      OneIn(c, k);
      assert Out(ws, k) <= In(cs, k);
    }
    forall k: Slot
      ensures View(cs + [c], ws, k) == View(cs, ws, k) + At(k, c.At(), c.quantity)
    {
      GoodView(cs, ws, k);
      GoodView(cs + [c], ws, k);
    }
  }

  /** A request is accepted exactly when it is well formed, made by the owner and within the view. */
  lemma AcceptanceIff(cs: seq<Contribution>, ws: seq<Withdrawal>, user: UserId, op: Op)
    requires Good(cs, ws) && !op.MoveAll?
    ensures Decide(NetRows(cs, ws), user, op).Accepted? <==> MayTake(user, op, View(cs, ws, Source(op)))
  {
    NetRowsGood(cs, ws);
    if op.quantity > 0.0 {
      InStockIff(NetRows(cs, ws), Source(op), op.quantity);
    }
  }
}
