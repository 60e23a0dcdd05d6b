// Requests on a ledger that still holds old withdrawals, without quality or contributor. Rows may
// be reshuffled there, so what holds is about whole classes of material, band and location.
module MaterialLegacy {
  import opened Options
  import opened MaterialKeys
  import opened MaterialReplay
  import opened MaterialLaws
  import opened MaterialExact
  import opened MaterialOrder
  import opened MaterialHandlers

  // Every withdrawal, old or new, was met in full when its turn came.
  ghost predicate Met(cs: seq<Contribution>, ws: seq<Withdrawal>) {
    Unambiguous(cs) && FullyAbsorbed(Group(cs), ws)
  }

  lemma ReplayAppend(rows: seq<Row>, ws: seq<Withdrawal>, w: Withdrawal)
    ensures Replay(rows, ws + [w]) == Absorb(Replay(rows, ws), w)
    ensures FullyAbsorbed(rows, ws + [w]) <==> FullyAbsorbed(rows, ws) && Unmet(Replay(rows, ws), w) == 0.0
  {
    assert (ws + [w])[..|ws|] == ws;
  }

  lemma {:induction false} ReplayConcat(rows: seq<Row>, ws: seq<Withdrawal>, vs: seq<Withdrawal>)
    ensures Replay(rows, ws + vs) == Replay(Replay(rows, ws), vs)
    ensures FullyAbsorbed(rows, ws + vs) <==> FullyAbsorbed(rows, ws) && FullyAbsorbed(Replay(rows, ws), vs)
  {
    if |vs| == 0 {
      assert ws + vs == ws;
    } else {
      var front, v := vs[..|vs| - 1], vs[|vs| - 1];
      ReplayConcat(rows, ws, front);
      ReplayAppend(rows, ws + front, v);
      assert ws + front + [v] == ws + vs;
    }
  }

  lemma {:induction false} MatchingHolds(rows: seq<Row>, w: Withdrawal, i: nat, n: nat)
    requires i < n <= |rows| && Sound(rows) && MatchesSlot(rows[i].At(), w)
    ensures Matching(rows, w, n) >= rows[i].Available()
  {
    LeftOver(rows, w, n - 1);
    if i < n - 1 {
      MatchingHolds(rows, w, i, n - 1);
    }
  }

  // A withdrawal within one matching row is met.
  lemma WithinRowIsMet(rows: seq<Row>, w: Withdrawal, i: nat)
    requires i < |rows| && Sound(rows) && MatchesSlot(rows[i].At(), w) && w.quantity <= rows[i].Available()
    ensures Unmet(rows, w) == 0.0
  {
    MatchingHolds(rows, w, i, |rows|);
    LeftOver(rows, w, |rows|);
  }

  lemma InStockIsMet(rows: seq<Row>, k: Slot, w: Withdrawal)
    requires Sound(rows) && InStock(rows, k, w.quantity) && Target(w) == Some(k)
    ensures FullyAbsorbed(rows, [w])
  {
    var i := FindSlot(rows, k);
    WithinRowIsMet(rows, w, i);
    ReplayAppend(rows, [], w);
    assert [] + [w] == [w];
  }

  // Draining the first n rows leaves the rest as they were.
  lemma {:induction false} DrainsAreMet(rows: seq<Row>, user: UserId, destination: string, n: nat)
    requires n <= |rows| && GoodRows(rows)
    ensures var drains := MoveAllFirst(rows, user, destination, n).ws;
            && FullyAbsorbed(rows, drains)
            && GoodRows(Replay(rows, drains))
            && forall i :: n <= i < |rows| ==> Replay(rows, drains)[i] == rows[i]
  {
    if n > 0 {
      DrainsAreMet(rows, user, destination, n - 1);
      var drains, row := MoveAllFirst(rows, user, destination, n - 1).ws, rows[n - 1];
      if Moves(row, user) {
        DrainNext(rows, Replay(rows, drains), n);
        ReplayAppend(rows, drains, Drain(row));
      }
    }
  }

  lemma DrainNext(rows: seq<Row>, before: seq<Row>, n: nat)
    requires 0 < n <= |rows| == |before| && GoodRows(before) && rows[n - 1].Available() > 0.0
    requires forall i :: n - 1 <= i < |rows| ==> before[i] == rows[i]
    ensures Unmet(before, Drain(rows[n - 1])) == 0.0
    ensures GoodRows(Absorb(before, Drain(rows[n - 1])))
    ensures forall i :: n <= i < |rows| ==> Absorb(before, Drain(rows[n - 1]))[i] == rows[i]
  {
    var w := Drain(rows[n - 1]);
    DrainTarget(rows[n - 1]);
    assert before[n - 1] == rows[n - 1];
    WithinRowIsMet(before, w, n - 1);
    AbsorbFrame(before, w, |before|);
    AbsorbExact(before, w, |before|);
    AbsorbKeepsSlots(before, w);
    forall i | n <= i < |rows| ensures Absorb(before, w)[i] == rows[i] {
      assert before[i].At() != before[n - 1].At();
      assert Absorb(before, w)[i].(withdrawn := before[i].withdrawn) == before[i];
    }
  }

  lemma AbsorbKeepsSlots(rows: seq<Row>, w: Withdrawal)
    requires GoodRows(rows)
    ensures GoodRows(Absorb(rows, w))
  {
    AbsorbFrame(rows, w, |rows|);
    forall i | 0 <= i < |rows| ensures Absorb(rows, w)[i].At() == rows[i].At() {
      AbsorbAt(rows, w, i);
    }
  }

  lemma DecisionIsMet(rows: seq<Row>, user: UserId, op: Op)
    requires GoodRows(rows) && Decide(rows, user, op).Accepted?
    ensures FullyAbsorbed(rows, Decide(rows, user, op).writes.ws)
  {
    var writes := Decide(rows, user, op).writes;
    match op
    case MoveAll(destination) => DrainsAreMet(rows, user, destination, |rows|);
    case Withdraw(owner, material, band, quality, source, _) =>
      InStockIsMet(rows, Slot(owner, Lower(material), band, quality, source), writes.ws[0]);
    case Move(owner, material, band, quality, source, _, _) =>
      InStockIsMet(rows, Slot(owner, Lower(material), band, quality, source), writes.ws[0]);
  }

  lemma OneMoreIsMet(cs: seq<Contribution>, d: Contribution, all: seq<Contribution>, ws: seq<Withdrawal>)
    requires all == cs + [d] && FullyAbsorbed(Group(cs), ws)
    ensures FullyAbsorbed(Group(all), ws)
  {
    LaterContributionOnlyAdds(cs, d, ws);
  }

  lemma {:induction false} LaterContributionsOnlyAdd(cs: seq<Contribution>, ds: seq<Contribution>,
                                                     all: seq<Contribution>,
                                                     ws: seq<Withdrawal>)
    requires all == cs + ds && FullyAbsorbed(Group(cs), ws)
    ensures FullyAbsorbed(Group(all), ws)
  {
    if |ds| == 0 {
      assert all == cs;
    } else {
      var rest, d := ds[..|ds| - 1], ds[|ds| - 1];
      var front := cs + rest;
      assert all == front + [d];
      LaterContributionsOnlyAdd(cs, rest, front, ws);
      OneMoreIsMet(front, d, all, ws);
    }
  }

  /** An accepted withdrawal, move or move-all on a ledger with old withdrawals leaves every
      withdrawal met. */
  lemma AcceptedStaysMet(cs: seq<Contribution>, ws: seq<Withdrawal>, user: UserId, op: Op)
    requires Met(cs, ws) && Decide(NetRows(cs, ws), user, op).Accepted?
    requires Unambiguous(cs + Decide(NetRows(cs, ws), user, op).writes.cs)
    ensures var writes := Decide(NetRows(cs, ws), user, op).writes;
            Met(cs + writes.cs, ws + writes.ws)
  {
    var writes := Decide(NetRows(cs, ws), user, op).writes;
    NetRowsGood(cs, ws);
    DecisionIsMet(NetRows(cs, ws), user, op);
    ReplayConcat(Group(cs), ws, writes.ws);
    LaterContributionsOnlyAdd(cs, writes.cs, cs + writes.cs, ws + writes.ws);
  }

  function ClassTotal(cs: seq<Contribution>, ws: seq<Withdrawal>, material: string, band: int, location: string): real {
    Stock(NetRows(cs, ws), InClass(material, band, location))
  }

  /** It shifts the total of every material, band and location by exactly what was written there. */
  lemma AcceptedShiftsClasses(cs: seq<Contribution>, ws: seq<Withdrawal>, user: UserId, op: Op, material: string,
                              band: int, location: string)
    requires Met(cs, ws) && Decide(NetRows(cs, ws), user, op).Accepted?
    requires Unambiguous(cs + Decide(NetRows(cs, ws), user, op).writes.cs)
    ensures var writes := Decide(NetRows(cs, ws), user, op).writes;
            ClassTotal(cs + writes.cs, ws + writes.ws, material, band, location)
            == ClassTotal(cs, ws, material, band, location)
               + Contributed(writes.cs, InClass(material, band, location))
               - Withdrawn(writes.ws, FromClass(material, band, location))
  {
    var writes := Decide(NetRows(cs, ws), user, op).writes;
    AcceptedStaysMet(cs, ws, user, op);
    ClassConservation(cs, ws, material, band, location);
    ClassConservation(cs + writes.cs, ws + writes.ws, material, band, location);
    ContributedConcat(cs, writes.cs, InClass(material, band, location));
    WithdrawnConcat(ws, writes.ws, FromClass(material, band, location));
  }
}
