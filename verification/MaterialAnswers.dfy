// What the withdrawal, move and move-all requests answer and write, told by the stored fields.
module MaterialAnswers {
  import opened Options
  import opened MaterialKeys
  import opened MaterialReplay
  import opened MaterialHandlers

  ghost predicate Named(row: Row, owner: UserId, material: string, band: int, quality: int, source: string) {
    && row.first.user == owner && SameText(row.first.material, material)
    && row.first.band == band && row.first.quality == quality && row.first.location == source
  }

  // The row that a request names is the first of that position.
  ghost predicate Shows(rows: seq<Row>, owner: UserId, material: string, band: int, quality: int, source: string,
                        quantity: real)
  {
    exists i ::
      && 0 <= i < |rows| && Named(rows[i], owner, material, band, quality, source)
      && (forall j :: 0 <= j < i ==> !Named(rows[j], owner, material, band, quality, source))
      && quantity <= rows[i].quantity - rows[i].withdrawn
  }

  lemma NamedIff(row: Row, owner: UserId, material: string, band: int, quality: int, source: string)
    ensures Named(row, owner, material, band, quality, source)
       <==> row.At() == Slot(owner, Lower(material), band, quality, source)
  {
    LowerIff(row.first.material, material);
  }

  lemma InStockMeaning(rows: seq<Row>, owner: UserId, material: string, band: int, quality: int, source: string,
                       quantity: real)
    requires quantity > 0.0
    ensures InStock(rows, Slot(owner, Lower(material), band, quality, source), quantity)
       <==> Shows(rows, owner, material, band, quality, source, quantity)
  {
    forall i | 0 <= i < |rows|
      ensures Named(rows[i], owner, material, band, quality, source)
         <==> rows[i].At() == Slot(owner, Lower(material), band, quality, source)
    {
      NamedIff(rows[i], owner, material, band, quality, source);
    }
  }

  // The answer to a withdrawal or a move, and the records of an accepted one.
  ghost predicate Answers(rows: seq<Row>, user: UserId, op: Op, outcome: Outcome)
    requires !op.MoveAll?
  {
    var formed := && op.material != "" && op.quantity > 0.0
                  && (op.Move? ==> op.destination != "" && op.destination != op.source);
    var shown := Shows(rows, op.owner, op.material, op.band, op.quality, op.source, op.quantity);
    && (outcome == NotOwner <==> op.owner != user)
    && (outcome == Invalid <==> op.owner == user && !formed)
    && (outcome == ExceedsStock <==> op.owner == user && formed && !shown)
    && (outcome.Accepted? <==> op.owner == user && formed && shown)
    && (outcome.Accepted? ==>
          && outcome.writes.ws
             == [Withdrawal(op.material, op.band, Some(op.quality), Some(user), op.source, op.quantity)]
          && outcome.writes.cs
             == if op.Move? then [Contribution(user, op.material, op.band, op.quality, op.destination, op.quantity)]
                else [])
  }

  /** Who is refused and why, and what an accepted request writes. */
  lemma DecisionMeaning(rows: seq<Row>, user: UserId, op: Op)
    requires !op.MoveAll?
    ensures Answers(rows, user, op, Decide(rows, user, op))
  {
    if op.quantity > 0.0 {
      InStockMeaning(rows, op.owner, op.material, op.band, op.quality, op.source, op.quantity);
    }
  }

  // ---- Moving everything ----

  // A row of the user's with something left is taken out whole and put back at the destination.
  ghost predicate Carried(row: Row, user: UserId, destination: string, w: Withdrawal, c: Contribution) {
    var left := row.quantity - row.withdrawn;
    && row.first.user == user && left > 0.0
    && w == Withdrawal(row.first.material, row.first.band, Some(row.first.quality), Some(user), row.first.location,
                       left)
    && c == Contribution(user, row.first.material, row.first.band, row.first.quality, destination, left)
  }

  ghost predicate CarriedAt(rows: seq<Row>, user: UserId, destination: string, writes: Writes, picks: seq<nat>,
                            m: nat)
    requires m < |picks| == |writes.ws| == |writes.cs|
  {
    picks[m] < |rows| && Carried(rows[picks[m]], user, destination, writes.ws[m], writes.cs[m])
  }

  ghost predicate NothingLeft(row: Row, user: UserId) {
    row.first.user != user || row.quantity <= row.withdrawn
  }

  // The first n rows: those carried are, in row order, at the picked places, and no other of the
  // user's has anything left.
  ghost predicate CarriesFirst(rows: seq<Row>, user: UserId, destination: string, writes: Writes, picks: seq<nat>,
                               n: nat)
  {
    && n <= |rows| && |picks| == |writes.ws| == |writes.cs|
    && (forall m :: 0 <= m < |picks| ==> picks[m] < n && CarriedAt(rows, user, destination, writes, picks, m))
    && (forall m, k :: 0 <= m < k < |picks| ==> picks[m] < picks[k])
    && (forall i :: 0 <= i < n && i !in picks ==> NothingLeft(rows[i], user))
  }

  lemma CarryNext(rows: seq<Row>, user: UserId, destination: string, writes: Writes, picks: seq<nat>, n: nat,
                  w: Withdrawal, c: Contribution, more: Writes, after: seq<nat>)
    requires n < |rows| && CarriesFirst(rows, user, destination, writes, picks, n)
    requires Carried(rows[n], user, destination, w, c)
    requires more == Writes(writes.ws + [w], writes.cs + [c]) && after == picks + [n]
    ensures CarriesFirst(rows, user, destination, more, after, n + 1)
  {
    forall m | 0 <= m < |after|
      ensures after[m] < n + 1 && CarriedAt(rows, user, destination, more, after, m)
    {
      if m < |picks| {
        assert CarriedAt(rows, user, destination, writes, picks, m);
      }
    }
    forall i | 0 <= i < n + 1 && i !in after ensures NothingLeft(rows[i], user) {
      assert i != n by {
        assert after[|picks|] == n;
      }
      assert i !in picks;
    }
  }

  /** Move-all empties exactly the user's rows that have something left. */
  lemma {:induction false} MoveAllMeaning(rows: seq<Row>, user: UserId, destination: string, n: nat)
    returns (picks: seq<nat>)
    requires n <= |rows|
    ensures CarriesFirst(rows, user, destination, MoveAllFirst(rows, user, destination, n), picks, n)
  {
    if n == 0 {
      picks := [];
    } else {
      var before, row := MoveAllFirst(rows, user, destination, n - 1), rows[n - 1];
      picks := MoveAllMeaning(rows, user, destination, n - 1);
      if Moves(row, user) {
        var all := picks + [n - 1];
        CarryNext(rows, user, destination, before, picks, n - 1, Drain(row), Refill(row, destination),
                  MoveAllFirst(rows, user, destination, n), all);
        picks := all;
      } else {
        assert NothingLeft(row, user);
      }
    }
  }
}
