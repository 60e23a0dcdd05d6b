// The shared material stock of one group is never stored: it is the replay of every
// contribution and every withdrawal. Amounts are exact reals.
module MaterialReplay {
  import opened Options
  import opened MaterialKeys

  type Amount = q: real | q > 0.0 witness 1.0

  datatype Contribution = Contribution(
    user: UserId, material: string, band: int, quality: int, location: string, quantity: Amount)
  {
    function At(): Slot {
      Slot(user, Lower(material), band, quality, location)
    }
  }

  // Old withdrawals carry no quality, or a quality and no contributor.
  datatype Withdrawal = Withdrawal(
    material: string, band: int, quality: Option<int>, contributor: Option<UserId>, warehouse: string,
    quantity: Amount)

  // A row is a copy of the first contribution filed under its key, with running totals.
  datatype Row = Row(key: string, first: Contribution, quantity: real, withdrawn: real) {
    function At(): Slot {
      first.At()
    }

    function Available(): real {
      if quantity > withdrawn then quantity - withdrawn else 0.0
    }
  }

  function Min(x: real, y: real): real {
    if x < y then x else y
  }

  // ---- Grouping contributions into rows ----

  function FindKey(rows: seq<Row>, key: string, from: nat := 0): (i: nat)
    requires from <= |rows|
    ensures from <= i <= |rows|
    ensures i < |rows| ==> rows[i].key == key
    ensures forall j :: from <= j < i ==> rows[j].key != key
    decreases |rows| - from
  {
    if from == |rows| || rows[from].key == key then from else FindKey(rows, key, from + 1)
  }

  function TopUp(rows: seq<Row>, i: nat, c: Contribution): seq<Row>
    requires i < |rows|
  {
    rows[i := rows[i].(quantity := rows[i].quantity + c.quantity)]
  }

  function File(rows: seq<Row>, key: string, c: Contribution): seq<Row> {
    var i := FindKey(rows, key);
    if i < |rows| then TopUp(rows, i, c) else rows + [Row(key, c, c.quantity, 0.0)]
  }

  function Group(cs: seq<Contribution>): seq<Row> {
    if |cs| == 0 then []
    else
      var c := cs[|cs| - 1];
      File(Group(cs[..|cs| - 1]), KeyOf(c.At()), c)
  }

  // ---- Allocating one withdrawal greedily over the rows, in row order ----

  predicate MatchesSlot(s: Slot, w: Withdrawal) {
    && s.material == Lower(w.material)
    && s.band == w.band
    && s.location == w.warehouse
    && (w.quality.Some? ==>
          s.quality == w.quality.value && (w.contributor.Some? ==> s.user == w.contributor.value))
  }

  function Take(row: Row, w: Withdrawal, remaining: real): real {
    if MatchesSlot(row.At(), w) then Min(row.Available(), remaining) else 0.0
  }

  function TakeAt(rows: seq<Row>, i: nat, w: Withdrawal, remaining: real): (r: seq<Row>)
    requires i < |rows|
    ensures |r| == |rows|
  {
    rows[i := rows[i].(withdrawn := rows[i].withdrawn + Take(rows[i], w, remaining))]
  }

  // The rows and what is left of the withdrawal after the first n rows have been visited.
  function AbsorbFirst(rows: seq<Row>, w: Withdrawal, n: nat): (r: (seq<Row>, real))
    requires n <= |rows|
    ensures |r.0| == |rows|
  {
    if n == 0 then (rows, w.quantity)
    else
      var (before, left) := AbsorbFirst(rows, w, n - 1);
      (TakeAt(before, n - 1, w, left), left - Take(before[n - 1], w, left))
  }

  function Absorb(rows: seq<Row>, w: Withdrawal): (r: seq<Row>)
    ensures |r| == |rows|
  {
    AbsorbFirst(rows, w, |rows|).0
  }

  function Unmet(rows: seq<Row>, w: Withdrawal): real {
    AbsorbFirst(rows, w, |rows|).1
  }

  function Replay(rows: seq<Row>, ws: seq<Withdrawal>): (r: seq<Row>)
    ensures |r| == |rows|
  {
    if |ws| == 0 then rows else Absorb(Replay(rows, ws[..|ws| - 1]), ws[|ws| - 1])
  }

  function NetRows(cs: seq<Contribution>, ws: seq<Withdrawal>): seq<Row> {
    Replay(Group(cs), ws)
  }

  // No withdrawal is larger than what its matching rows still hold when its turn comes.
  predicate FullyAbsorbed(rows: seq<Row>, ws: seq<Withdrawal>) {
    |ws| == 0 ||
    (FullyAbsorbed(rows, ws[..|ws| - 1]) && Unmet(Replay(rows, ws[..|ws| - 1]), ws[|ws| - 1]) == 0.0)
  }

  // ---- The loops of the server, proved to compute NetRows ----

  lemma FindKeyUnique(rows: seq<Row>, key: string, i: nat)
    requires i < |rows| && rows[i].key == key
    requires forall j :: 0 <= j < i ==> rows[j].key != key
    ensures FindKey(rows, key) == i
  {
  }

  // The Map of the server: from each key to the place of its row.
  ghost predicate Indexes(index: map<string, nat>, rows: seq<Row>) {
    && (forall i :: 0 <= i < |rows| ==> rows[i].key in index && index[rows[i].key] == i)
    && (forall k :: k in index ==> index[k] < |rows| && rows[index[k]].key == k)
  }

  lemma IndexKnown(index: map<string, nat>, rows: seq<Row>, key: string, c: Contribution)
    requires Indexes(index, rows) && key in index
    ensures var i := index[key];
            && File(rows, key, c) == TopUp(rows, i, c)
            && Indexes(index, File(rows, key, c))
  {
    FindKeyUnique(rows, key, index[key]);
  }

  lemma IndexFresh(index: map<string, nat>, rows: seq<Row>, key: string, c: Contribution)
    requires Indexes(index, rows) && key !in index
    ensures File(rows, key, c) == rows + [Row(key, c, c.quantity, 0.0)]
    ensures Indexes(index[key := |rows|], File(rows, key, c))
  {
    assert FindKey(rows, key) == |rows|;
  }

  lemma GroupStep(cs: seq<Contribution>, n: nat)
    requires n < |cs|
    ensures Group(cs[..n + 1]) == File(Group(cs[..n]), KeyOf(cs[n].At()), cs[n])
  {
    assert cs[..n + 1][..n] == cs[..n];
  }

  method FileContribution(rows: seq<Row>, index: map<string, nat>, key: string, c: Contribution)
    returns (rows': seq<Row>, index': map<string, nat>)
    requires Indexes(index, rows)
    ensures rows' == File(rows, key, c) && Indexes(index', rows')
  {
    if key in index {
      IndexKnown(index, rows, key, c);
      var i := index[key];
      rows', index' := rows[i := rows[i].(quantity := rows[i].quantity + c.quantity)], index;
    } else {
      IndexFresh(index, rows, key, c);
      rows', index' := rows + [Row(key, c, c.quantity, 0.0)], index[key := |rows|];
    }
  }

  method GroupRows(contributions: seq<Contribution>) returns (rows: seq<Row>)
    ensures rows == Group(contributions)
  {
    rows := [];
    var index: map<string, nat> := map[];
    for n := 0 to |contributions|
      invariant rows == Group(contributions[..n])
      invariant Indexes(index, rows)
    {
      GroupStep(contributions, n);
      rows, index := FileContribution(rows, index, KeyOf(contributions[n].At()), contributions[n]);
    }
    assert contributions[..|contributions|] == contributions;
  }

  // Once nothing is left of a withdrawal, the rows that follow keep their totals.
  lemma {:induction false} AbsorbSettled(rows: seq<Row>, w: Withdrawal, m: nat, n: nat)
    requires m <= n <= |rows| && AbsorbFirst(rows, w, m).1 == 0.0
    ensures AbsorbFirst(rows, w, n) == AbsorbFirst(rows, w, m)
  {
    if m < n {
      AbsorbSettled(rows, w, m, n - 1);
      var before := AbsorbFirst(rows, w, m).0;
      assert before[n - 1 := before[n - 1]] == before;
    }
  }

  method AbsorbWithdrawal(before: seq<Row>, w: Withdrawal) returns (rows: seq<Row>)
    ensures rows == Absorb(before, w)
  {
    rows := before;
    var remaining: real := w.quantity;
    var i := 0;
    while i < |rows|
      invariant 0 <= i <= |rows| == |before|
      invariant remaining >= 0.0
      invariant (rows, remaining) == AbsorbFirst(before, w, i)
    {
      var row := rows[i];
      if MatchesSlot(row.At(), w) {
        var used := Min(row.Available(), remaining);
        rows := rows[i := row.(withdrawn := row.withdrawn + used)];
        remaining := remaining - used;
        if remaining <= 0.0 {
          AbsorbSettled(before, w, i + 1, |before|);
          return;
        }
      } else {
        assert rows[i := row.(withdrawn := row.withdrawn + 0.0)] == rows;
      }
      i := i + 1;
    }
  }

  method MaterialInventoryNetRows(contributions: seq<Contribution>, withdrawals: seq<Withdrawal>)
    returns (netRows: seq<Row>)
    ensures netRows == NetRows(contributions, withdrawals)
  {
    netRows := GroupRows(contributions);
    for n := 0 to |withdrawals|
      invariant netRows == Replay(Group(contributions), withdrawals[..n])
    {
      netRows := AbsorbWithdrawal(netRows, withdrawals[n]);
      assert withdrawals[..n + 1][..n] == withdrawals[..n];
    }
    assert withdrawals[..|withdrawals|] == withdrawals;
  }
}
