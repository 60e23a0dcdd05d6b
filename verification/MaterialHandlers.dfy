// The withdrawal, move and move-all handlers: what they append for the rows they have read.
module MaterialHandlers {
  import opened Options
  import opened MaterialKeys
  import opened MaterialReplay
  import opened MaterialLaws
  import opened MaterialExact

  datatype Op =
    | Withdraw(owner: UserId, material: string, band: int, quality: int, source: string, quantity: real)
    | Move(owner: UserId, material: string, band: int, quality: int, source: string, quantity: real,
           destination: string)
    | MoveAll(destination: string)

  datatype Writes = Writes(ws: seq<Withdrawal>, cs: seq<Contribution>)

  datatype Outcome = Accepted(writes: Writes) | NotOwner | Invalid | ExceedsStock

  function FindSlot(rows: seq<Row>, k: Slot, from: nat := 0): (i: nat)
    requires from <= |rows|
    ensures from <= i <= |rows|
    ensures i < |rows| ==> rows[i].At() == k
    ensures forall j :: from <= j < i ==> rows[j].At() != k
    decreases |rows| - from
  {
    if from == |rows| || rows[from].At() == k then from else FindSlot(rows, k, from + 1)
  }

  predicate InStock(rows: seq<Row>, k: Slot, quantity: real) {
    var i := FindSlot(rows, k);
    i < |rows| && quantity <= rows[i].Available()
  }

  function MoveAllFirst(rows: seq<Row>, user: UserId, destination: string, n: nat): Writes
    requires n <= |rows|
  {
    if n == 0 then Writes([], [])
    else
      var done := MoveAllFirst(rows, user, destination, n - 1);
      var row := rows[n - 1];
      if row.first.user == user && row.Available() > 0.0 then
        Writes(done.ws + [Drain(row)], done.cs + [Refill(row, destination)])
      else done
  }

  function Drain(row: Row): Withdrawal
    requires row.Available() > 0.0
  {
    Withdrawal(row.first.material, row.first.band, Some(row.first.quality), Some(row.first.user),
               row.first.location, row.Available())
  }

  function Refill(row: Row, destination: string): Contribution
    requires row.Available() > 0.0
  {
    row.first.(quantity := row.Available(), location := destination)
  }

  function Decide(rows: seq<Row>, user: UserId, op: Op): Outcome {
    match op
    case Withdraw(owner, material, band, quality, source, quantity) =>
      if owner != user then NotOwner
      else if material == "" || quantity <= 0.0 then Invalid
      else if !InStock(rows, Slot(owner, Lower(material), band, quality, source), quantity) then ExceedsStock
      else Accepted(Writes([Withdrawal(material, band, Some(quality), Some(owner), source, quantity)], []))
    case Move(owner, material, band, quality, source, quantity, destination) =>
      if owner != user then NotOwner
      else if material == "" || destination == "" || destination == source || quantity <= 0.0 then Invalid
      else if !InStock(rows, Slot(owner, Lower(material), band, quality, source), quantity) then ExceedsStock
      else Accepted(Writes([Withdrawal(material, band, Some(quality), Some(owner), source, quantity)],
                           [Contribution(owner, material, band, quality, destination, quantity)]))
    case MoveAll(destination) =>
      if destination == "" then Invalid else Accepted(MoveAllFirst(rows, user, destination, |rows|))
  }

  // ---- Sums over the appended records ----

  lemma {:induction false} ContributedConcat(a: seq<Contribution>, b: seq<Contribution>, p: Slot -> bool)
    ensures Contributed(a + b, p) == Contributed(a, p) + Contributed(b, p)
  {
    if |b| == 0 {
      assert a + b == a;
    } else {
      assert (a + b)[..|a + b| - 1] == a + b[..|b| - 1];
      ContributedConcat(a, b[..|b| - 1], p);
    }
  }

  lemma {:induction false} WithdrawnConcat(a: seq<Withdrawal>, b: seq<Withdrawal>, q: Withdrawal -> bool)
    ensures Withdrawn(a + b, q) == Withdrawn(a, q) + Withdrawn(b, q)
  {
    if |b| == 0 {
      assert a + b == a;
    } else {
      assert (a + b)[..|a + b| - 1] == a + b[..|b| - 1];
      WithdrawnConcat(a, b[..|b| - 1], q);
    }
  }

  // Everything one user holds of a material at one quality, over all locations.
  function Holding(k: Slot): Slot -> bool {
    (s: Slot) => s.user == k.user && s.material == k.material && s.band == k.band && s.quality == k.quality
  }

  function FromHolding(k: Slot): Withdrawal -> bool {
    (w: Withdrawal) => Target(w).Some? && Holding(k)(Target(w).value)
  }

  lemma DrainTarget(row: Row)
    requires row.Available() > 0.0
    ensures Target(Drain(row)) == Some(row.At())
  {
  }

  lemma OutPlus(ws: seq<Withdrawal>, w: Withdrawal, q: Withdrawal -> bool)
    ensures Withdrawn(ws + [w], q) == Withdrawn(ws, q) + (if q(w) then w.quantity else 0.0)
  {
    assert (ws + [w])[..|ws|] == ws;
  }

  lemma InPlus(cs: seq<Contribution>, c: Contribution, p: Slot -> bool)
    ensures Contributed(cs + [c], p) == Contributed(cs, p) + (if p(c.At()) then c.quantity else 0.0)
  {
    assert (cs + [c])[..|cs|] == cs;
  }

  predicate Moves(row: Row, user: UserId) {
    row.first.user == user && row.Available() > 0.0
  }

  lemma RefillTarget(row: Row, destination: string, k: Slot)
    requires row.Available() > 0.0
    ensures Refill(row, destination).At() == row.At().(location := destination)
    ensures Is(k)(Refill(row, destination).At()) <==> k.location == destination && Holding(k)(row.At())
  {
  }

  lemma {:induction false} MoveAllOut(rows: seq<Row>, user: UserId, destination: string, n: nat, k: Slot)
    requires n <= |rows|
    ensures Out(MoveAllFirst(rows, user, destination, n).ws, k)
         == if k.user == user then StockFirst(rows, Is(k), n) else 0.0
  {
    if n > 0 {
      MoveAllOut(rows, user, destination, n - 1, k);
      var row := rows[n - 1];
      if Moves(row, user) {
        DrainTarget(row);
        OutPlus(MoveAllFirst(rows, user, destination, n - 1).ws, Drain(row), Hits(k));
      }
    }
  }

  lemma {:induction false} MoveAllIn(rows: seq<Row>, user: UserId, destination: string, n: nat, k: Slot)
    requires n <= |rows|
    ensures In(MoveAllFirst(rows, user, destination, n).cs, k)
         == if k.user == user && k.location == destination then StockFirst(rows, Holding(k), n) else 0.0
  {
    if n > 0 {
      MoveAllIn(rows, user, destination, n - 1, k);
      var row := rows[n - 1];
      if Moves(row, user) {
        RefillTarget(row, destination, k);
        InPlus(MoveAllFirst(rows, user, destination, n - 1).cs, Refill(row, destination), Is(k));
      }
    }
  }

  lemma {:induction false} MoveAllExact(rows: seq<Row>, user: UserId, destination: string, n: nat)
    requires n <= |rows|
    ensures Exact(MoveAllFirst(rows, user, destination, n).ws)
  {
    if n > 0 {
      MoveAllExact(rows, user, destination, n - 1);
    }
  }

  // ---- What a decision may take ----

  lemma InStockIff(rows: seq<Row>, k: Slot, quantity: real)
    requires DistinctSlots(rows) && quantity > 0.0
    ensures InStock(rows, k, quantity) <==> quantity <= Stock(rows, Is(k))
  {
    var i := FindSlot(rows, k);
    if i < |rows| {
      StockOfRow(rows, i);
    } else {
      NoSuchRow(rows, Is(k), |rows|);
    }
  }

  // The writes of one user's decision take at most what the rows show, touch no other user,
  // and name quality and contributor.
  ghost predicate Covered(writes: Writes, user: UserId, rows: seq<Row>) {
    && Exact(writes.ws)
    && (forall k: Slot :: k.user == user ==> Out(writes.ws, k) <= Stock(rows, Is(k)))
    && (forall k: Slot :: k.user != user ==> Out(writes.ws, k) == 0.0 && In(writes.cs, k) == 0.0)
  }

  ghost predicate GoodRows(rows: seq<Row>) {
    Sound(rows) && DistinctSlots(rows)
  }

  lemma {:induction false} StockNonNegative(rows: seq<Row>, p: Slot -> bool, n: nat)
    requires n <= |rows|
    ensures StockFirst(rows, p, n) >= 0.0
  {
    if n > 0 {
      StockNonNegative(rows, p, n - 1);
    }
  }

  lemma OneOut(w: Withdrawal, k: Slot)
    ensures Out([w], k) == if Target(w) == Some(k) then w.quantity else 0.0
  {
    var ws := [w];
    assert ws[..|ws| - 1] == [];
    assert Withdrawn(ws[..|ws| - 1], Hits(k)) == 0.0;
  }

  lemma OneIn(c: Contribution, k: Slot)
    ensures In([c], k) == if c.At() == k then c.quantity else 0.0
  {
    var cs := [c];
    assert cs[..|cs| - 1] == [];
    assert Contributed(cs[..|cs| - 1], Is(k)) == 0.0;
  }

  lemma SingleCovered(rows: seq<Row>, user: UserId, w: Withdrawal, k: Slot)
    requires GoodRows(rows) && Target(w) == Some(k) && k.user == user
    requires w.quantity <= Stock(rows, Is(k))
    ensures Exact([w])
    ensures forall j: Slot :: j.user == user ==> Out([w], j) <= Stock(rows, Is(j))
    ensures forall j: Slot :: j.user != user ==> Out([w], j) == 0.0
  {
    forall j: Slot
      ensures j.user == user ==> Out([w], j) <= Stock(rows, Is(j))
      ensures j.user != user ==> Out([w], j) == 0.0
    {
      OneOut(w, j);
      StockNonNegative(rows, Is(j), |rows|);
    }
  }

  lemma MoveAllCovered(rows: seq<Row>, user: UserId, destination: string)
    requires GoodRows(rows)
    ensures Covered(MoveAllFirst(rows, user, destination, |rows|), user, rows)
  {
    MoveAllExact(rows, user, destination, |rows|);
    forall k: Slot
      ensures Out(MoveAllFirst(rows, user, destination, |rows|).ws, k)
           == if k.user == user then Stock(rows, Is(k)) else 0.0
      ensures k.user != user ==> In(MoveAllFirst(rows, user, destination, |rows|).cs, k) == 0.0
    {
      MoveAllOut(rows, user, destination, |rows|, k);
      MoveAllIn(rows, user, destination, |rows|, k);
    }
  }

  /** No accepted request takes more than the rows it was decided on show. */
  lemma DecisionCovered(rows: seq<Row>, user: UserId, op: Op)
    requires GoodRows(rows) && Decide(rows, user, op).Accepted?
    ensures Covered(Decide(rows, user, op).writes, user, rows)
  {
    var writes := Decide(rows, user, op).writes;
    match op
    case MoveAll(destination) =>
      MoveAllCovered(rows, user, destination);
    case Withdraw(owner, material, band, quality, source, quantity) =>
      var k := Slot(owner, Lower(material), band, quality, source);
      InStockIff(rows, k, quantity);
      SingleCovered(rows, user, writes.ws[0], k);
    case Move(owner, material, band, quality, source, quantity, destination) =>
      var k := Slot(owner, Lower(material), band, quality, source);
      InStockIff(rows, k, quantity);
      SingleCovered(rows, user, writes.ws[0], k);
      forall j: Slot | j.user != user
        ensures In(writes.cs, j) == 0.0
      {
        OneIn(writes.cs[0], j);
      }
  }

  lemma NetRowsGood(cs: seq<Contribution>, ws: seq<Withdrawal>)
    ensures GoodRows(NetRows(cs, ws))
  {
    GroupDistinctSlots(cs);
    GroupSound(cs);
    ReplayDistinct(Group(cs), ws);
  }

  // ---- Names ----

  ghost predicate PlainRows(rows: seq<Row>) {
    forall i :: 0 <= i < |rows| ==> Plain(rows[i].first.material)
  }

  lemma {:induction false} PlainLower(s: string, t: string)
    requires Lower(s) == Lower(t) && Plain(s)
    ensures Plain(t)
  {
    LowerLength(s);
    LowerLength(t);
    if |s| > 0 {
      assert Lower(s)[0] == LowerChar(s[0]) && Lower(t)[0] == LowerChar(t[0]);
      assert Lower(s)[1..] == Lower(s[1..]) && Lower(t)[1..] == Lower(t[1..]);
      PlainLower(s[1..], t[1..]);
      assert t == [t[0]] + t[1..];
      assert s[0] in s;
    }
  }

  lemma StockedName(rows: seq<Row>, k: Slot, material: string, quantity: real)
    requires PlainRows(rows) && k.material == Lower(material) && InStock(rows, k, quantity)
    ensures Plain(material)
  {
    PlainLower(rows[FindSlot(rows, k)].first.material, material);
  }

  lemma NetRowsPlain(cs: seq<Contribution>, ws: seq<Withdrawal>)
    requires PlainNames(cs)
    ensures PlainRows(NetRows(cs, ws))
  {
    GroupSound(cs);
    GroupRowsOf(cs);
    ReplayFrame(Group(cs), ws);
    var rows, after := Group(cs), NetRows(cs, ws);
    forall i | 0 <= i < |after|
      ensures Plain(after[i].first.material)
    {
      assert RowOf(rows[i], cs) && after[i].(withdrawn := rows[i].withdrawn) == rows[i];
    }
  }

  lemma {:induction false} MoveAllPlain(rows: seq<Row>, user: UserId, destination: string, n: nat)
    requires n <= |rows| && PlainRows(rows)
    ensures PlainNames(MoveAllFirst(rows, user, destination, n).cs)
  {
    if n > 0 {
      MoveAllPlain(rows, user, destination, n - 1);
    }
  }

  /** The handlers keep names plain: a move only writes names that are in stock. */
  lemma DecisionPlain(cs: seq<Contribution>, ws: seq<Withdrawal>, user: UserId, op: Op)
    requires PlainNames(cs) && Decide(NetRows(cs, ws), user, op).Accepted?
    ensures PlainNames(cs + Decide(NetRows(cs, ws), user, op).writes.cs)
  {
    var rows := NetRows(cs, ws);
    NetRowsPlain(cs, ws);
    match op
    case MoveAll(destination) => MoveAllPlain(rows, user, destination, |rows|);
    case Withdraw(_, _, _, _, _, _) =>
    case Move(owner, material, band, quality, source, quantity, _) =>
      StockedName(rows, Slot(owner, Lower(material), band, quality, source), material, quantity);
  }

}
