// What the replay shows when every withdrawal names its quality and its contributor, the
// only kind the handlers write, and when the joined row keys stand for their fields.
module MaterialExact {
  import opened Options
  import opened MaterialKeys
  import opened MaterialReplay
  import opened MaterialLaws

  ghost predicate Exact(ws: seq<Withdrawal>) {
    forall w :: w in ws ==> w.quality.Some? && w.contributor.Some?
  }

  function Target(w: Withdrawal): Option<Slot> {
    if w.quality.Some? && w.contributor.Some?
    then Some(Slot(w.contributor.value, Lower(w.material), w.band, w.quality.value, w.warehouse))
    else None
  }

  function Is(k: Slot): Slot -> bool {
    s => s == k
  }

  function Hits(k: Slot): Withdrawal -> bool {
    w => Target(w) == Some(k)
  }

  // Amounts recorded for one slot, and the amount the inventory shows for it.
  function In(cs: seq<Contribution>, k: Slot): real {
    Contributed(cs, Is(k))
  }

  function Out(ws: seq<Withdrawal>, k: Slot): real {
    Withdrawn(ws, Hits(k))
  }

  function View(cs: seq<Contribution>, ws: seq<Withdrawal>, k: Slot): real {
    Stock(NetRows(cs, ws), Is(k))
  }

  ghost predicate NoOverdraft(cs: seq<Contribution>, ws: seq<Withdrawal>) {
    forall k: Slot :: Out(ws, k) <= In(cs, k)
  }

  // ---- Rows with distinct slots ----

  ghost predicate DistinctSlots(rows: seq<Row>) {
    forall i, j :: 0 <= i < j < |rows| ==> rows[i].At() != rows[j].At()
  }

  lemma GroupDistinctSlots(cs: seq<Contribution>)
    ensures DistinctSlots(Group(cs))
  {
    GroupDistinct(cs);
    GroupRowsOf(cs);
    var rows := Group(cs);
    forall i, j | 0 <= i < j < |rows|
      ensures rows[i].At() != rows[j].At()
    {
      assert RowOf(rows[i], cs) && RowOf(rows[j], cs) && rows[i].key != rows[j].key;
    }
  }

  lemma {:induction false} NoSuchRow(rows: seq<Row>, p: Slot -> bool, n: nat)
    requires n <= |rows|
    requires forall i :: 0 <= i < n ==> !p(rows[i].At())
    ensures StockFirst(rows, p, n) == 0.0
  {
    if n > 0 {
      NoSuchRow(rows, p, n - 1);
    }
  }

  lemma {:induction false} OnlyRow(rows: seq<Row>, p: Slot -> bool, i: nat, n: nat)
    requires i < n <= |rows| && p(rows[i].At())
    requires forall j :: 0 <= j < n && j != i ==> !p(rows[j].At())
    ensures StockFirst(rows, p, n) == rows[i].Available()
  {
    if i == n - 1 {
      NoSuchRow(rows, p, i);
    } else {
      OnlyRow(rows, p, i, n - 1);
    }
  }

  lemma StockOfRow(rows: seq<Row>, i: nat)
    requires i < |rows| && DistinctSlots(rows)
    ensures Stock(rows, Is(rows[i].At())) == rows[i].Available()
  {
    OnlyRow(rows, Is(rows[i].At()), i, |rows|);
  }

  // ---- When a row stands for its fields ----

  ghost predicate RowsFaithful(cs: seq<Contribution>) {
    forall i :: 0 <= i < |Group(cs)| ==> Group(cs)[i].quantity == In(cs, Group(cs)[i].At())
  }

  lemma RowsFaithfulIf(cs: seq<Contribution>)
    requires Unambiguous(cs)
    ensures RowsFaithful(cs)
  {
    GroupDistinctSlots(cs);
    GroupRowsOf(cs);
    var rows := Group(cs);
    forall i | 0 <= i < |rows|
      ensures rows[i].quantity == In(cs, rows[i].At())
    {
      assert RowOf(rows[i], cs);
      GroupStock(cs, Is(rows[i].At()));
      StockOfRow(rows, i);
    }
  }

  function HasKey(key: string): Slot -> bool {
    s => KeyOf(s) == key
  }

  lemma KeyedRow(cs: seq<Contribution>, i: nat)
    requires i < |Group(cs)|
    ensures Group(cs)[i].quantity == Contributed(cs, HasKey(Group(cs)[i].key))
  {
    var rows := Group(cs);
    var p := HasKey(rows[i].key);
    GroupRowsOf(cs);
    GroupDistinct(cs);
    GroupStock(cs, p);
    assert RowOf(rows[i], cs);
    forall j | 0 <= j < |rows| && j != i
      ensures !p(rows[j].At())
    {
      assert RowOf(rows[j], cs) && rows[j].key != rows[i].key;
    }
    OnlyRow(rows, p, i, |rows|);
  }

  lemma {:induction false} WiderCount(cs: seq<Contribution>, p: Slot -> bool, q: Slot -> bool)
    requires forall s :: p(s) ==> q(s)
    ensures Contributed(cs, p) <= Contributed(cs, q)
    ensures (exists c :: c in cs && q(c.At()) && !p(c.At())) ==> Contributed(cs, p) < Contributed(cs, q)
  {
    if |cs| > 0 {
      WiderCount(cs[..|cs| - 1], p, q);
      if c :| c in cs && q(c.At()) && !p(c.At()) {
        assert c in cs[..|cs| - 1] || c == cs[|cs| - 1];
      }
    }
  }

  lemma {:induction false} KeyHasRow(cs: seq<Contribution>, c: Contribution) returns (i: nat)
    requires c in cs
    ensures i < |Group(cs)| && Group(cs)[i].key == KeyOf(c.At())
  {
    var rest, last := cs[..|cs| - 1], cs[|cs| - 1];
    var rows, key := Group(rest), KeyOf(last.At());
    if c == last {
      i := FindKey(rows, key);
    } else {
      i := KeyHasRow(rest, c);
    }
    FileKeeps(rows, key, last);
  }

  lemma FileKeeps(rows: seq<Row>, key: string, c: Contribution)
    ensures |rows| <= |File(rows, key, c)|
    ensures forall i :: 0 <= i < |rows| ==> File(rows, key, c)[i].key == rows[i].key
    ensures FindKey(rows, key) < |File(rows, key, c)| && File(rows, key, c)[FindKey(rows, key)].key == key
  {
  }

  /** Every row shows exactly what was contributed under its own fields if and only if no two
      contributions with different fields share a joined key. */
  lemma RowsFaithfulIffUnambiguous(cs: seq<Contribution>)
    ensures RowsFaithful(cs) <==> Unambiguous(cs)
  {
    if Unambiguous(cs) {
      RowsFaithfulIf(cs);
    } else {
      var c, d :| c in cs && d in cs && KeyOf(c.At()) == KeyOf(d.At()) && c.At() != d.At();
      var i := KeyHasRow(cs, c);
      var row := Group(cs)[i];
      KeyedRow(cs, i);
      GroupRowsOf(cs);
      assert RowOf(row, cs);
      WiderCount(cs, Is(row.At()), HasKey(row.key));
      assert HasKey(row.key)(c.At()) && HasKey(row.key)(d.At());
    }
  }

  ghost predicate PlainNames(cs: seq<Contribution>) {
    forall c :: c in cs ==> Plain(c.material)
  }

  /** A caller can check this before the insert: a material name without the separator. */
  lemma PlainNamesUnambiguous(cs: seq<Contribution>)
    requires PlainNames(cs)
    ensures Unambiguous(cs)
  {
    forall c, d | c in cs && d in cs && KeyOf(c.At()) == KeyOf(d.At())
      ensures c.At() == d.At()
    {
      LowerPlain(c.material);
      LowerPlain(d.material);
      KeyInjective(c.At(), d.At());
    }
  }

  /** Names with the separator do collide: a name ending in "|band|quality" and a location
      starting with "band|quality|" put two stocks into one row, shown under the first one's fields. */
  lemma SeparatorInNameMergesRows(c: Contribution, d: Contribution)
    requires c.user == d.user
    requires d.material == c.material + ("|" + (Numeral(c.band) + ("|" + Numeral(c.quality))))
    requires c.location == Numeral(d.band) + "|" + (Numeral(d.quality) + "|" + d.location)
    ensures c.At() != d.At()
    ensures Group([c, d]) == [Row(KeyOf(c.At()), c, c.quantity + d.quantity, 0.0)]
    ensures In([c, d], c.At()) == c.quantity
  {
    LowerSuffix(c.material, Numeral(c.band), Numeral(c.quality));
    SameJoinedKey(c.At(), d.At());
    assert |d.At().material| > |c.At().material| by { LowerLength(c.material); LowerLength(d.material); }
    MergedRow(c, d, KeyOf(c.At()));
  }

  lemma LowerSuffix(m: string, b: string, q: string)
    requires forall i :: 0 <= i < |b| ==> b[i] == '-' || '0' <= b[i] <= '9'
    requires forall i :: 0 <= i < |q| ==> q[i] == '-' || '0' <= q[i] <= '9'
    ensures Lower(m + ("|" + (b + ("|" + q)))) == Lower(m) + ("|" + (b + ("|" + q)))
  {
    LowerConcat(m, "|" + (b + ("|" + q)));
    LowerFixed("|" + (b + ("|" + q)));
  }

  lemma SameJoinedKey(s: Slot, t: Slot)
    requires s.user == t.user
    requires t.material == s.material + ("|" + (Numeral(s.band) + ("|" + Numeral(s.quality))))
    requires s.location == Numeral(t.band) + "|" + (Numeral(t.quality) + "|" + t.location)
    ensures KeyOf(s) == KeyOf(t)
  {
    Regroup(s.material, Numeral(s.band), Numeral(s.quality), s.location);
  }

  lemma Regroup(m: string, b: string, q: string, rest: string)
    ensures m + "|" + (b + "|" + (q + "|" + rest)) == m + ("|" + (b + ("|" + q))) + "|" + rest
  {
    assert b + "|" + (q + "|" + rest) == b + ("|" + q) + "|" + rest;
    var t := b + ("|" + q);
    assert m + "|" + (t + "|" + rest) == m + ("|" + t) + "|" + rest;
  }

  lemma MergedRow(c: Contribution, d: Contribution, key: string)
    requires KeyOf(c.At()) == KeyOf(d.At()) == key && c.At() != d.At()
    ensures Group([c, d]) == [Row(key, c, c.quantity + d.quantity, 0.0)]
    ensures In([c, d], c.At()) == c.quantity
  {
    assert [c, d][..1] == [c] && [c][..0] == [];
    assert Group([c]) == [Row(key, c, c.quantity, 0.0)];
    assert Contributed([c], Is(c.At())) == c.quantity;
  }

  // ---- Exact withdrawals ----

  function TakeExact(row: Row, w: Withdrawal): real
    requires Target(w).Some?
  {
    if row.At() == Target(w).value then Min(row.Available(), w.quantity) else 0.0
  }

  lemma {:induction false} AbsorbExact(rows: seq<Row>, w: Withdrawal, n: nat)
    requires n <= |rows| && Sound(rows) && DistinctSlots(rows) && Target(w).Some?
    ensures var (after, left) := AbsorbFirst(rows, w, n);
            && (forall i :: 0 <= i < n ==> after[i].withdrawn == rows[i].withdrawn + TakeExact(rows[i], w))
            && ((forall i :: 0 <= i < n ==> rows[i].At() != Target(w).value) ==> left == w.quantity)
  {
    if n > 0 {
      AbsorbExact(rows, w, n - 1);
      AbsorbFrame(rows, w, n - 1);
      assert AbsorbFirst(rows, w, n - 1).0[n - 1] == rows[n - 1];
      MatchesTarget(rows[n - 1].At(), w);
    }
  }

  lemma MatchesTarget(s: Slot, w: Withdrawal)
    requires Target(w).Some?
    ensures MatchesSlot(s, w) <==> s == Target(w).value
  {
  }

  // Each row has given up the smaller of what it had and what was asked of its slot.
  lemma {:induction false} ReplayExact(rows: seq<Row>, ws: seq<Withdrawal>, i: nat)
    requires i < |rows| && Sound(rows) && DistinctSlots(rows) && Exact(ws)
    requires rows[i].withdrawn == 0.0
    ensures Replay(rows, ws)[i].withdrawn == Min(rows[i].quantity, Out(ws, rows[i].At()))
    ensures Out(ws, rows[i].At()) >= 0.0
  {
    if |ws| > 0 {
      var rest, w := ws[..|ws| - 1], ws[|ws| - 1];
      assert w in ws;
      ReplayExact(rows, rest, i);
      ReplayDistinct(rows, rest);
      AbsorbExact(Replay(rows, rest), w, |rows|);
      assert Replay(rows, rest)[i].(withdrawn := 0.0) == rows[i];
    }
  }

  lemma ReplayDistinct(rows: seq<Row>, ws: seq<Withdrawal>)
    requires Sound(rows) && DistinctSlots(rows)
    ensures Sound(Replay(rows, ws)) && DistinctSlots(Replay(rows, ws))
    ensures forall i :: 0 <= i < |rows| ==>
              Replay(rows, ws)[i].(withdrawn := rows[i].withdrawn) == rows[i]
  {
    ReplayFrame(rows, ws);
    var after := Replay(rows, ws);
    assert forall i :: 0 <= i < |rows| ==> after[i].At() == after[i].(withdrawn := rows[i].withdrawn).At();
  }

  function Left(cs: seq<Contribution>, ws: seq<Withdrawal>, k: Slot): real {
    if In(cs, k) > Out(ws, k) then In(cs, k) - Out(ws, k) else 0.0
  }

  lemma {:induction false} OutNonNegative(ws: seq<Withdrawal>, k: Slot)
    ensures Out(ws, k) >= 0.0
  {
    if |ws| > 0 {
      OutNonNegative(ws[..|ws| - 1], k);
    }
  }

  lemma ViewOfRow(cs: seq<Contribution>, ws: seq<Withdrawal>, i: nat)
    requires Unambiguous(cs) && Exact(ws) && i < |Group(cs)|
    ensures View(cs, ws, Group(cs)[i].At()) == Left(cs, ws, Group(cs)[i].At())
  {
    var after := NetRows(cs, ws);
    GroupReady(cs);
    RowsFaithfulIf(cs);
    ReplayDistinct(Group(cs), ws);
    ReplayExact(Group(cs), ws, i);
    assert after[i].(withdrawn := 0.0) == Group(cs)[i];
    StockOfRow(after, i);
  }

  lemma GroupReady(cs: seq<Contribution>)
    ensures Sound(Group(cs)) && DistinctSlots(Group(cs))
    ensures forall i :: 0 <= i < |Group(cs)| ==> Group(cs)[i].withdrawn == 0.0
  {
    GroupDistinctSlots(cs);
    GroupSound(cs);
    GroupRowsOf(cs);
    forall i | 0 <= i < |Group(cs)| ensures Group(cs)[i].withdrawn == 0.0 {
      assert RowOf(Group(cs)[i], cs);
    }
  }

  lemma ViewWithoutRow(cs: seq<Contribution>, ws: seq<Withdrawal>, k: Slot)
    requires Unambiguous(cs) && forall i :: 0 <= i < |Group(cs)| ==> Group(cs)[i].At() != k
    ensures View(cs, ws, k) == Left(cs, ws, k)
  {
    var rows := Group(cs);
    GroupDistinctSlots(cs);
    GroupSound(cs);
    ReplayDistinct(rows, ws);
    GroupStock(cs, Is(k));
    NoSuchRow(rows, Is(k), |rows|);
    NoSuchRow(NetRows(cs, ws), Is(k), |rows|);
    OutNonNegative(ws, k);
  }

  /** The view of a slot depends only on the two sums, not on the order of either list. */
  lemma ViewIsBalance(cs: seq<Contribution>, ws: seq<Withdrawal>, k: Slot)
    requires Unambiguous(cs) && Exact(ws)
    ensures View(cs, ws, k) == Left(cs, ws, k)
  {
    var rows := Group(cs);
    if i :| 0 <= i < |rows| && rows[i].At() == k {
      ViewOfRow(cs, ws, i);
    } else {
      ViewWithoutRow(cs, ws, k);
    }
  }

  lemma {:induction false} NoOverdraftAbsorbs(cs: seq<Contribution>, ws: seq<Withdrawal>)
    requires Unambiguous(cs) && Exact(ws) && NoOverdraft(cs, ws)
    ensures FullyAbsorbed(Group(cs), ws)
  {
    if |ws| > 0 {
      var rest, w := ws[..|ws| - 1], ws[|ws| - 1];
      assert w in ws;
      forall k: Slot
        ensures Out(rest, k) <= In(cs, k)
      {
        assert Out(ws, k) <= In(cs, k);
      }
      NoOverdraftAbsorbs(cs, rest);
      LastAbsorbed(cs, ws);
    }
  }

  lemma LastAbsorbed(cs: seq<Contribution>, ws: seq<Withdrawal>)
    requires |ws| > 0 && Unambiguous(cs) && Exact(ws)
    requires Target(ws[|ws| - 1]).Some? ==>
               Out(ws, Target(ws[|ws| - 1]).value) <= In(cs, Target(ws[|ws| - 1]).value)
    ensures Unmet(Replay(Group(cs), ws[..|ws| - 1]), ws[|ws| - 1]) == 0.0
  {
    var rest, w := ws[..|ws| - 1], ws[|ws| - 1];
    assert w in ws;
    var k := Target(w).value;
    var before := Replay(Group(cs), rest);
    ViewIsBalance(cs, rest, k);
    ViewIsBalance(cs, ws, k);
    OutNonNegative(rest, k);
    GroupSound(cs);
    ReplayFrame(Group(cs), rest);
    forall i | 0 <= i < |before| && MatchesSlot(before[i].At(), w)
      ensures Is(k)(before[i].At()) == true
    {
      MatchesTarget(before[i].At(), w);
    }
    AbsorbStock(before, w, |before|, Is(k), true);
  }
}
