// Laws of the replay that hold for every mixture of old and new withdrawals.
module MaterialLaws {
  import opened Options
  import opened MaterialKeys
  import opened MaterialReplay

  // ---- Totals ----

  function Contributed(cs: seq<Contribution>, p: Slot -> bool): real {
    if |cs| == 0 then 0.0
    else
      var c := cs[|cs| - 1];
      Contributed(cs[..|cs| - 1], p) + (if p(c.At()) then c.quantity else 0.0)
  }

  function Withdrawn(ws: seq<Withdrawal>, charged: Withdrawal -> bool): real {
    if |ws| == 0 then 0.0
    else
      var w := ws[|ws| - 1];
      Withdrawn(ws[..|ws| - 1], charged) + (if charged(w) then w.quantity else 0.0)
  }

  function Counted(row: Row, p: Slot -> bool): real {
    if p(row.At()) then row.Available() else 0.0
  }

  function StockFirst(rows: seq<Row>, p: Slot -> bool, n: nat): real
    requires n <= |rows|
  {
    if n == 0 then 0.0 else StockFirst(rows, p, n - 1) + Counted(rows[n - 1], p)
  }

  function Stock(rows: seq<Row>, p: Slot -> bool): real {
    StockFirst(rows, p, |rows|)
  }

  lemma {:induction false} StockSame(a: seq<Row>, b: seq<Row>, p: Slot -> bool, n: nat)
    requires n <= |a| && n <= |b| && a[..n] == b[..n]
    ensures StockFirst(a, p, n) == StockFirst(b, p, n)
  {
    if n > 0 {
      assert a[..n][..n - 1] == a[..n - 1] && b[..n][..n - 1] == b[..n - 1];
      assert a[n - 1] == a[..n][n - 1] == b[n - 1];
      StockSame(a, b, p, n - 1);
    }
  }

  lemma {:induction false} StockUpdate(rows: seq<Row>, i: nat, row: Row, p: Slot -> bool, n: nat)
    requires i < n <= |rows|
    ensures StockFirst(rows[i := row], p, n)
         == StockFirst(rows, p, n) - Counted(rows[i], p) + Counted(row, p)
  {
    if i < n - 1 {
      StockUpdate(rows, i, row, p, n - 1);
    } else {
      StockSame(rows, rows[i := row], p, i);
    }
  }

  lemma StockAppend(rows: seq<Row>, row: Row, p: Slot -> bool)
    ensures Stock(rows + [row], p) == Stock(rows, p) + Counted(row, p)
  {
    StockSame(rows, rows + [row], p, |rows|);
  }

  // ---- Rows made from contributions ----

  ghost predicate Sound(rows: seq<Row>) {
    forall i :: 0 <= i < |rows| ==> 0.0 <= rows[i].withdrawn <= rows[i].quantity
  }

  // Contributions filed under one key agree on p.
  ghost predicate Coherent(cs: seq<Contribution>, p: Slot -> bool) {
    forall c, d :: c in cs && d in cs && KeyOf(c.At()) == KeyOf(d.At()) ==> p(c.At()) == p(d.At())
  }

  // A row copies a contribution of cs, is filed under its key, and nothing is withdrawn yet.
  ghost predicate RowOf(row: Row, cs: seq<Contribution>) {
    && row.first in cs
    && row.key == KeyOf(row.first.At())
    && row.withdrawn == 0.0 <= row.quantity
  }

  lemma FileRows(rows: seq<Row>, cs: seq<Contribution>, c: Contribution, key: string)
    requires forall i :: 0 <= i < |rows| ==> RowOf(rows[i], cs)
    requires key == KeyOf(c.At())
    ensures forall i :: 0 <= i < |File(rows, key, c)| ==> RowOf(File(rows, key, c)[i], cs + [c])
  {
    var after := File(rows, key, c);
    forall i | 0 <= i < |after|
      ensures RowOf(after[i], cs + [c])
    {
      if i < |rows| {
        assert RowOf(rows[i], cs) && after[i].first == rows[i].first && after[i].key == rows[i].key;
      } else {
        assert after[i] == Row(key, c, c.quantity, 0.0) && c == (cs + [c])[|cs|];
      }
    }
  }

  lemma {:induction false} GroupRowsOf(cs: seq<Contribution>)
    ensures forall i :: 0 <= i < |Group(cs)| ==> RowOf(Group(cs)[i], cs)
  {
    if |cs| > 0 {
      var rest, c := cs[..|cs| - 1], cs[|cs| - 1];
      GroupRowsOf(rest);
      assert cs == rest + [c];
      FileRows(Group(rest), rest, c, KeyOf(c.At()));
    }
  }

  ghost predicate DistinctKeys(rows: seq<Row>) {
    forall i, j :: 0 <= i < j < |rows| ==> rows[i].key != rows[j].key
  }

  lemma FileDistinct(rows: seq<Row>, key: string, c: Contribution)
    requires DistinctKeys(rows)
    ensures DistinctKeys(File(rows, key, c))
  {
    var after := File(rows, key, c);
    assert forall i :: 0 <= i < |rows| ==> after[i].key == rows[i].key;
  }

  lemma {:induction false} GroupDistinct(cs: seq<Contribution>)
    ensures DistinctKeys(Group(cs))
  {
    if |cs| > 0 {
      GroupDistinct(cs[..|cs| - 1]);
      FileDistinct(Group(cs[..|cs| - 1]), KeyOf(cs[|cs| - 1].At()), cs[|cs| - 1]);
    }
  }

  lemma StockTopUp(rows: seq<Row>, i: nat, c: Contribution, p: Slot -> bool)
    requires i < |rows| && rows[i].withdrawn == 0.0 <= rows[i].quantity
    requires p(rows[i].At()) == p(c.At())
    ensures Stock(TopUp(rows, i, c), p) == Stock(rows, p) + (if p(c.At()) then c.quantity else 0.0)
  {
    StockUpdate(rows, i, rows[i].(quantity := rows[i].quantity + c.quantity), p, |rows|);
  }

  lemma FileStock(rows: seq<Row>, key: string, c: Contribution, p: Slot -> bool)
    requires var i := FindKey(rows, key);
             i < |rows| ==> rows[i].withdrawn == 0.0 <= rows[i].quantity && p(rows[i].At()) == p(c.At())
    ensures Stock(File(rows, key, c), p) == Stock(rows, p) + (if p(c.At()) then c.quantity else 0.0)
  {
    var i := FindKey(rows, key);
    if i < |rows| {
      StockTopUp(rows, i, c, p);
    } else {
      StockAppend(rows, Row(key, c, c.quantity, 0.0), p);
    }
  }

  lemma {:induction false} GroupStock(cs: seq<Contribution>, p: Slot -> bool)
    requires Coherent(cs, p)
    ensures Stock(Group(cs), p) == Contributed(cs, p)
  {
    if |cs| > 0 {
      var rest, c := cs[..|cs| - 1], cs[|cs| - 1];
      GroupStock(rest, p);
      RowsOfFront(cs);
      KnownRow(cs, Group(rest), KeyOf(c.At()), c, p);
      FileStock(Group(rest), KeyOf(c.At()), c, p);
    }
  }

  lemma RowsOfFront(cs: seq<Contribution>)
    requires |cs| > 0
    ensures var rows := Group(cs[..|cs| - 1]); forall i :: 0 <= i < |rows| ==> RowOf(rows[i], cs)
  {
    var rest := cs[..|cs| - 1];
    GroupRowsOf(rest);
    forall i | 0 <= i < |Group(rest)| ensures RowOf(Group(rest)[i], cs) {
      assert RowOf(Group(rest)[i], rest);
    }
  }

  lemma KnownRow(cs: seq<Contribution>, rows: seq<Row>, key: string, c: Contribution, p: Slot -> bool)
    requires Coherent(cs, p) && c in cs && key == KeyOf(c.At())
    requires forall i :: 0 <= i < |rows| ==> RowOf(rows[i], cs)
    ensures var i := FindKey(rows, key);
            i < |rows| ==> rows[i].withdrawn == 0.0 <= rows[i].quantity && p(rows[i].At()) == p(c.At())
  {
    var i := FindKey(rows, key);
    if i < |rows| {
      assert RowOf(rows[i], cs);
    }
  }

  // ---- One withdrawal ----

  lemma {:induction false} AbsorbFrame(rows: seq<Row>, w: Withdrawal, n: nat)
    requires n <= |rows| && Sound(rows)
    ensures var (after, left) := AbsorbFirst(rows, w, n);
            && Sound(after)
            && 0.0 <= left <= w.quantity
            && (forall i :: 0 <= i < |rows| ==> after[i].(withdrawn := rows[i].withdrawn) == rows[i])
            && (forall i :: n <= i < |rows| ==> after[i] == rows[i])
  {
    if n > 0 {
      AbsorbFrame(rows, w, n - 1);
    }
  }

  lemma TakeStock(rows: seq<Row>, i: nat, w: Withdrawal, left: real, p: Slot -> bool, charged: bool)
    requires i < |rows| && Sound(rows) && left >= 0.0
    requires MatchesSlot(rows[i].At(), w) ==> p(rows[i].At()) == charged
    ensures Stock(TakeAt(rows, i, w, left), p)
         == Stock(rows, p) - (if charged then Take(rows[i], w, left) else 0.0)
  {
    var used := Take(rows[i], w, left);
    StockUpdate(rows, i, rows[i].(withdrawn := rows[i].withdrawn + used), p, |rows|);
  }

  lemma {:induction false} AbsorbStock(rows: seq<Row>, w: Withdrawal, n: nat, p: Slot -> bool, charged: bool)
    requires n <= |rows| && Sound(rows)
    requires forall i :: 0 <= i < |rows| && MatchesSlot(rows[i].At(), w) ==> p(rows[i].At()) == charged
    ensures var (after, left) := AbsorbFirst(rows, w, n);
            Stock(after, p) == Stock(rows, p) - (if charged then w.quantity - left else 0.0)
  {
    if n > 0 {
      AbsorbStock(rows, w, n - 1, p, charged);
      AbsorbFrame(rows, w, n - 1);
      var (before, left) := AbsorbFirst(rows, w, n - 1);
      assert before[n - 1] == rows[n - 1];
      TakeStock(before, n - 1, w, left, p, charged);
    }
  }

  lemma {:induction false} ReplayFrame(rows: seq<Row>, ws: seq<Withdrawal>)
    requires Sound(rows)
    ensures Sound(Replay(rows, ws))
    ensures forall i :: 0 <= i < |rows| ==>
              Replay(rows, ws)[i].(withdrawn := rows[i].withdrawn) == rows[i]
  {
    if |ws| > 0 {
      ReplayFrame(rows, ws[..|ws| - 1]);
      AbsorbFrame(Replay(rows, ws[..|ws| - 1]), ws[|ws| - 1], |rows|);
    }
  }

  // ---- Conservation ----

  // A withdrawal can only touch slots inside p, or only slots outside it.
  ghost predicate Splits(ws: seq<Withdrawal>, p: Slot -> bool, charged: Withdrawal -> bool) {
    forall w, s :: w in ws && MatchesSlot(s, w) ==> p(s) == charged(w)
  }

  lemma {:induction false} ReplayStock(rows: seq<Row>, ws: seq<Withdrawal>, p: Slot -> bool,
                                       charged: Withdrawal -> bool)
    requires Sound(rows) && FullyAbsorbed(rows, ws) && Splits(ws, p, charged)
    ensures Stock(Replay(rows, ws), p) == Stock(rows, p) - Withdrawn(ws, charged)
  {
    if |ws| > 0 {
      var rest, w := ws[..|ws| - 1], ws[|ws| - 1];
      ReplayStock(rows, rest, p, charged);
      ReplayFrame(rows, rest);
      assert w in ws;
      AbsorbStock(Replay(rows, rest), w, |rows|, p, charged(w));
    }
  }

  /** What is shown as available inside p is what was contributed there minus what was
      withdrawn there, whichever rows the greedy allocation chose. */
  lemma Conservation(cs: seq<Contribution>, ws: seq<Withdrawal>, p: Slot -> bool,
                     charged: Withdrawal -> bool)
    requires Coherent(cs, p) && Splits(ws, p, charged) && FullyAbsorbed(Group(cs), ws)
    ensures Stock(NetRows(cs, ws), p) == Contributed(cs, p) - Withdrawn(ws, charged)
  {
    GroupSound(cs);
    GroupStock(cs, p);
    ReplayStock(Group(cs), ws, p, charged);
  }

  /** Over the whole group the law needs nothing about keys or match strengths. */
  lemma TotalConservation(cs: seq<Contribution>, ws: seq<Withdrawal>)
    requires FullyAbsorbed(Group(cs), ws)
    ensures Stock(NetRows(cs, ws), _ => true) == Contributed(cs, _ => true) - Withdrawn(ws, _ => true)
  {
    var p: Slot -> bool := _ => true;
    var charged: Withdrawal -> bool := _ => true;
    Conservation(cs, ws, p, charged);
  }

  function InClass(material: string, band: int, location: string): Slot -> bool {
    (s: Slot) => s.material == material && s.band == band && s.location == location
  }

  function FromClass(material: string, band: int, location: string): Withdrawal -> bool {
    (w: Withdrawal) => Lower(w.material) == material && w.band == band && w.warehouse == location
  }

  ghost predicate Unambiguous(cs: seq<Contribution>) {
    forall c, d :: c in cs && d in cs && KeyOf(c.At()) == KeyOf(d.At()) ==> c.At() == d.At()
  }

  /** Every match strength stays inside one (material, band, location) class, so the law
      holds class by class, old withdrawals included. */
  lemma ClassConservation(cs: seq<Contribution>, ws: seq<Withdrawal>, material: string, band: int,
                          location: string)
    requires Unambiguous(cs) && FullyAbsorbed(Group(cs), ws)
    ensures Stock(NetRows(cs, ws), InClass(material, band, location))
         == Contributed(cs, InClass(material, band, location))
          - Withdrawn(ws, FromClass(material, band, location))
  {
    Conservation(cs, ws, InClass(material, band, location), FromClass(material, band, location));
  }

  // ---- One withdrawal in closed form ----

  function Share(row: Row, w: Withdrawal): real {
    if MatchesSlot(row.At(), w) then row.Available() else 0.0
  }

  // What the first n rows could give to the withdrawal.
  function Matching(rows: seq<Row>, w: Withdrawal, n: nat): real
    requires n <= |rows|
  {
    if n == 0 then 0.0 else Matching(rows, w, n - 1) + Share(rows[n - 1], w)
  }

  function Excess(a: real, b: real): real {
    if a > b then a - b else 0.0
  }

  lemma {:induction false} LeftOver(rows: seq<Row>, w: Withdrawal, n: nat)
    requires n <= |rows| && Sound(rows)
    ensures AbsorbFirst(rows, w, n).1 == Excess(w.quantity, Matching(rows, w, n))
    ensures Matching(rows, w, n) >= 0.0
  {
    if n > 0 {
      LeftOver(rows, w, n - 1);
      AbsorbFrame(rows, w, n - 1);
      assert AbsorbFirst(rows, w, n - 1).0[n - 1] == rows[n - 1];
    }
  }

  function LeftAt(rows: seq<Row>, w: Withdrawal, n: nat): real
    requires n <= |rows|
  {
    Excess(w.quantity, Matching(rows, w, n))
  }

  lemma {:induction false} AbsorbTail(b: seq<Row>, w: Withdrawal, m: nat, n: nat)
    requires m <= n <= |b| && Sound(b)
    ensures AbsorbFirst(b, w, n).1 <= AbsorbFirst(b, w, m).1
    ensures forall i :: 0 <= i < m ==> AbsorbFirst(b, w, n).0[i] == AbsorbFirst(b, w, m).0[i]
  {
    if m < n {
      AbsorbTail(b, w, m, n - 1);
      AbsorbFrame(b, w, n - 1);
    }
  }

  lemma AbsorbAt(rows: seq<Row>, w: Withdrawal, i: nat)
    requires i < |rows| && Sound(rows)
    ensures Absorb(rows, w)[i].At() == rows[i].At()
    ensures Absorb(rows, w)[i].Available() == rows[i].Available() - Take(rows[i], w, LeftAt(rows, w, i))
  {
    LeftOver(rows, w, i);
    AbsorbFrame(rows, w, i);
    AbsorbTail(rows, w, i + 1, |rows|);
    AbsorbFrame(rows, w, |rows|);
    assert Absorb(rows, w)[i].(withdrawn := rows[i].withdrawn) == rows[i];
  }

  // ---- Monotonicity ----

  // b has the rows of a in the same places, each with at least as much available.
  ghost predicate Covers(a: seq<Row>, b: seq<Row>) {
    && Sound(a) && Sound(b)
    && |a| <= |b|
    && forall i :: 0 <= i < |a| ==> a[i].At() == b[i].At() && a[i].Available() <= b[i].Available()
  }

  lemma {:induction false} MatchingCovers(a: seq<Row>, b: seq<Row>, w: Withdrawal, n: nat)
    requires Covers(a, b) && n <= |a|
    ensures Matching(a, w, n) <= Matching(b, w, n)
  {
    if n > 0 {
      MatchingCovers(a, b, w, n - 1);
    }
  }

  lemma {:induction false} MatchingGrows(rows: seq<Row>, w: Withdrawal, m: nat, n: nat)
    requires m <= n <= |rows|
    ensures Matching(rows, w, m) <= Matching(rows, w, n)
  {
    if m < n {
      MatchingGrows(rows, w, m, n - 1);
    }
  }

  lemma AbsorbSound(rows: seq<Row>, w: Withdrawal)
    requires Sound(rows)
    ensures Sound(Absorb(rows, w))
  {
    AbsorbFrame(rows, w, |rows|);
  }

  lemma AbsorbCovers(a: seq<Row>, b: seq<Row>, w: Withdrawal)
    requires Covers(a, b)
    ensures Covers(Absorb(a, w), Absorb(b, w))
    ensures 0.0 <= Unmet(b, w) <= Unmet(a, w)
  {
    AbsorbSound(a, w);
    AbsorbSound(b, w);
    forall i | 0 <= i < |a|
      ensures Absorb(a, w)[i].At() == Absorb(b, w)[i].At() && Absorb(a, w)[i].Available() <= Absorb(b, w)[i].Available()
    {
      AbsorbAt(a, w, i);
      AbsorbAt(b, w, i);
      MatchingCovers(a, b, w, i);
    }
    LeftOver(a, w, |a|);
    LeftOver(b, w, |b|);
    MatchingCovers(a, b, w, |a|);
    MatchingGrows(b, w, |a|, |b|);
  }

  lemma {:induction false} ReplayCovers(a: seq<Row>, b: seq<Row>, ws: seq<Withdrawal>)
    requires Covers(a, b)
    ensures Covers(Replay(a, ws), Replay(b, ws))
    ensures FullyAbsorbed(a, ws) ==> FullyAbsorbed(b, ws)
  {
    if |ws| > 0 {
      var rest := ws[..|ws| - 1];
      ReplayCovers(a, b, rest);
      AbsorbCovers(Replay(a, rest), Replay(b, rest), ws[|ws| - 1]);
    }
  }

  lemma FileCovers(rows: seq<Row>, key: string, c: Contribution)
    requires Sound(rows)
    ensures Covers(rows, File(rows, key, c))
  {
  }

  lemma GroupSound(cs: seq<Contribution>)
    ensures Sound(Group(cs))
  {
    GroupRowsOf(cs);
    assert forall i :: 0 <= i < |Group(cs)| ==> RowOf(Group(cs)[i], cs);
  }

  /** A contribution that sorts last lowers no row and breaks no past withdrawal. */
  lemma LaterContributionOnlyAdds(cs: seq<Contribution>, c: Contribution, ws: seq<Withdrawal>)
    ensures Covers(NetRows(cs, ws), NetRows(cs + [c], ws))
    ensures FullyAbsorbed(Group(cs), ws) ==> FullyAbsorbed(Group(cs + [c]), ws)
  {
    assert (cs + [c])[..|cs|] == cs;
    GroupSound(cs);
    FileCovers(Group(cs), KeyOf(c.At()), c);
    ReplayCovers(Group(cs), Group(cs + [c]), ws);
  }

  /** Sorting last matters: rows are served in the order of their first contribution, so an
      earlier one can push another member's row to the front of an old withdrawal. */
  lemma EarlierContributionCanLowerARow()
    ensures var a := Contribution("a", "gold", 1, 5, "port", 10.0);
            var b := Contribution("b", "gold", 1, 5, "port", 10.0);
            var c := Contribution("b", "gold", 1, 5, "port", 1.0);
            var w := Withdrawal("gold", 1, None, None, "port", 10.0);
            var before, after := NetRows([a, b], [w]), NetRows([c, a, b], [w]);
            && |before| == |after| == 2
            && before[1].At() == after[0].At() == b.At()
            && before[1].Available() == 10.0 && after[0].Available() == 1.0
  {
    var a := Contribution("a", "gold", 1, 5, "port", 10.0);
    var b := Contribution("b", "gold", 1, 5, "port", 10.0);
    var c := Contribution("b", "gold", 1, 5, "port", 1.0);
    var w := Withdrawal("gold", 1, None, None, "port", 10.0);
    var ka, kb := KeyOf(a.At()), KeyOf(b.At());
    assert ka[0] == 'a' && kb[0] == 'b';
    GroupTwo(a, b, ka, kb);
    GroupTwo(c, a, kb, ka);
    GroupThird([c, a], b, kb);
    assert [c, a] + [b] == [c, a, b];
    var before, after := [Row(ka, a, 10.0, 0.0), Row(kb, b, 10.0, 0.0)], [Row(kb, c, 11.0, 0.0), Row(ka, a, 10.0, 0.0)];
    assert Group([c, a, b]) == after;
    ReplayOne(before, w);
    ReplayOne(after, w);
    AbsorbTwo(before, w);
    AbsorbTwo(after, w);
  }

  lemma GroupTwo(c: Contribution, d: Contribution, kc: string, kd: string)
    requires kc == KeyOf(c.At()) && kd == KeyOf(d.At()) && kc != kd
    ensures Group([c, d]) == [Row(kc, c, c.quantity, 0.0), Row(kd, d, d.quantity, 0.0)]
  {
    assert [c, d][..1] == [c] && [c][..0] == [];
    assert Group([c]) == [Row(kc, c, c.quantity, 0.0)];
    assert FindKey(Group([c]), kd) == 1;
  }

  lemma GroupThird(cs: seq<Contribution>, d: Contribution, key: string)
    requires key == KeyOf(d.At())
    ensures Group(cs + [d]) == File(Group(cs), key, d)
  {
    assert (cs + [d])[..|cs|] == cs;
  }

  lemma AbsorbTwo(rows: seq<Row>, w: Withdrawal)
    requires |rows| == 2
    ensures var left := w.quantity - Take(rows[0], w, w.quantity);
            Absorb(rows, w) == [rows[0].(withdrawn := rows[0].withdrawn + Take(rows[0], w, w.quantity)),
                                rows[1].(withdrawn := rows[1].withdrawn + Take(rows[1], w, left))]
  {
    var one := [rows[0].(withdrawn := rows[0].withdrawn + Take(rows[0], w, w.quantity)), rows[1]];
    assert AbsorbFirst(rows, w, 0) == (rows, w.quantity);
    assert AbsorbFirst(rows, w, 1).0 == one;
  }

  lemma ReplayOne(rows: seq<Row>, w: Withdrawal)
    ensures Replay(rows, [w]) == Absorb(rows, w)
  {
    assert [w][..0] == [];
    assert Replay(rows, []) == rows;
  }
}
