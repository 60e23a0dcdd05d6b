// Which rows stand for which contributions, and which rows a withdrawal reaches, told by the
// stored fields alone.
module MaterialScope {
  import opened Options
  import opened MaterialKeys
  import opened MaterialReplay
  import opened MaterialLaws
  import opened MaterialExact
  import opened MaterialOrder

  // ---- Rows ----

  ghost predicate SamePosition(c: Contribution, d: Contribution) {
    && c.user == d.user && SameText(c.material, d.material)
    && c.band == d.band && c.quality == d.quality && c.location == d.location
  }

  /** Two contributions of plain names are filed in one row exactly when they agree on user,
      material in either case, band, quality and location. */
  lemma OneRowIffSamePosition(c: Contribution, d: Contribution)
    requires Plain(c.material) && Plain(d.material)
    ensures KeyOf(c.At()) == KeyOf(d.At()) <==> SamePosition(c, d)
  {
    LowerPlain(c.material);
    LowerPlain(d.material);
    KeyInjective(c.At(), d.At());
    LowerIff(c.material, d.material);
  }

  // cs[p] is the first of cs to have the row's key, and the row's fields are its.
  ghost predicate OpenedBy(cs: seq<Contribution>, row: Row, p: nat) {
    && p < |cs| && row.first == cs[p] && row.key == KeyOf(cs[p].At())
    && forall q :: 0 <= q < p ==> KeyOf(cs[q].At()) != row.key
  }

  ghost predicate OpenedInOrder(cs: seq<Contribution>, rows: seq<Row>, places: seq<nat>) {
    && |places| == |rows|
    && (forall i :: 0 <= i < |rows| ==> OpenedBy(cs, rows[i], places[i]))
    && (forall i, j :: 0 <= i < j < |places| ==> places[i] < places[j])
  }

  lemma OpenedStays(cs: seq<Contribution>, c: Contribution, row: Row, p: nat)
    requires OpenedBy(cs, row, p)
    ensures OpenedBy(cs + [c], row, p)
  {
  }

  ghost predicate HasRow(rows: seq<Row>, key: string) {
    exists i :: 0 <= i < |rows| && rows[i].key == key
  }

  lemma EveryKeyHasRow(cs: seq<Contribution>)
    ensures forall d :: d in cs ==> HasRow(Group(cs), KeyOf(d.At()))
  {
    forall d | d in cs ensures HasRow(Group(cs), KeyOf(d.At())) {
      var i := KeyHasRow(cs, d);
    }
  }

  lemma NextOpens(cs: seq<Contribution>, places: seq<nat>, c: Contribution, all: seq<Contribution>)
    returns (after: seq<nat>)
    requires OpenedInOrder(cs, Group(cs), places) && all == cs + [c]
    ensures OpenedInOrder(all, Group(all), after)
  {
    EveryKeyHasRow(cs);
    GroupAppend(cs, c);
    after := FileOpens(cs, Group(cs), places, c);
  }

  lemma FileOpens(cs: seq<Contribution>, rows: seq<Row>, places: seq<nat>, c: Contribution) returns (after: seq<nat>)
    requires OpenedInOrder(cs, rows, places)
    requires forall d :: d in cs ==> HasRow(rows, KeyOf(d.At()))
    ensures OpenedInOrder(cs + [c], File(rows, KeyOf(c.At()), c), after)
  {
    var k := FindKey(rows, KeyOf(c.At()));
    if k < |rows| {
      after := places;
      TopUpOpens(cs, rows, places, c, k);
    } else {
      after := places + [|cs|];
      FirstOfItsKey(cs, rows, c);
      NewRowOpens(cs, rows, places, c, Row(KeyOf(c.At()), c, c.quantity, 0.0));
    }
  }

  lemma TopUpOpens(cs: seq<Contribution>, rows: seq<Row>, places: seq<nat>, c: Contribution, k: nat)
    requires OpenedInOrder(cs, rows, places) && k < |rows|
    ensures OpenedInOrder(cs + [c], TopUp(rows, k, c), places)
  {
    forall i | 0 <= i < |rows| ensures OpenedBy(cs + [c], TopUp(rows, k, c)[i], places[i]) {
      OpenedStays(cs, c, rows[i], places[i]);
    }
  }

  lemma NewRowOpens(cs: seq<Contribution>, rows: seq<Row>, places: seq<nat>, c: Contribution, row: Row)
    requires OpenedInOrder(cs, rows, places) && row == Row(KeyOf(c.At()), c, c.quantity, 0.0)
    requires forall q :: 0 <= q < |cs| ==> KeyOf(cs[q].At()) != KeyOf(c.At())
    ensures OpenedInOrder(cs + [c], rows + [row], places + [|cs|])
  {
    PlacesIncrease(cs, rows, places);
    forall i | 0 <= i < |rows| + 1 ensures OpenedBy(cs + [c], (rows + [row])[i], (places + [|cs|])[i]) {
      OneOpened(cs, rows, places, c, row, i);
    }
  }

  lemma OneOpened(cs: seq<Contribution>, rows: seq<Row>, places: seq<nat>, c: Contribution, row: Row, i: nat)
    requires OpenedInOrder(cs, rows, places) && row == Row(KeyOf(c.At()), c, c.quantity, 0.0) && i <= |rows|
    requires forall q :: 0 <= q < |cs| ==> KeyOf(cs[q].At()) != KeyOf(c.At())
    ensures OpenedBy(cs + [c], (rows + [row])[i], (places + [|cs|])[i])
  {
    if i < |rows| {
      OpenedStays(cs, c, rows[i], places[i]);
    } else {
      OpensLast(cs, c, row);
    }
  }

  lemma PlacesIncrease(cs: seq<Contribution>, rows: seq<Row>, places: seq<nat>)
    requires OpenedInOrder(cs, rows, places)
    ensures forall i, j :: 0 <= i < j < |places| + 1 ==> (places + [|cs|])[i] < (places + [|cs|])[j]
  {
    forall i | 0 <= i < |places| ensures places[i] < |cs| {
      assert OpenedBy(cs, rows[i], places[i]);
    }
  }

  lemma OpensLast(cs: seq<Contribution>, c: Contribution, row: Row)
    requires row == Row(KeyOf(c.At()), c, c.quantity, 0.0)
    requires forall q :: 0 <= q < |cs| ==> KeyOf(cs[q].At()) != KeyOf(c.At())
    ensures OpenedBy(cs + [c], row, |cs|)
  {
  }

  lemma FirstOfItsKey(cs: seq<Contribution>, rows: seq<Row>, c: Contribution)
    requires FindKey(rows, KeyOf(c.At())) == |rows| && forall d :: d in cs ==> HasRow(rows, KeyOf(d.At()))
    ensures forall q :: 0 <= q < |cs| ==> KeyOf(cs[q].At()) != KeyOf(c.At())
  {
    forall q | 0 <= q < |cs| ensures KeyOf(cs[q].At()) != KeyOf(c.At()) {
      assert cs[q] in cs && HasRow(rows, KeyOf(cs[q].At()));
    }
  }

  /** The rows come in the order of the contributions that open them. */
  lemma {:induction false} RowsInOpeningOrder(cs: seq<Contribution>) returns (places: seq<nat>)
    ensures OpenedInOrder(cs, Group(cs), places)
  {
    if |cs| == 0 {
      places := [];
    } else {
      var rest, c := cs[..|cs| - 1], cs[|cs| - 1];
      assert cs == rest + [c];
      var before := RowsInOpeningOrder(rest);
      places := NextOpens(rest, before, c, cs);
    }
  }

  // ---- What one withdrawal reaches ----

  // The material in either case, the band and the location; the quality when one is given; the
  // user when quality and contributor are given.
  ghost predicate InScope(row: Row, w: Withdrawal) {
    && SameText(row.first.material, w.material)
    && row.first.band == w.band
    && row.first.location == w.warehouse
    && (w.quality.Some? ==> row.first.quality == w.quality.value)
    && (w.quality.Some? && w.contributor.Some? ==> row.first.user == w.contributor.value)
  }

  lemma ReachedIffInScope(row: Row, w: Withdrawal)
    ensures MatchesSlot(row.At(), w) <==> InScope(row, w)
  {
    LowerIff(row.first.material, w.material);
  }

  /** A withdrawal changes only the withdrawn amount, and only of rows in its scope. */
  lemma OnlyScopeChanges(rows: seq<Row>, w: Withdrawal, i: nat)
    requires i < |rows| && Sound(rows)
    ensures Absorb(rows, w)[i].(withdrawn := rows[i].withdrawn) == rows[i]
    ensures 0.0 <= Absorb(rows, w)[i].Available() <= rows[i].Available()
    ensures Absorb(rows, w)[i] != rows[i] ==> InScope(rows[i], w)
  {
    AbsorbFrame(rows, w, |rows|);
    AbsorbAt(rows, w, i);
    ReachedIffInScope(rows[i], w);
    LeftOver(rows, w, i);
  }

  lemma {:induction false} MatchingStep(rows: seq<Row>, w: Withdrawal, i: nat, n: nat)
    requires i < n <= |rows|
    ensures Matching(rows, w, i) + Share(rows[i], w) <= Matching(rows, w, n)
  {
    if i < n - 1 {
      MatchingStep(rows, w, i, n - 1);
    }
  }

  /** Something stays unmet only when every row in the scope is empty. */
  lemma UnmetMeansScopeEmpty(rows: seq<Row>, w: Withdrawal, i: nat)
    requires i < |rows| && Sound(rows) && Unmet(rows, w) > 0.0 && InScope(rows[i], w)
    ensures Absorb(rows, w)[i].Available() == 0.0
  {
    LeftOver(rows, w, |rows|);
    AbsorbAt(rows, w, i);
    ReachedIffInScope(rows[i], w);
    MatchingStep(rows, w, i, |rows|);
  }

  /** Rows are served in order: a row gives only when those before it in the scope are empty. */
  lemma EarlierRowsFirst(rows: seq<Row>, w: Withdrawal, i: nat, j: nat)
    requires i < j < |rows| && Sound(rows) && InScope(rows[i], w) && Absorb(rows, w)[j] != rows[j]
    ensures Absorb(rows, w)[i].Available() == 0.0
  {
    OnlyScopeChanges(rows, w, j);
    AbsorbFrame(rows, w, |rows|);
    AbsorbAt(rows, w, i);
    AbsorbAt(rows, w, j);
    ReachedIffInScope(rows[i], w);
    MatchingStep(rows, w, i, j);
  }

  /** What the rows give is the withdrawal's quantity less what stays unmet. */
  lemma GivenIsQuantity(rows: seq<Row>, w: Withdrawal)
    requires Sound(rows)
    ensures 0.0 <= Unmet(rows, w) <= w.quantity
    ensures Stock(rows, _ => true) - Stock(Absorb(rows, w), _ => true) == w.quantity - Unmet(rows, w)
  {
    var all: Slot -> bool := _ => true;
    AbsorbFrame(rows, w, |rows|);
    AbsorbStock(rows, w, |rows|, all, true);
  }

  // ---- Conservation for each quality ----

  function InQuality(material: string, band: int, quality: int, location: string): Slot -> bool {
    (s: Slot) => s.material == material && s.band == band && s.quality == quality && s.location == location
  }

  function FromQuality(material: string, band: int, quality: int, location: string): Withdrawal -> bool {
    (w: Withdrawal) =>
      Lower(w.material) == material && w.band == band && w.quality == Some(quality) && w.warehouse == location
  }

  /** Where every withdrawal of a material, band and location names its quality, with or without a
      contributor, each quality keeps its own balance. */
  lemma QualityConservation(cs: seq<Contribution>, ws: seq<Withdrawal>, material: string, band: int, quality: int,
                            location: string)
    requires Unambiguous(cs) && FullyAbsorbed(Group(cs), ws)
    requires forall w :: w in ws && FromClass(material, band, location)(w) ==> w.quality.Some?
    ensures Stock(NetRows(cs, ws), InQuality(material, band, quality, location))
         == Contributed(cs, InQuality(material, band, quality, location))
          - Withdrawn(ws, FromQuality(material, band, quality, location))
  {
    var p, charged := InQuality(material, band, quality, location), FromQuality(material, band, quality, location);
    forall w, s | w in ws && MatchesSlot(s, w)
      ensures p(s) == charged(w)
    {
      if s.material == material && s.band == band && s.location == location {
        assert FromClass(material, band, location)(w);
      }
    }
    Conservation(cs, ws, p, charged);
  }
}
