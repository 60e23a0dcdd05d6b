// Where a contribution may be inserted into the created_at order without lowering anyone's view.
module MaterialOrder {
  import opened Options
  import opened MaterialKeys
  import opened MaterialReplay
  import opened MaterialLaws
  import opened MaterialExact

  // ---- A row moved to the front ----

  function ClassOf(s: Slot): Slot -> bool {
    InClass(s.material, s.band, s.location)
  }

  // What the rows from m to n hold inside p.
  function Held(rows: seq<Row>, p: Slot -> bool, m: nat, n: nat): real
    requires m <= n <= |rows|
  {
    StockFirst(rows, p, n) - StockFirst(rows, p, m)
  }

  ghost predicate Better(x: Row, y: Row) {
    x.At() == y.At() && x.Available() <= y.Available()
  }

  // In b the row at m + l of a stands at m instead, ahead of the l rows it has jumped.
  ghost predicate Moved(a: seq<Row>, b: seq<Row>, m: nat, l: nat) {
    && Sound(a) && Sound(b) && |a| == |b| && m + l < |a|
    && (forall j {:trigger b[j]} :: 0 <= j < m ==> Better(a[j], b[j]))
    && (forall j {:trigger b[j]} :: m < j <= m + l ==> Better(a[j - 1], b[j]))
    && (forall j {:trigger b[j]} :: m + l < j < |a| ==> Better(a[j], b[j]))
    && a[m + l].At() == b[m].At()
  }

  // The moved row is empty, or has grown by what the jumped rows of its class still hold.
  ghost predicate Compensated(a: seq<Row>, b: seq<Row>, m: nat, l: nat)
    requires m + l < |a| && m < |b|
  {
    var x, y := a[m + l], b[m];
    x.Available() == 0.0 || y.Available() >= x.Available() + Held(a, ClassOf(x.At()), m, m + l)
  }

  lemma {:induction false} HeldNonNegative(rows: seq<Row>, p: Slot -> bool, m: nat, n: nat)
    requires m <= n <= |rows|
    ensures Held(rows, p, m, n) >= 0.0
  {
    if m < n {
      HeldNonNegative(rows, p, m, n - 1);
    }
  }

  lemma {:induction false} MatchingAhead(a: seq<Row>, b: seq<Row>, m: nat, l: nat, w: Withdrawal, n: nat)
    requires Moved(a, b, m, l) && n <= m
    ensures Matching(a, w, n) <= Matching(b, w, n)
  {
    if n > 0 {
      MatchingAhead(a, b, m, l, w, n - 1);
      assert Better(a[n - 1], b[n - 1]);
    }
  }

  lemma {:induction false} MatchingJumped(a: seq<Row>, b: seq<Row>, m: nat, l: nat, w: Withdrawal, n: nat)
    requires Moved(a, b, m, l) && m <= n <= m + l
    ensures Matching(a, w, n) + Share(b[m], w) <= Matching(b, w, n + 1)
  {
    if n == m {
      MatchingAhead(a, b, m, l, w, m);
    } else {
      MatchingJumped(a, b, m, l, w, n - 1);
      assert Better(a[n - 1], b[n]);
    }
  }

  lemma {:induction false} MatchingBehind(a: seq<Row>, b: seq<Row>, m: nat, l: nat, w: Withdrawal, n: nat)
    requires Moved(a, b, m, l) && a[m + l].Available() <= b[m].Available() && m + l < n <= |a|
    ensures Matching(a, w, n) <= Matching(b, w, n)
  {
    if n == m + l + 1 {
      MatchingJumped(a, b, m, l, w, m + l);
    } else {
      MatchingBehind(a, b, m, l, w, n - 1);
      assert Better(a[n - 1], b[n - 1]);
    }
  }

  // A row that held less and is reached with more left to give still holds less.
  lemma BetterAfter(a: seq<Row>, b: seq<Row>, w: Withdrawal, i: nat, j: nat)
    requires Sound(a) && Sound(b) && i < |a| && j < |b| && Better(a[i], b[j])
    requires Matching(a, w, i) <= Matching(b, w, j)
    ensures Better(Absorb(a, w)[i], Absorb(b, w)[j])
  {
    AbsorbAt(a, w, i);
    AbsorbAt(b, w, j);
  }

  // Where the i-th row of a stands in b.
  function Spot(i: nat, m: nat, l: nat): nat {
    if i < m || i > m + l then i else if i == m + l then m else i + 1
  }

  lemma StillBetter(a: seq<Row>, b: seq<Row>, m: nat, l: nat, w: Withdrawal, i: nat)
    requires Moved(a, b, m, l) && a[m + l].Available() <= b[m].Available() && i < |a| && i != m + l
    ensures Better(Absorb(a, w)[i], Absorb(b, w)[Spot(i, m, l)])
  {
    if i < m {
      MatchingAhead(a, b, m, l, w, i);
    } else if i < m + l {
      MatchingJumped(a, b, m, l, w, i);
    } else {
      MatchingBehind(a, b, m, l, w, i);
    }
    BetterAfter(a, b, w, i, Spot(i, m, l));
  }

  lemma StillMoved(a: seq<Row>, b: seq<Row>, m: nat, l: nat, w: Withdrawal)
    requires Moved(a, b, m, l) && a[m + l].Available() <= b[m].Available()
    ensures Moved(Absorb(a, w), Absorb(b, w), m, l)
  {
    var x, y := Absorb(a, w), Absorb(b, w);
    AbsorbSound(a, w);
    AbsorbSound(b, w);
    forall j | 0 <= j < |a| && j != m
      ensures Better(x[if j < m || j > m + l then j else j - 1], y[j])
    {
      StillBetter(a, b, m, l, w, if j < m || j > m + l then j else j - 1);
    }
    AbsorbAt(a, w, m + l);
    AbsorbAt(b, w, m);
  }

  // When every matching row lies in p, the rows before n give from p what the withdrawal has lost.
  lemma {:induction false} GivenFirst(rows: seq<Row>, w: Withdrawal, p: Slot -> bool, n: nat)
    requires n <= |rows| && Sound(rows) && forall s :: MatchesSlot(s, w) ==> p(s)
    ensures StockFirst(Absorb(rows, w), p, n) == StockFirst(rows, p, n) - (w.quantity - LeftAt(rows, w, n))
  {
    if n > 0 {
      GivenFirst(rows, w, p, n - 1);
      AbsorbAt(rows, w, n - 1);
      LeftOver(rows, w, n - 1);
    }
  }

  lemma {:induction false} HeldShrinks(rows: seq<Row>, w: Withdrawal, p: Slot -> bool, m: nat, n: nat)
    requires m <= n <= |rows| && Sound(rows)
    ensures Held(Absorb(rows, w), p, m, n) <= Held(rows, p, m, n)
  {
    if m < n {
      HeldShrinks(rows, w, p, m, n - 1);
      AbsorbAt(rows, w, n - 1);
    }
  }

  lemma StillCompensated(a: seq<Row>, b: seq<Row>, m: nat, l: nat, w: Withdrawal)
    requires Moved(a, b, m, l) && Compensated(a, b, m, l)
    ensures Compensated(Absorb(a, w), Absorb(b, w), m, l)
  {
    var x, y := a[m + l], b[m];
    var p := ClassOf(x.At());
    AbsorbAt(a, w, m + l);
    AbsorbAt(b, w, m);
    if x.Available() > 0.0 {
      if MatchesSlot(x.At(), w) {
        GivenFirst(a, w, p, m);
        GivenFirst(a, w, p, m + l);
        MatchingAhead(a, b, m, l, w, m);
      } else {
        HeldShrinks(a, w, p, m, m + l);
      }
    }
  }

  lemma CompensatedGrew(a: seq<Row>, b: seq<Row>, m: nat, l: nat)
    requires Moved(a, b, m, l) && Compensated(a, b, m, l)
    ensures a[m + l].Available() <= b[m].Available()
  {
    HeldNonNegative(a, ClassOf(a[m + l].At()), m, m + l);
  }

  lemma {:induction false} ReplayMoved(a: seq<Row>, b: seq<Row>, m: nat, l: nat, ws: seq<Withdrawal>)
    returns (x: seq<Row>, y: seq<Row>)
    requires Moved(a, b, m, l) && Compensated(a, b, m, l)
    ensures x == Replay(a, ws) && y == Replay(b, ws) && Moved(x, y, m, l) && Compensated(x, y, m, l)
  {
    if |ws| == 0 {
      x, y := a, b;
    } else {
      var rest, w := ws[..|ws| - 1], ws[|ws| - 1];
      var u, v := ReplayMoved(a, b, m, l, rest);
      CompensatedGrew(u, v, m, l);
      StillMoved(u, v, m, l, w);
      StillCompensated(u, v, m, l, w);
      x, y := Absorb(u, w), Absorb(v, w);
    }
  }

  ghost predicate HasBetter(x: Row, b: seq<Row>) {
    exists j :: 0 <= j < |b| && Better(x, b[j])
  }

  // Every slot of a has a row in b that shows at least as much.
  ghost predicate NoneLower(a: seq<Row>, b: seq<Row>) {
    forall i :: 0 <= i < |a| ==> HasBetter(a[i], b)
  }

  lemma MovedNotLower(x: seq<Row>, y: seq<Row>, m: nat, l: nat)
    requires Moved(x, y, m, l) && Compensated(x, y, m, l)
    ensures NoneLower(x, y)
  {
    CompensatedGrew(x, y, m, l);
    forall i | 0 <= i < |x| ensures HasBetter(x[i], y) {
      assert Better(x[i], y[Spot(i, m, l)]);
    }
  }

  lemma MovedNoneLower(a: seq<Row>, b: seq<Row>, m: nat, l: nat, ws: seq<Withdrawal>) returns (x: seq<Row>, y: seq<Row>)
    requires Moved(a, b, m, l) && Compensated(a, b, m, l)
    ensures x == Replay(a, ws) && y == Replay(b, ws) && NoneLower(x, y)
  {
    x, y := ReplayMoved(a, b, m, l, ws);
    MovedNotLower(x, y, m, l);
  }

  // ---- The rows of the two orders ----

  ghost predicate Occurs(cs: seq<Contribution>, key: string) {
    exists c :: c in cs && KeyOf(c.At()) == key
  }

  lemma GroupAppend(cs: seq<Contribution>, d: Contribution)
    ensures Group(cs + [d]) == File(Group(cs), KeyOf(d.At()), d)
  {
    assert (cs + [d])[..|cs|] == cs;
  }

  // A key has a row exactly when it occurs.
  lemma OccursIffRow(cs: seq<Contribution>, key: string)
    ensures Occurs(cs, key) <==> FindKey(Group(cs), key) < |Group(cs)|
  {
    var i := FindKey(Group(cs), key);
    GroupRowsOf(cs);
    if i < |Group(cs)| {
      assert RowOf(Group(cs)[i], cs);
    }
    if c :| c in cs && KeyOf(c.At()) == key {
      var j := KeyHasRow(cs, c);
    }
  }

  // The same rows, the i-th with q more.
  ghost predicate Topped(g: seq<Row>, h: seq<Row>, i: nat, q: real) {
    i < |g| && h == g[i := g[i].(quantity := g[i].quantity + q)]
  }

  // h is g with a new row at m, for a key that g does not have.
  ghost predicate Inserted(g: seq<Row>, h: seq<Row>, m: nat, row: Row) {
    && m <= |g| && |h| == |g| + 1 && h[m] == row
    && (forall j {:trigger h[j]} :: 0 <= j < m ==> h[j] == g[j])
    && (forall j {:trigger h[j]} :: m < j < |h| ==> h[j] == g[j - 1])
    && (forall j :: 0 <= j < |g| ==> g[j].key != row.key)
  }

  // The row at m + l of g stands at m in h, opened by row instead, with q more.
  ghost predicate Jumped(g: seq<Row>, h: seq<Row>, m: nat, l: nat, row: Row, q: real) {
    && |h| == |g| && m + l < |g|
    && (forall j {:trigger h[j]} :: 0 <= j < m ==> h[j] == g[j])
    && (forall j {:trigger h[j]} :: m < j <= m + l ==> h[j] == g[j - 1])
    && (forall j {:trigger h[j]} :: m + l < j < |g| ==> h[j] == g[j])
    && h[m] == row.(quantity := g[m + l].quantity + q)
    && g[m + l].key == row.key
    && (forall j :: 0 <= j < |g| && j != m + l ==> g[j].key != row.key)
  }

  lemma FileTopped(g: seq<Row>, h: seq<Row>, i: nat, q: real, key: string, d: Contribution)
    requires Topped(g, h, i, q)
    ensures Topped(File(g, key, d), File(h, key, d), i, q)
  {
    var k := FindKey(g, key);
    if k < |g| {
      FindKeyUnique(h, key, k);
    } else {
      assert FindKey(h, key) == |h|;
    }
  }

  lemma FileInserted(g: seq<Row>, h: seq<Row>, m: nat, row: Row, key: string, d: Contribution)
    requires Inserted(g, h, m, row) && key != row.key
    ensures Inserted(File(g, key, d), File(h, key, d), m, row)
  {
    var k := FindKey(g, key);
    if k < |g| {
      FindKeyUnique(h, key, if k < m then k else k + 1);
    } else {
      assert FindKey(h, key) == |h|;
    }
  }

  lemma FileJumps(g: seq<Row>, h: seq<Row>, m: nat, row: Row, d: Contribution)
    requires Inserted(g, h, m, row) && row.withdrawn == 0.0
    ensures Jumped(File(g, row.key, d), File(h, row.key, d), m, |g| - m, row, row.quantity)
  {
    assert FindKey(g, row.key) == |g|;
    FindKeyUnique(h, row.key, m);
  }

  lemma FileJumped(g: seq<Row>, h: seq<Row>, m: nat, l: nat, row: Row, q: real, key: string, d: Contribution)
    requires Jumped(g, h, m, l, row, q)
    ensures Jumped(File(g, key, d), File(h, key, d), m, l, row, q)
  {
    var k := FindKey(g, key);
    if k < |g| {
      FindKeyUnique(h, key, if m <= k < m + l then k + 1 else if k == m + l then m else k);
    } else {
      assert FindKey(h, key) == |h|;
    }
  }

  // t[n] are the rows after the first n of b have been filed.
  ghost predicate FiledAt(t: seq<seq<Row>>, b: seq<Contribution>, n: nat) {
    0 < n < |t| && n <= |b| && t[n] == File(t[n - 1], KeyOf(b[n - 1].At()), b[n - 1])
  }

  ghost predicate Filed(t: seq<seq<Row>>, b: seq<Contribution>) {
    |t| == |b| + 1 && forall n :: 0 < n <= |b| ==> FiledAt(t, b, n)
  }

  lemma FiledNext(t: seq<seq<Row>>, b: seq<Contribution>, d: Contribution, rows: seq<Row>)
    requires Filed(t, b) && rows == File(t[|b|], KeyOf(d.At()), d)
    ensures Filed(t + [rows], b + [d])
  {
    var u, c := t + [rows], b + [d];
    forall n | 0 < n <= |c| ensures FiledAt(u, c, n) {
      if n <= |b| {
        assert FiledAt(t, b, n);
        assert u[n] == t[n] && u[n - 1] == t[n - 1] && c[n - 1] == b[n - 1];
      } else {
        assert u[n] == rows && u[n - 1] == t[|b|] && c[n - 1] == d;
      }
    }
  }

  // A trace that ends with the rows of all.
  ghost predicate TraceTo(t: seq<seq<Row>>, first: seq<Row>, b: seq<Contribution>, last: seq<Row>) {
    Filed(t, b) && t[0] == first && t[|b|] == last
  }

  lemma TraceOn(t: seq<seq<Row>>, first: seq<Row>, b: seq<Contribution>, last: seq<Row>, d: Contribution,
                rows: seq<Row>)
    requires TraceTo(t, first, b, last) && rows == File(last, KeyOf(d.At()), d)
    ensures TraceTo(t + [rows], first, b + [d], rows)
  {
    FiledNext(t, b, d, rows);
  }

  lemma {:induction false} FilesFrom(a: seq<Contribution>, b: seq<Contribution>,
                                     all: seq<Contribution>) returns (t: seq<seq<Row>>)
    requires all == a + b
    ensures TraceTo(t, Group(a), b, Group(all))
  {
    if |b| == 0 {
      assert all == a;
      t := [Group(a)];
    } else {
      var rest, d := b[..|b| - 1], b[|b| - 1];
      var front := a + rest;
      assert front + [d] == all && rest + [d] == b;
      var s := FilesFrom(a, rest, front);
      GroupAppend(front, d);
      TraceOn(s, Group(a), rest, Group(front), d, Group(all));
      t := s + [Group(all)];
    }
  }

  lemma {:induction false} KnownKeyTops(t: seq<seq<Row>>, u: seq<seq<Row>>, i: nat, q: real, b: seq<Contribution>,
                                        n: nat)
    requires n <= |b| && Filed(t, b) && Filed(u, b) && Topped(t[0], u[0], i, q)
    ensures Topped(t[n], u[n], i, q)
  {
    if n > 0 {
      KnownKeyTops(t, u, i, q, b, n - 1);
      assert FiledAt(t, b, n) && FiledAt(u, b, n);
      FileTopped(t[n - 1], u[n - 1], i, q, KeyOf(b[n - 1].At()), b[n - 1]);
    }
  }

  lemma {:induction false} NewKeyInserts(t: seq<seq<Row>>, u: seq<seq<Row>>, m: nat, row: Row, b: seq<Contribution>,
                                         n: nat)
    requires n <= |b| && Filed(t, b) && Filed(u, b) && Inserted(t[0], u[0], m, row)
    requires forall j :: 0 <= j < n ==> KeyOf(b[j].At()) != row.key
    ensures Inserted(t[n], u[n], m, row)
  {
    if n > 0 {
      NewKeyInserts(t, u, m, row, b, n - 1);
      assert FiledAt(t, b, n) && FiledAt(u, b, n);
      FileInserted(t[n - 1], u[n - 1], m, row, KeyOf(b[n - 1].At()), b[n - 1]);
    }
  }

  // b[f] is the first of b to have the key.
  ghost predicate FirstAt(b: seq<Contribution>, key: string, f: nat) {
    f < |b| && KeyOf(b[f].At()) == key && forall j :: 0 <= j < f ==> KeyOf(b[j].At()) != key
  }

  lemma JumpsAt(t: seq<seq<Row>>, u: seq<seq<Row>>, m: nat, row: Row, b: seq<Contribution>, n: nat) returns (l: nat)
    requires 0 < n && FiledAt(t, b, n) && FiledAt(u, b, n) && Inserted(t[n - 1], u[n - 1], m, row)
    requires KeyOf(b[n - 1].At()) == row.key && row.withdrawn == 0.0
    ensures Jumped(t[n], u[n], m, l, row, row.quantity)
  {
    FileJumps(t[n - 1], u[n - 1], m, row, b[n - 1]);
    l := |t[n - 1]| - m;
  }

  lemma JumpStays(t: seq<seq<Row>>, u: seq<seq<Row>>, m: nat, l: nat, row: Row, b: seq<Contribution>, n: nat)
    requires Filed(t, b) && Filed(u, b) && 0 < n <= |b| && Jumped(t[n - 1], u[n - 1], m, l, row, row.quantity)
    ensures Jumped(t[n], u[n], m, l, row, row.quantity)
  {
    assert FiledAt(t, b, n) && FiledAt(u, b, n);
    FileJumped(t[n - 1], u[n - 1], m, l, row, row.quantity, KeyOf(b[n - 1].At()), b[n - 1]);
  }

  lemma {:induction false} JumpLasts(t: seq<seq<Row>>, u: seq<seq<Row>>, m: nat, l: nat, row: Row, b: seq<Contribution>,
                                     f: nat, n: nat)
    requires 0 < f <= n <= |b| && Filed(t, b) && Filed(u, b) && Jumped(t[f], u[f], m, l, row, row.quantity)
    ensures Jumped(t[n], u[n], m, l, row, row.quantity)
    decreases n
  {
    if f < n {
      JumpLasts(t, u, m, l, row, b, f, n - 1);
      JumpStays(t, u, m, l, row, b, n);
    }
  }

  // The row that b[f] opens in t stands at m in u.
  lemma LaterKeyJumps(t: seq<seq<Row>>, u: seq<seq<Row>>, m: nat, row: Row, b: seq<Contribution>,
                      f: nat) returns (l: nat)
    requires Filed(t, b) && Filed(u, b) && Inserted(t[0], u[0], m, row)
    requires FirstAt(b, row.key, f) && row.withdrawn == 0.0
    ensures Jumped(t[|b|], u[|b|], m, l, row, row.quantity)
  {
    var n := f + 1;
    NewKeyInserts(t, u, m, row, b, f);
    assert FiledAt(t, b, n) && FiledAt(u, b, n);
    l := JumpsAt(t, u, m, row, b, n);
    JumpLasts(t, u, m, l, row, b, n, |b|);
  }

  // ---- When an insertion lowers no view ----

  function With(a: seq<Contribution>, c: Contribution, b: seq<Contribution>): seq<Contribution> {
    a + [c] + b
  }

  // Whatever was or will be withdrawn, no slot shows less with c between a and b than without it.
  ghost predicate NeverLowers(a: seq<Contribution>, c: Contribution, b: seq<Contribution>) {
    forall ws: seq<Withdrawal>, k: Slot :: View(a + b, ws, k) <= View(With(a, c, b), ws, k)
  }

  lemma ViewOfSlot(cs: seq<Contribution>, ws: seq<Withdrawal>, i: nat)
    requires i < |NetRows(cs, ws)|
    ensures View(cs, ws, NetRows(cs, ws)[i].At()) == NetRows(cs, ws)[i].Available()
  {
    GroupReady(cs);
    ReplayDistinct(Group(cs), ws);
    StockOfRow(NetRows(cs, ws), i);
  }

  lemma ViewsFromRows(cs: seq<Contribution>, ds: seq<Contribution>, ws: seq<Withdrawal>, k: Slot, x: seq<Row>,
                      y: seq<Row>)
    requires x == NetRows(cs, ws) && y == NetRows(ds, ws) && NoneLower(x, y)
    ensures View(cs, ws, k) <= View(ds, ws, k)
  {
    if i :| 0 <= i < |x| && x[i].At() == k {
      assert HasBetter(x[i], y);
      var j :| 0 <= j < |y| && Better(x[i], y[j]);
      ViewOfSlot(cs, ws, i);
      ViewOfSlot(ds, ws, j);
    } else {
      NoSuchRow(x, Is(k), |x|);
      StockFirstNonNegative(y, Is(k), |y|);
    }
  }

  lemma StockFirstNonNegative(rows: seq<Row>, p: Slot -> bool, n: nat)
    requires n <= |rows|
    ensures StockFirst(rows, p, n) >= 0.0
  {
    HeldNonNegative(rows, p, 0, n);
  }

  lemma CoversNoneLower(a: seq<Row>, b: seq<Row>)
    requires Covers(a, b)
    ensures NoneLower(a, b)
  {
    forall i | 0 <= i < |a| ensures HasBetter(a[i], b) {
      assert Better(a[i], b[i]);
    }
  }

  lemma NoneLowerChain(a: seq<Row>, b: seq<Row>, c: seq<Row>)
    requires NoneLower(a, b) && NoneLower(b, c)
    ensures NoneLower(a, c)
  {
    forall i | 0 <= i < |a| ensures HasBetter(a[i], c) {
      assert HasBetter(a[i], b);
      var j :| 0 <= j < |b| && Better(a[i], b[j]);
      assert HasBetter(b[j], c);
      var k :| 0 <= k < |c| && Better(b[j], c[k]);
      assert Better(a[i], c[k]);
    }
  }

  lemma ToppedNoneLower(g: seq<Row>, h: seq<Row>, i: nat, q: real, ws: seq<Withdrawal>)
    requires Sound(g) && Sound(h) && Topped(g, h, i, q) && q >= 0.0
    ensures NoneLower(Replay(g, ws), Replay(h, ws))
  {
    ReplayCovers(g, h, ws);
    CoversNoneLower(Replay(g, ws), Replay(h, ws));
  }

  // A new row acts like an empty row at the end that moves to its place.
  lemma InsertedNoneLower(g: seq<Row>, h: seq<Row>, m: nat, row: Row, ws: seq<Withdrawal>)
    requires Sound(g) && Sound(h) && Inserted(g, h, m, row)
    ensures NoneLower(Replay(g, ws), Replay(h, ws))
  {
    var empty := g + [row.(quantity := 0.0, withdrawn := 0.0)];
    ReplayCovers(g, empty, ws);
    CoversNoneLower(Replay(g, ws), Replay(empty, ws));
    InsertedMoves(g, empty, h, m, row);
    var x, y := MovedNoneLower(empty, h, m, |g| - m, ws);
    NoneLowerChain(Replay(g, ws), x, y);
  }

  lemma InsertedMoves(g: seq<Row>, empty: seq<Row>, h: seq<Row>, m: nat, row: Row)
    requires Sound(empty) && Sound(h) && Inserted(g, h, m, row)
    requires empty == g + [row.(quantity := 0.0, withdrawn := 0.0)]
    ensures Moved(empty, h, m, |g| - m) && Compensated(empty, h, m, |g| - m)
  {
    forall j | m < j <= |g| ensures Better(empty[j - 1], h[j]) {
      assert h[j] == g[j - 1];
    }
  }

  lemma JumpedMoves(g: seq<Row>, h: seq<Row>, m: nat, l: nat, row: Row, q: real)
    requires Sound(g) && Sound(h) && Jumped(g, h, m, l, row, q) && g[m + l].At() == row.At()
    ensures Moved(g, h, m, l)
  {
    forall j | m < j <= m + l ensures Better(g[j - 1], h[j]) {
      assert h[j] == g[j - 1];
    }
  }

  lemma JumpedKey(g: seq<Row>, h: seq<Row>, m: nat, l: nat, row: Row, q: real)
    requires Jumped(g, h, m, l, row, q)
    ensures FindKey(g, row.key) == m + l
  {
    FindKeyUnique(g, row.key, m + l);
  }

  function NewRow(c: Contribution): Row {
    Row(KeyOf(c.At()), c, c.quantity, 0.0)
  }

  // g and h are the rows after filing b on first, without and with c between.
  ghost predicate FiledBoth(first: seq<Row>, c: Contribution, b: seq<Contribution>, g: seq<Row>, h: seq<Row>,
                            t: seq<seq<Row>>, u: seq<seq<Row>>) {
    TraceTo(t, first, b, g) && TraceTo(u, File(first, KeyOf(c.At()), c), b, h) && Sound(g) && Sound(h)
  }

  lemma KnownKeyCase(first: seq<Row>, c: Contribution, b: seq<Contribution>, g: seq<Row>, h: seq<Row>,
                     t: seq<seq<Row>>, u: seq<seq<Row>>, ws: seq<Withdrawal>)
    requires FiledBoth(first, c, b, g, h, t, u) && FindKey(first, KeyOf(c.At())) < |first|
    ensures NoneLower(Replay(g, ws), Replay(h, ws))
  {
    var i := FindKey(first, KeyOf(c.At()));
    KnownKeyTops(t, u, i, c.quantity, b, |b|);
    ToppedNoneLower(g, h, i, c.quantity, ws);
  }

  lemma NewKeyCase(first: seq<Row>, c: Contribution, b: seq<Contribution>, g: seq<Row>, h: seq<Row>,
                   t: seq<seq<Row>>, u: seq<seq<Row>>, ws: seq<Withdrawal>)
    requires FiledBoth(first, c, b, g, h, t, u) && FindKey(first, KeyOf(c.At())) == |first|
    requires forall j :: 0 <= j < |b| ==> KeyOf(b[j].At()) != KeyOf(c.At())
    ensures NoneLower(Replay(g, ws), Replay(h, ws))
  {
    NewKeyInserts(t, u, |first|, NewRow(c), b, |b|);
    InsertedNoneLower(g, h, |first|, NewRow(c), ws);
  }

  lemma LaterKeyCase(first: seq<Row>, c: Contribution, b: seq<Contribution>, g: seq<Row>, h: seq<Row>,
                     t: seq<seq<Row>>, u: seq<seq<Row>>, f: nat) returns (l: nat)
    requires FiledBoth(first, c, b, g, h, t, u) && FindKey(first, KeyOf(c.At())) == |first|
    requires FirstAt(b, KeyOf(c.At()), f)
    ensures Jumped(g, h, |first|, l, NewRow(c), c.quantity)
  {
    l := LaterKeyJumps(t, u, |first|, NewRow(c), b, f);
  }

  lemma FileBoth(a: seq<Contribution>, c: Contribution, b: seq<Contribution>, all: seq<Contribution>,
                 more: seq<Contribution>)
    returns (t: seq<seq<Row>>, u: seq<seq<Row>>)
    requires all == a + b && more == With(a, c, b)
    ensures FiledBoth(Group(a), c, b, Group(all), Group(more), t, u)
  {
    var front := a + [c];
    t := FilesFrom(a, b, all);
    u := FilesFrom(front, b, more);
    GroupAppend(a, c);
    GroupSound(all);
    GroupSound(more);
  }

  lemma {:induction false} FirstOccurrence(b: seq<Contribution>, key: string, n: nat) returns (f: nat)
    requires n <= |b| && exists j :: 0 <= j < n && KeyOf(b[j].At()) == key
    ensures f < n && FirstAt(b, key, f)
  {
    if j :| 0 <= j < n - 1 && KeyOf(b[j].At()) == key {
      f := FirstOccurrence(b, key, n - 1);
    } else {
      f := n - 1;
    }
  }

  ghost predicate RowOfC(row: Row, c: Contribution) {
    row.At() == c.At() && row.withdrawn == 0.0 < row.quantity
  }

  // Rows filed under c's key are c's.
  lemma KeyedAsC(all: seq<Contribution>, more: seq<Contribution>, c: Contribution, i: nat)
    requires Unambiguous(more) && c in more && (forall d :: d in all ==> d in more)
    requires i < |Group(all)| && Group(all)[i].key == KeyOf(c.At())
    ensures RowOfC(Group(all)[i], c)
  {
    var row := Group(all)[i];
    GroupRowsOf(all);
    assert RowOf(row, all);
    KeyedRow(all, i);
    WiderCount(all, Nowhere(), HasKey(row.key));
    assert HasKey(row.key)(row.first.At());
    ContributedNowhere(all);
  }

  function Nowhere(): Slot -> bool {
    _ => false
  }

  lemma {:induction false} ContributedNowhere(cs: seq<Contribution>)
    ensures Contributed(cs, Nowhere()) == 0.0
  {
    if |cs| > 0 {
      ContributedNowhere(cs[..|cs| - 1]);
    }
  }

  // c's row, first opened in b, moves ahead by place - |first| rows.
  lemma JumpedShape(g: seq<Row>, h: seq<Row>, m: nat, l: nat, c: Contribution)
    requires Sound(g) && Sound(h) && Jumped(g, h, m, l, NewRow(c), c.quantity)
    requires RowOfC(g[m + l], c)
    ensures Moved(g, h, m, l) && FindKey(g, KeyOf(c.At())) == m + l
    ensures h[m].Available() == g[m + l].Available() + c.quantity
    ensures Held(g, ClassOf(c.At()), m, m + l) <= c.quantity ==> Compensated(g, h, m, l)
  {
    JumpedMoves(g, h, m, l, NewRow(c), c.quantity);
    JumpedKey(g, h, m, l, NewRow(c), c.quantity);
  }

  lemma KeyInLists(a: seq<Contribution>, c: Contribution, b: seq<Contribution>)
    ensures Occurs(a, KeyOf(c.At())) <==> FindKey(Group(a), KeyOf(c.At())) < |Group(a)|
    ensures !Occurs(b, KeyOf(c.At())) ==> forall j :: 0 <= j < |b| ==> KeyOf(b[j].At()) != KeyOf(c.At())
    ensures Occurs(b, KeyOf(c.At())) ==> exists j :: 0 <= j < |b| && KeyOf(b[j].At()) == KeyOf(c.At())
  {
    OccursIffRow(a, KeyOf(c.At()));
    if e :| e in b && KeyOf(e.At()) == KeyOf(c.At()) {
      var j :| 0 <= j < |b| && b[j] == e;
      assert KeyOf(b[j].At()) == KeyOf(c.At());
    }
  }

  // The lists without and with c, and their rows.
  datatype Orders = Orders(all: seq<Contribution>, more: seq<Contribution>, first: seq<Row>, g: seq<Row>, h: seq<Row>)

  function OrdersOf(a: seq<Contribution>, c: Contribution, b: seq<Contribution>): Orders {
    Orders(a + b, With(a, c, b), Group(a), Group(a + b), Group(With(a, c, b)))
  }

  lemma FileOrders(a: seq<Contribution>, c: Contribution, b: seq<Contribution>, o: Orders)
    returns (t: seq<seq<Row>>, u: seq<seq<Row>>)
    requires o == OrdersOf(a, c, b)
    ensures FiledBoth(o.first, c, b, o.g, o.h, t, u)
  {
    t, u := FileBoth(a, c, b, o.all, o.more);
  }

  lemma OrderedAsC(a: seq<Contribution>, c: Contribution, b: seq<Contribution>, o: Orders, i: nat)
    requires o == OrdersOf(a, c, b) && Unambiguous(o.more) && i < |o.g| && o.g[i].key == KeyOf(c.At())
    ensures RowOfC(o.g[i], c)
  {
    KeyedAsC(o.all, o.more, c, i);
  }

  // c's key is first opened in b.
  lemma JumpRows(a: seq<Contribution>, c: Contribution, b: seq<Contribution>, o: Orders) returns (l: nat)
    requires o == OrdersOf(a, c, b) && !Occurs(a, KeyOf(c.At())) && Occurs(b, KeyOf(c.At()))
    ensures Sound(o.g) && Sound(o.h) && Jumped(o.g, o.h, |o.first|, l, NewRow(c), c.quantity)
  {
    var t, u := FileOrders(a, c, b, o);
    KeyInLists(a, c, b);
    var f := FirstOccurrence(b, KeyOf(c.At()), |b|);
    l := LaterKeyCase(o.first, c, b, o.g, o.h, t, u, f);
  }

  lemma JumpCase(a: seq<Contribution>, c: Contribution, b: seq<Contribution>, o: Orders) returns (l: nat)
    requires o == OrdersOf(a, c, b) && Unambiguous(o.more)
    requires !Occurs(a, KeyOf(c.At())) && Occurs(b, KeyOf(c.At()))
    ensures Sound(o.g) && Sound(o.h) && Jumped(o.g, o.h, |o.first|, l, NewRow(c), c.quantity)
    ensures RowOfC(o.g[|o.first| + l], c)
  {
    l := JumpRows(a, c, b, o);
    var i := |o.first| + l;
    assert i < |o.g| && o.g[i].key == KeyOf(c.At());
    OrderedAsC(a, c, b, o, i);
  }

  function JumpedStock(o: Orders, c: Contribution): real {
    var place := FindKey(o.g, KeyOf(c.At()));
    if place < |o.first| then 0.0 else Held(o.g, ClassOf(c.At()), |o.first|, place)
  }

  lemma JumpedStockIs(o: Orders, c: Contribution, l: nat)
    requires Sound(o.g) && Sound(o.h) && Jumped(o.g, o.h, |o.first|, l, NewRow(c), c.quantity)
    requires RowOfC(o.g[|o.first| + l], c)
    ensures JumpedStock(o, c) == Held(o.g, ClassOf(c.At()), |o.first|, |o.first| + l)
  {
    JumpedKey(o.g, o.h, |o.first|, l, NewRow(c), c.quantity);
  }

  lemma ShapeHarmless(g: seq<Row>, h: seq<Row>, m: nat, l: nat, c: Contribution, ws: seq<Withdrawal>)
    returns (x: seq<Row>, y: seq<Row>)
    requires Sound(g) && Sound(h) && Jumped(g, h, m, l, NewRow(c), c.quantity) && RowOfC(g[m + l], c)
    requires Held(g, ClassOf(c.At()), m, m + l) <= c.quantity
    ensures x == Replay(g, ws) && y == Replay(h, ws) && NoneLower(x, y)
  {
    JumpedShape(g, h, m, l, c);
    x, y := MovedNoneLower(g, h, m, l, ws);
  }

  lemma JumpHarmless(a: seq<Contribution>, c: Contribution, b: seq<Contribution>, o: Orders, ws: seq<Withdrawal>)
    returns (x: seq<Row>, y: seq<Row>)
    requires o == OrdersOf(a, c, b) && Unambiguous(o.more) && JumpedStock(o, c) <= c.quantity
    requires !Occurs(a, KeyOf(c.At())) && Occurs(b, KeyOf(c.At()))
    ensures x == Replay(o.g, ws) && y == Replay(o.h, ws) && NoneLower(x, y)
  {
    var l := JumpCase(a, c, b, o);
    JumpedStockIs(o, c, l);
    x, y := ShapeHarmless(o.g, o.h, |o.first|, l, c, ws);
  }

  lemma HarmlessRows(a: seq<Contribution>, c: Contribution, b: seq<Contribution>, o: Orders, ws: seq<Withdrawal>)
    returns (x: seq<Row>, y: seq<Row>)
    requires o == OrdersOf(a, c, b) && Unambiguous(o.more)
    requires Occurs(a, KeyOf(c.At())) || !Occurs(b, KeyOf(c.At())) || JumpedStock(o, c) <= c.quantity
    ensures x == Replay(o.g, ws) && y == Replay(o.h, ws) && NoneLower(x, y)
  {
    KeyInLists(a, c, b);
    if !Occurs(a, KeyOf(c.At())) && Occurs(b, KeyOf(c.At())) {
      x, y := JumpHarmless(a, c, b, o, ws);
    } else {
      x, y := Replay(o.g, ws), Replay(o.h, ws);
      var t, u := FileOrders(a, c, b, o);
      if Occurs(a, KeyOf(c.At())) {
        KnownKeyCase(o.first, c, b, o.g, o.h, t, u, ws);
      } else {
        NewKeyCase(o.first, c, b, o.g, o.h, t, u, ws);
      }
    }
  }

  // ---- When it lowers one ----

  // An old withdrawal of the class, for all that the first n rows hold of it.
  function ClassWithdrawal(c: Contribution, quantity: Amount): Withdrawal {
    Withdrawal(c.material, c.band, None, None, c.location, quantity)
  }

  lemma {:induction false} MatchingIsHeld(rows: seq<Row>, c: Contribution, w: Withdrawal, n: nat)
    requires n <= |rows| && w == ClassWithdrawal(c, w.quantity)
    ensures Matching(rows, w, n) == StockFirst(rows, ClassOf(c.At()), n)
  {
    if n > 0 {
      MatchingIsHeld(rows, c, w, n - 1);
    }
  }

  lemma {:induction false} SameAhead(a: seq<Row>, b: seq<Row>, m: nat, l: nat, p: Slot -> bool, n: nat)
    requires Moved(a, b, m, l) && n <= m
    ensures StockFirst(a, p, n) <= StockFirst(b, p, n)
  {
    if n > 0 {
      SameAhead(a, b, m, l, p, n - 1);
      assert Better(a[n - 1], b[n - 1]);
    }
  }

  // The withdrawal spares the row where it was, and takes from it at the front.
  lemma JumpLowers(g: seq<Row>, h: seq<Row>, m: nat, l: nat, c: Contribution, w: Withdrawal)
    requires Moved(g, h, m, l) && h[m].At() == c.At()
    requires StockFirst(h, ClassOf(c.At()), m) == StockFirst(g, ClassOf(c.At()), m)
    requires h[m].Available() == g[m + l].Available() + c.quantity && g[m + l].Available() > 0.0
    requires Held(g, ClassOf(c.At()), m, m + l) > c.quantity
    requires w == ClassWithdrawal(c, w.quantity) && w.quantity == StockFirst(g, ClassOf(c.At()), m + l)
    ensures Absorb(g, w)[m + l].At() == Absorb(h, w)[m].At() == c.At()
    ensures Absorb(h, w)[m].Available() < Absorb(g, w)[m + l].Available()
  {
    MatchingIsHeld(g, c, w, m + l);
    MatchingIsHeld(h, c, w, m);
    AbsorbAt(g, w, m + l);
    AbsorbAt(h, w, m);
  }

  lemma {:induction false} SameHeldAhead(g: seq<Row>, h: seq<Row>, p: Slot -> bool, n: nat)
    requires n <= |g| && n <= |h| && forall j {:trigger h[j]} :: 0 <= j < n ==> h[j] == g[j]
    ensures StockFirst(h, p, n) == StockFirst(g, p, n)
  {
    if n > 0 {
      SameHeldAhead(g, h, p, n - 1);
    }
  }

  lemma JumpHarmfulRows(g: seq<Row>, h: seq<Row>, m: nat, l: nat, c: Contribution, w: Withdrawal)
    requires Sound(g) && Sound(h) && Jumped(g, h, m, l, NewRow(c), c.quantity)
    requires RowOfC(g[m + l], c)
    requires Held(g, ClassOf(c.At()), m, m + l) > c.quantity
    requires w == ClassWithdrawal(c, w.quantity) && w.quantity == StockFirst(g, ClassOf(c.At()), m + l)
    ensures Absorb(g, w)[m + l].At() == Absorb(h, w)[m].At() == c.At()
    ensures Absorb(h, w)[m].Available() < Absorb(g, w)[m + l].Available()
  {
    JumpedShape(g, h, m, l, c);
    SameHeldAhead(g, h, ClassOf(c.At()), m);
    JumpLowers(g, h, m, l, c, w);
  }

  // The key of c opens a row in b only, behind more of its class than c brings.
  lemma HarmfulLowers(a: seq<Contribution>, c: Contribution, b: seq<Contribution>, o: Orders) returns (w: Withdrawal)
    requires o == OrdersOf(a, c, b) && Unambiguous(o.more) && JumpedStock(o, c) > c.quantity
    requires !Occurs(a, KeyOf(c.At())) && Occurs(b, KeyOf(c.At()))
    ensures View(o.more, [w], c.At()) < View(o.all, [w], c.At())
  {
    var l := JumpCase(a, c, b, o);
    var p, m := ClassOf(c.At()), |o.first|;
    JumpedStockIs(o, c, l);
    StockFirstNonNegative(o.g, p, m);
    w := ClassWithdrawal(c, StockFirst(o.g, p, m + l));
    JumpHarmfulRows(o.g, o.h, m, l, c, w);
    OneLower(o.all, o.more, w, m + l, m);
  }

  lemma OneLower(cs: seq<Contribution>, ds: seq<Contribution>, w: Withdrawal, i: nat, j: nat)
    requires i < |Group(cs)| && j < |Group(ds)|
    requires Absorb(Group(cs), w)[i].At() == Absorb(Group(ds), w)[j].At()
    requires Absorb(Group(ds), w)[j].Available() < Absorb(Group(cs), w)[i].Available()
    ensures View(ds, [w], Absorb(Group(cs), w)[i].At()) < View(cs, [w], Absorb(Group(cs), w)[i].At())
  {
    ReplayOne(Group(cs), w);
    ReplayOne(Group(ds), w);
    ViewOfSlot(cs, [w], i);
    ViewOfSlot(ds, [w], j);
  }

  // A caller can check this before the insert.
  ghost predicate Harmless(a: seq<Contribution>, c: Contribution, b: seq<Contribution>) {
    || Occurs(a, KeyOf(c.At()))
    || !Occurs(b, KeyOf(c.At()))
    || JumpedStock(OrdersOf(a, c, b), c) <= c.quantity
  }

  /** A contribution inserted anywhere in the created_at order lowers no slot's view, whatever the
      withdrawals, exactly if its row is already opened before it, or is not opened after it
      either, or the rows that its row jumps hold no more of its class than it brings. */
  lemma InsertionNeverLowersIff(a: seq<Contribution>, c: Contribution, b: seq<Contribution>)
    requires Unambiguous(With(a, c, b))
    ensures NeverLowers(a, c, b) <==> Harmless(a, c, b)
  {
    var o := OrdersOf(a, c, b);
    if Harmless(a, c, b) {
      forall ws: seq<Withdrawal>, k: Slot ensures View(a + b, ws, k) <= View(With(a, c, b), ws, k) {
        var x, y := HarmlessRows(a, c, b, o, ws);
        ViewsFromRows(o.all, o.more, ws, k, x, y);
      }
    } else {
      var w := HarmfulLowers(a, c, b, o);
      assert View(a + b, [w], c.At()) > View(With(a, c, b), [w], c.At());
    }
  }
}
