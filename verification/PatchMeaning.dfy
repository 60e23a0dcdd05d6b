// What a patch reset leaves of each item, told by the user's rows before it.
module PatchMeaning {
  import opened Options
  import opened PatchReset

  // ---- The rows of one item ----

  ghost predicate FirstOf(source: seq<Row>, item: nat, p: nat) {
    p < |source| && source[p].item == item && forall q :: 0 <= q < p ==> source[q].item != item
  }

  ghost predicate Increasing(places: seq<nat>) {
    forall i, j :: 0 <= i < j < |places| ==> places[i] < places[j]
  }

  // What the first n rows hold, and offer, of an item.
  function Quantity(source: seq<Row>, item: nat, n: nat): int
    requires n <= |source|
  {
    if n == 0 then 0
    else Quantity(source, item, n - 1) + if source[n - 1].item == item then source[n - 1].quantity else 0
  }

  function Trade(source: seq<Row>, item: nat, n: nat): int
    requires n <= |source|
  {
    if n == 0 then 0
    else Trade(source, item, n - 1) + if source[n - 1].item == item then source[n - 1].trade else 0
  }

  lemma RowsOfNext(source: seq<Row>, item: nat, n: nat)
    requires n < |source|
    ensures RowsOf(source[..n + 1], item)
         == if source[n].item == item then RowsOf(source[..n], item) + [source[n]] else RowsOf(source[..n], item)
  {
    assert source[..n + 1][..n] == source[..n];
  }

  lemma SumsNext(source: seq<Row>, item: nat, n: nat, before: seq<Row>, all: seq<Row>)
    requires n < |source| && all == if source[n].item == item then before + [source[n]] else before
    requires Owned(before) == Quantity(source, item, n) && Traded(before) == Trade(source, item, n)
    ensures Owned(all) == Quantity(source, item, n + 1) && Traded(all) == Trade(source, item, n + 1)
  {
    MergeOne(before, source[n]);
  }

  lemma {:induction false} SumsAre(source: seq<Row>, item: nat, n: nat) returns (rows: seq<Row>)
    requires n <= |source|
    ensures rows == RowsOf(source[..n], item)
    ensures Owned(rows) == Quantity(source, item, n) && Traded(rows) == Trade(source, item, n)
  {
    if n == 0 {
      rows := [];
    } else {
      var m := n - 1;
      var before := SumsAre(source, item, m);
      RowsOfNext(source, item, m);
      rows := RowsOf(source[..n], item);
      assert rows == if source[m].item == item then before + [source[m]] else before;
      SumsNext(source, item, m, before, rows);
    }
  }

  lemma GroupSums(source: seq<Row>, item: nat)
    ensures Owned(RowsOf(source, item)) == Quantity(source, item, |source|)
    ensures Traded(RowsOf(source, item)) == Trade(source, item, |source|)
  {
    var rows := SumsAre(source, item, |source|);
    assert source[..|source|] == source;
  }

  // A group's rows stand at the item's places in the table, in order.
  ghost predicate StandAt(source: seq<Row>, item: nat, rows: seq<Row>, places: seq<nat>, n: nat) {
    && |places| == |rows| && Increasing(places)
    && (forall k :: 0 <= k < |places| ==> places[k] < n <= |source| && rows[k] == source[places[k]])
    && (forall q :: 0 <= q < n <= |source| ==> (source[q].item == item <==> q in places))
  }

  lemma {:induction false} RowPlaces(source: seq<Row>, item: nat, n: nat) returns (places: seq<nat>)
    requires n <= |source|
    ensures StandAt(source, item, RowsOf(source[..n], item), places, n)
  {
    if n == 0 {
      places := [];
    } else {
      places := RowPlaces(source, item, n - 1);
      RowsOfNext(source, item, n - 1);
      if source[n - 1].item == item {
        PlaceAdded(source, item, RowsOf(source[..n - 1], item), places, n - 1);
        places := places + [n - 1];
      }
    }
  }

  lemma PlaceAdded(source: seq<Row>, item: nat, rows: seq<Row>, places: seq<nat>, n: nat)
    requires n < |source| && source[n].item == item && StandAt(source, item, rows, places, n)
    ensures StandAt(source, item, rows + [source[n]], places + [n], n + 1)
  {
    var all := places + [n];
    assert all[|places|] == n;
    forall q | 0 <= q < n + 1 ensures source[q].item == item <==> q in all {
      assert q in all <==> q in places || q == n;
    }
  }

  // ---- What is merged, told by the rows of the group ----

  lemma {:induction false} TargetIsLargest(rows: seq<Row>)
    ensures Target(rows) >= 0
    ensures forall i :: 0 <= i < |rows| && rows[i].target.Some? ==> rows[i].target.value <= Target(rows)
    ensures Target(rows) > 0 ==> exists i :: 0 <= i < |rows| && rows[i].target == Some(Target(rows))
  {
    if rows != [] {
      var front, last := rows[..|rows| - 1], rows[|rows| - 1];
      TargetIsLargest(front);
      if Target(rows) > 0 && last.target != Some(Target(rows)) {
        var i :| 0 <= i < |front| && front[i].target == Some(Target(front));
        assert rows[i] == front[i];
      }
    }
  }

  lemma {:induction false} TradedIfOffered(rows: seq<Row>)
    requires ValidRows(rows)
    ensures Traded(rows) >= 0
    ensures Traded(rows) > 0 <==> exists i :: 0 <= i < |rows| && rows[i].trade > 0
  {
    if rows != [] {
      var front := rows[..|rows| - 1];
      TradedIfOffered(front);
      assert ValidRow(rows[|rows| - 1]);
      if i :| 0 <= i < |front| && front[i].trade > 0 {
        assert rows[i].trade > 0;
      }
    }
  }

  // A note's words: the text without the white space around it.
  ghost predicate Inner(text: string, words: string) {
    exists a, b ::
      && 0 <= a <= b <= |text| && words == text[a..b]
      && (forall i :: 0 <= i < a || b <= i < |text| ==> White(text[i]))
      && (words != "" ==> !White(words[0]) && !White(words[|words| - 1]))
  }

  lemma {:induction false} TrimPlaces(text: string) returns (a: nat, b: nat)
    ensures a <= b <= |text| && Trim(text) == text[a..b]
    ensures forall i :: 0 <= i < a || b <= i < |text| ==> White(text[i])
    decreases |text|
  {
    if text == "" {
      a, b := 0, 0;
    } else if White(text[0]) {
      a, b := TrimPlaces(text[1..]);
      assert text[1..][a..b] == text[a + 1..b + 1];
      forall i | 0 <= i < a + 1 || b + 1 <= i < |text| ensures White(text[i]) {
        assert i > 0 ==> text[i] == text[1..][i - 1];
      }
      a, b := a + 1, b + 1;
    } else if White(text[|text| - 1]) {
      var front := text[..|text| - 1];
      a, b := TrimPlaces(front);
      assert front[a..b] == text[a..b];
      forall i | 0 <= i < a || b <= i < |text| ensures White(text[i]) {
        assert i < |text| - 1 ==> text[i] == front[i];
      }
    } else {
      a, b := 0, |text|;
    }
  }

  lemma TrimIsInner(text: string)
    ensures Inner(text, Trim(text))
  {
    var a, b := TrimPlaces(text);
  }

  // Joining with a bar between: where a list of notes is cut does not matter.
  lemma {:induction false} JoinConcat(a: seq<string>, b: seq<string>)
    requires a != [] && b != []
    ensures Join(a + b) == Join(a) + " | " + Join(b)
  {
    var all := a + b;
    assert all[..|all| - 1] == a + b[..|b| - 1];
    if |b| > 1 {
      JoinConcat(a, b[..|b| - 1]);
      Regroup(Join(a), " | ", Join(b[..|b| - 1]), " | " + b[|b| - 1]);
    } else {
      assert a + b[..|b| - 1] == a;
    }
  }

  lemma Regroup(a: string, b: string, c: string, d: string)
    ensures a + b + c + d == a + b + (c + d)
  {
  }

  // ---- Which items there are, and in which order ----

  // rows names the items of the first n rows, each at the place where it first appears.
  ghost predicate Appear(source: seq<Row>, items: seq<nat>, places: seq<nat>, n: nat) {
    && n <= |source| && |places| == |items| && Increasing(places)
    && (forall i :: 0 <= i < |items| ==> places[i] < n && FirstOf(source, items[i], places[i]))
    && (forall q :: 0 <= q < n ==> source[q].item in items)
  }

  lemma {:induction false} ItemsAppear(source: seq<Row>, n: nat) returns (items: seq<nat>, places: seq<nat>)
    requires n <= |source|
    ensures items == Items(source[..n]) && Appear(source, items, places, n)
  {
    if n == 0 {
      items, places := [], [];
    } else {
      var m := n - 1;
      items, places := ItemsAppear(source, m);
      assert source[..n][..m] == source[..m];
      if source[m].item !in items {
        AppearNext(source, items, places, m);
        items, places := items + [source[m].item], places + [m];
      }
    }
  }

  lemma AppearNext(source: seq<Row>, items: seq<nat>, places: seq<nat>, n: nat)
    requires n < |source| && Appear(source, items, places, n) && source[n].item !in items
    ensures Appear(source, items + [source[n].item], places + [n], n + 1)
  {
    var all := items + [source[n].item];
    assert all[|items|] == source[n].item;
    forall i | 0 <= i < |all| ensures (places + [n])[i] < n + 1 && FirstOf(source, all[i], (places + [n])[i]) {
      assert i < |items| ==> FirstOf(source, items[i], places[i]);
    }
    forall q | 0 <= q < n + 1 ensures source[q].item in all {
    }
  }

  // ---- The notes of a group ----

  ghost predicate NotedAt(rows: seq<Row>, note: string, p: nat) {
    p < |rows| && NoteOf(rows[p]) == note && forall q :: 0 <= q < p ==> NoteOf(rows[q]) != note
  }

  // Every note but the empty one, once, where it first appears.
  ghost predicate Collects(rows: seq<Row>, notes: seq<string>, places: seq<nat>) {
    && |places| == |notes| && Increasing(places)
    && (forall k :: 0 <= k < |notes| ==> notes[k] != "" && NotedAt(rows, notes[k], places[k]))
    && (forall q :: 0 <= q < |rows| && NoteOf(rows[q]) != "" ==> NoteOf(rows[q]) in notes)
  }

  lemma CollectNext(rows: seq<Row>, row: Row, notes: seq<string>, places: seq<nat>, all: seq<Row>)
    returns (names: seq<string>, more: seq<nat>)
    requires Collects(rows, notes, places) && all == rows + [row]
    ensures names == if NoteOf(row) == "" || NoteOf(row) in notes then notes else notes + [NoteOf(row)]
    ensures Collects(all, names, more)
  {
    var note := NoteOf(row);
    assert forall q :: 0 <= q < |rows| ==> all[q] == rows[q];
    assert all[|rows|] == row;
    if note == "" || note in notes {
      names, more := notes, places;
      forall k | 0 <= k < |notes| ensures NotedAt(all, notes[k], more[k]) {
        assert NotedAt(rows, notes[k], places[k]);
      }
    } else {
      names, more := notes + [note], places + [|rows|];
      CollectNew(rows, row, notes, places, all);
    }
  }

  lemma CollectNew(rows: seq<Row>, row: Row, notes: seq<string>, places: seq<nat>, all: seq<Row>)
    requires Collects(rows, notes, places) && NoteOf(row) != "" && NoteOf(row) !in notes && all == rows + [row]
    ensures Collects(all, notes + [NoteOf(row)], places + [|rows|])
  {
    var names := notes + [NoteOf(row)];
    forall k | 0 <= k < |names| ensures names[k] != "" && NotedAt(all, names[k], (places + [|rows|])[k]) {
      if k < |notes| {
        assert NotedAt(rows, notes[k], places[k]);
      }
    }
    forall q | 0 <= q < |all| && NoteOf(all[q]) != "" ensures NoteOf(all[q]) in names {
      assert names[|notes|] == NoteOf(row);
      if q < |rows| {
        assert NoteOf(rows[q]) in notes;
      }
    }
  }

  lemma NotesNext(rows: seq<Row>, front: seq<Row>, last: Row)
    requires rows != [] && front == rows[..|rows| - 1] && last == rows[|rows| - 1]
    ensures rows == front + [last]
    ensures Notes(rows) == if NoteOf(last) == "" || NoteOf(last) in Notes(front) then Notes(front)
                           else Notes(front) + [NoteOf(last)]
  {
  }

  lemma {:induction false} NotesCollect(rows: seq<Row>) returns (notes: seq<string>, places: seq<nat>)
    ensures notes == Notes(rows) && Collects(rows, notes, places)
  {
    if rows == [] {
      notes, places := [], [];
    } else {
      var front, last := rows[..|rows| - 1], rows[|rows| - 1];
      notes, places := NotesCollect(front);
      NotesNext(rows, front, last);
      notes, places := CollectNext(front, last, notes, places, rows);
    }
  }

  // ---- The row of an item after a reset, told by the rows before it ----

  ghost predicate Offered(source: seq<Row>, item: nat) {
    exists q :: 0 <= q < |source| && source[q].item == item && source[q].trade > 0
  }

  ghost predicate Liked(source: seq<Row>, item: nat) {
    exists q :: 0 <= q < |source| && source[q].item == item && source[q].favorite
  }

  ghost predicate NotesShared(source: seq<Row>, item: nat) {
    forall q :: 0 <= q < |source| && source[q].item == item && NoteOf(source[q]) != "" ==> source[q].shareNote
  }

  ghost predicate LargestTarget(source: seq<Row>, item: nat, target: int) {
    && target >= 0
    && (forall q :: 0 <= q < |source| && source[q].item == item && source[q].target.Some? ==>
          source[q].target.value <= target)
    && (target > 0 ==>
          exists q :: 0 <= q < |source| && source[q].item == item && source[q].target == Some(target))
  }

  // The item's notes, each once, in the order in which its rows first give them.
  ghost predicate NotesOf(source: seq<Row>, item: nat, notes: seq<string>, places: seq<nat>) {
    && |places| == |notes| && Increasing(places)
    && (forall k :: 0 <= k < |notes| ==>
          && notes[k] != "" && places[k] < |source|
          && source[places[k]].item == item && NoteOf(source[places[k]]) == notes[k])
    && (forall k, q :: 0 <= k < |notes| && 0 <= q < places[k] && q < |source| && source[q].item == item ==>
          NoteOf(source[q]) != notes[k])
    && (forall q :: 0 <= q < |source| && source[q].item == item && NoteOf(source[q]) != "" ==>
          NoteOf(source[q]) in notes)
  }

  ghost predicate Noted(source: seq<Row>, item: nat, note: Option<string>) {
    exists notes, places ::
      NotesOf(source, item, notes, places) && note == if notes == [] then None else Some(Join(notes))
  }

  // row is what a reset to home leaves of the item that first appears at p.
  ghost predicate Leaves(source: seq<Row>, home: nat, item: nat, p: nat, row: Row) {
    var quantity, trade := Quantity(source, item, |source|), Trade(source, item, |source|);
    && FirstOf(source, item, p)
    && row.item == item && row.location == home
    && row.quantity == quantity && row.trade == (if trade < quantity then trade else quantity)
    && row.status == (if Offered(source, item) then ForTrade else source[p].status)
    && row.favorite == Liked(source, item) && row.shareNote == NotesShared(source, item)
    && row.target.Some? && LargestTarget(source, item, row.target.value)
    && Noted(source, item, row.note)
  }

  lemma OfferedIff(source: seq<Row>, item: nat, rows: seq<Row>, places: seq<nat>)
    requires StandAt(source, item, rows, places, |source|)
    ensures Offered(source, item) <==> exists k :: 0 <= k < |rows| && rows[k].trade > 0
    ensures Liked(source, item) <==> Favorite(rows)
    ensures NotesShared(source, item) <==> AllNotesShared(rows)
  {
    if k :| 0 <= k < |rows| && rows[k].trade > 0 {
      assert source[places[k]].trade > 0;
    }
    if k :| 0 <= k < |rows| && rows[k].favorite {
      assert source[places[k]].favorite;
    }
    if k :| 0 <= k < |rows| && NoteOf(rows[k]) != "" && !rows[k].shareNote {
      assert NoteOf(source[places[k]]) != "" && !source[places[k]].shareNote;
    }
  }

  lemma LargestOfGroup(source: seq<Row>, item: nat, rows: seq<Row>, places: seq<nat>)
    requires StandAt(source, item, rows, places, |source|)
    ensures LargestTarget(source, item, Target(rows))
  {
    TargetIsLargest(rows);
    forall q | 0 <= q < |source| && source[q].item == item && source[q].target.Some?
      ensures source[q].target.value <= Target(rows)
    {
      var k :| 0 <= k < |places| && places[k] == q;
      assert rows[k] == source[q];
    }
    if Target(rows) > 0 {
      var k :| 0 <= k < |rows| && rows[k].target == Some(Target(rows));
      assert source[places[k]].target == Some(Target(rows));
    }
  }

  lemma NotesOfGroup(source: seq<Row>, item: nat, rows: seq<Row>, places: seq<nat>, notes: seq<string>,
                     at: seq<nat>) returns (found: seq<nat>)
    requires StandAt(source, item, rows, places, |source|) && Collects(rows, notes, at)
    ensures NotesOf(source, item, notes, found)
  {
    assert forall k :: 0 <= k < |notes| ==> NotedAt(rows, notes[k], at[k]);
    found := seq(|notes|, k requires 0 <= k < |notes| => places[at[k]]);
    forall k, q | 0 <= k < |notes| && 0 <= q < found[k] && source[q].item == item
      ensures NoteOf(source[q]) != notes[k]
    {
      var j :| 0 <= j < |places| && places[j] == q;
      assert NotedAt(rows, notes[k], at[k]);
      assert rows[j] == source[q] && j < at[k];
    }
    forall q | 0 <= q < |source| && source[q].item == item && NoteOf(source[q]) != ""
      ensures NoteOf(source[q]) in notes
    {
      var j :| 0 <= j < |places| && places[j] == q;
      assert rows[j] == source[q];
    }
  }

  lemma GroupNoted(source: seq<Row>, item: nat, rows: seq<Row>, places: seq<nat>, home: nat)
    requires rows != [] && StandAt(source, item, rows, places, |source|)
    ensures Noted(source, item, Home(rows, home).note)
  {
    var notes, at := NotesCollect(rows);
    var found := NotesOfGroup(source, item, rows, places, notes, at);
    HomeNote(rows, home);
  }

  lemma FirstRow(source: seq<Row>, item: nat, rows: seq<Row>, places: seq<nat>, p: nat)
    requires StandAt(source, item, rows, places, |source|) && FirstOf(source, item, p)
    ensures rows != [] && rows[0] == source[p] && places[0] == p
  {
    assert p in places;
    var k :| 0 <= k < |places| && places[k] == p;
    assert source[places[0]].item == item;
    assert places[0] == p;
  }

  lemma SharedIfNone(rows: seq<Row>)
    requires Notes(rows) == []
    ensures AllNotesShared(rows)
  {
    var notes, places := NotesCollect(rows);
  }

  lemma GroupLeaves(source: seq<Row>, home: nat, item: nat, p: nat, rows: seq<Row>, places: seq<nat>)
    requires FirstOf(source, item, p) && StandAt(source, item, rows, places, |source|) && ValidRows(rows)
    requires Owned(rows) == Quantity(source, item, |source|) && Traded(rows) == Trade(source, item, |source|)
    ensures rows != [] && Leaves(source, home, item, p, Home(rows, home))
  {
    FirstRow(source, item, rows, places, p);
    TradedIfOffered(rows);
    OfferedIff(source, item, rows, places);
    LargestOfGroup(source, item, rows, places);
    GroupNoted(source, item, rows, places, home);
    if Notes(rows) == [] {
      SharedIfNone(rows);
    }
  }

  lemma ItemLeaves(source: seq<Row>, home: nat, item: nat, p: nat)
    requires ValidRows(source) && FirstOf(source, item, p)
    ensures RowsOf(source, item) != [] && Leaves(source, home, item, p, Home(RowsOf(source, item), home))
  {
    assert source[..|source|] == source;
    var places := RowPlaces(source, item, |source|);
    GroupSums(source, item);
    ValidGroup(source, item);
    GroupLeaves(source, home, item, p, RowsOf(source, item), places);
  }

  /** A reset leaves one row for each item, in the order in which the items first appear, with the
      item's sums, largest target and distinct notes, and the flags that its rows give. */
  lemma ResetMeaning(source: seq<Row>, home: nat) returns (items: seq<nat>, places: seq<nat>)
    requires ValidRows(source)
    ensures Appear(source, items, places, |source|) && |ResetRows(source, home)| == |items|
    ensures forall i :: 0 <= i < |items| ==> Leaves(source, home, items[i], places[i], ResetRows(source, home)[i])
  {
    assert source[..|source|] == source;
    items, places := ItemsAppear(source, |source|);
    ItemsHaveRows(source);
    forall i | 0 <= i < |items|
      ensures Leaves(source, home, items[i], places[i], ResetRows(source, home)[i])
    {
      ItemLeaves(source, home, items[i], places[i]);
    }
  }

  // ---- When a reset goes through ----

  // The sums fit 32 bits, and no joined note is longer than the column.
  ghost predicate Fits(source: seq<Row>, home: nat) {
    && Owned(source) <= 2147483647
    && (forall q :: 0 <= q < |source| ==>
          && Quantity(source, source[q].item, |source|) <= 2147483647
          && Trade(source, source[q].item, |source|) <= 2147483647)
    && (forall i :: 0 <= i < |ResetRows(source, home)| ==>
          ResetRows(source, home)[i].note.Some? ==> |ResetRows(source, home)[i].note.value| <= 500)
  }

  lemma StorableIff(source: seq<Row>, item: nat, home: nat)
    requires RowsOf(source, item) != []
    ensures var note := Home(RowsOf(source, item), home).note;
            Storable(RowsOf(source, item)) <==>
              && Quantity(source, item, |source|) <= 2147483647 && Trade(source, item, |source|) <= 2147483647
              && (note.Some? ==> |note.value| <= 500)
  {
    GroupSums(source, item);
  }

  /** Exactly when the numbers fit their columns and every joined note is short enough. */
  lemma ResettableIff(source: seq<Row>, home: nat)
    ensures Resettable(source) <==> Fits(source, home)
  {
    ItemsHaveRows(source);
    assert source[..|source|] == source;
    var items, places := ItemsAppear(source, |source|);
    forall i | 0 <= i < |items|
      ensures source[places[i]].item == items[i] && ResetRows(source, home)[i] == Home(RowsOf(source, items[i]), home)
    {
    }
    forall i | 0 <= i < |items|
      ensures var note := ResetRows(source, home)[i].note;
              Storable(RowsOf(source, items[i])) <==>
                && Quantity(source, items[i], |source|) <= 2147483647 && Trade(source, items[i], |source|) <= 2147483647
                && (note.Some? ==> |note.value| <= 500)
    {
      StorableIff(source, items[i], home);
    }
  }

  // ---- What is counted ----

  function ValuesOf(values: seq<nat>): set<nat> {
    set v | v in values
  }

  lemma {:induction false} DistinctCount(values: seq<nat>)
    requires forall i, j :: 0 <= i < j < |values| ==> values[i] != values[j]
    ensures |ValuesOf(values)| == |values|
  {
    if values != [] {
      var front, last := values[..|values| - 1], values[|values| - 1];
      DistinctCount(front);
      assert values == front + [last];
      assert ValuesOf(values) == ValuesOf(front) + {last};
      assert last !in ValuesOf(front);
    }
  }

  lemma {:induction false} LocationsOnce(source: seq<Row>)
    ensures forall i, j :: 0 <= i < j < |Locations(source)| ==> Locations(source)[i] != Locations(source)[j]
    ensures forall l :: l in Locations(source) <==> l in (set r | r in source :: r.location)
  {
    if source != [] {
      var front, last := source[..|source| - 1], source[|source| - 1];
      LocationsOnce(front);
      assert source == front + [last];
      assert (set r | r in source :: r.location) == (set r | r in front :: r.location) + {last.location};
    }
  }

  lemma {:induction false} ItemsOnce(source: seq<Row>)
    ensures forall x :: x in Items(source) <==> x in (set r | r in source :: r.item)
  {
    if source != [] {
      var front, last := source[..|source| - 1], source[|source| - 1];
      ItemsOnce(front);
      assert source == front + [last];
      assert (set r | r in source :: r.item) == (set r | r in front :: r.item) + {last.item};
    }
  }

  // The counts are those of the distinct items and the distinct locations.
  lemma CountsMeaning(source: seq<Row>)
    ensures CountsOf(source).uniqueItems == |set r | r in source :: r.item|
    ensures CountsOf(source).locationCount == |set r | r in source :: r.location|
  {
    ItemsOnce(source);
    LocationsOnce(source);
    DistinctCount(Items(source));
    DistinctCount(Locations(source));
    assert ValuesOf(Items(source)) == (set r | r in source :: r.item);
    assert ValuesOf(Locations(source)) == (set r | r in source :: r.location);
  }
}
