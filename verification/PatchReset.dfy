// The patch reset: everything a user owns is merged, item by item, into one home location.
module PatchReset {
  import opened Options

  const INT4_MAX: int := 2147483647
  const MAX_NOTE: nat := 500

  datatype Status = NotForTrade | MayTrade | ForTrade

  datatype Row = Row(item: nat, location: nat, quantity: int, trade: int, status: Status, note: Option<string>,
                     shareNote: bool, favorite: bool, target: Option<int>)

  // The table's own checks. Nothing relates the traded to the owned quantity.
  predicate ValidRow(r: Row) {
    && r.quantity >= 1 && r.trade >= 0
    && (r.note.Some? ==> |r.note.value| <= MAX_NOTE)
    && (r.target.Some? ==> r.target.value >= 0)
  }

  predicate ValidRows(rows: seq<Row>) {
    forall i :: 0 <= i < |rows| ==> ValidRow(rows[i])
  }

  // ---- Notes ----

  // What String.prototype.trim removes.
  predicate White(c: char) {
    var u := c as int;
    || 0x9 <= u <= 0xd || u == 0x20 || u == 0xa0 || u == 0x1680 || 0x2000 <= u <= 0x200a
    || u == 0x2028 || u == 0x2029 || u == 0x202f || u == 0x205f || u == 0x3000 || u == 0xfeff
  }

  function Trim(s: string): (t: string)
    ensures |t| <= |s|
    ensures t != "" ==> !White(t[0]) && !White(t[|t| - 1])
    decreases |s|
  {
    if s == "" then ""
    else if White(s[0]) then Trim(s[1..])
    else if White(s[|s| - 1]) then Trim(s[..|s| - 1])
    else s
  }

  predicate Trimmed(s: string) {
    s != "" && !White(s[0]) && !White(s[|s| - 1])
  }

  function NoteOf(r: Row): string {
    if r.note.Some? then Trim(r.note.value) else ""
  }

  function Join(notes: seq<string>): string {
    if notes == [] then ""
    else if |notes| == 1 then notes[0]
    else Join(notes[..|notes| - 1]) + " | " + notes[|notes| - 1]
  }

  lemma {:induction false} JoinTrimmed(notes: seq<string>)
    requires notes != [] && forall i :: 0 <= i < |notes| ==> Trimmed(notes[i])
    ensures Trimmed(Join(notes))
  {
    if |notes| > 1 {
      JoinTrimmed(notes[..|notes| - 1]);
      assert Trimmed(notes[|notes| - 1]);
    }
  }

  // ---- What a group of rows of one item merges into ----

  function Owned(rows: seq<Row>): int {
    if rows == [] then 0 else Owned(rows[..|rows| - 1]) + rows[|rows| - 1].quantity
  }

  function Traded(rows: seq<Row>): int {
    if rows == [] then 0 else Traded(rows[..|rows| - 1]) + rows[|rows| - 1].trade
  }

  function Target(rows: seq<Row>): int {
    if rows == [] then 0
    else
      var last := rows[|rows| - 1].target;
      Max(Target(rows[..|rows| - 1]), if last.Some? then last.value else 0)
  }

  // The distinct trimmed notes, in the order they first appear.
  function Notes(rows: seq<Row>): (notes: seq<string>)
    ensures forall i :: 0 <= i < |notes| ==> Trimmed(notes[i])
  {
    if rows == [] then []
    else
      var before, note := Notes(rows[..|rows| - 1]), NoteOf(rows[|rows| - 1]);
      if note == "" || note in before then before else before + [note]
  }

  predicate Favorite(rows: seq<Row>) {
    exists i :: 0 <= i < |rows| && rows[i].favorite
  }

  predicate AllNotesShared(rows: seq<Row>) {
    forall i :: 0 <= i < |rows| && NoteOf(rows[i]) != "" ==> rows[i].shareNote
  }

  function Max(a: int, b: int): int {
    if a > b then a else b
  }

  function Min(a: int, b: int): int {
    if a < b then a else b
  }

  function Home(rows: seq<Row>, home: nat): Row
    requires rows != []
  {
    var note := Join(Notes(rows));
    Row(rows[0].item, home, Owned(rows), Min(Traded(rows), Owned(rows)),
        if Traded(rows) > 0 then ForTrade else rows[0].status,
        if note == "" then None else Some(note), Notes(rows) == [] || AllNotesShared(rows), Favorite(rows),
        Some(Target(rows)))
  }

  predicate Storable(rows: seq<Row>) {
    Owned(rows) <= INT4_MAX && Traded(rows) <= INT4_MAX && |Join(Notes(rows))| <= MAX_NOTE
  }

  // ---- The rows of each item ----

  function RowsOf(source: seq<Row>, item: nat): seq<Row> {
    if source == [] then []
    else
      var before, last := RowsOf(source[..|source| - 1], item), source[|source| - 1];
      if last.item == item then before + [last] else before
  }

  // The items in the order they first appear.
  function Items(source: seq<Row>): (items: seq<nat>)
    ensures forall i, j :: 0 <= i < j < |items| ==> items[i] != items[j]
  {
    if source == [] then []
    else
      var before, last := Items(source[..|source| - 1]), source[|source| - 1];
      if last.item in before then before else before + [last.item]
  }

  lemma {:induction false} RowsOfItem(source: seq<Row>, item: nat)
    ensures item in Items(source) <==> RowsOf(source, item) != []
    ensures forall r :: r in RowsOf(source, item) ==> r.item == item && r in source
  {
    if source != [] {
      RowsOfItem(source[..|source| - 1], item);
    }
  }

  function Homes(source: seq<Row>, items: seq<nat>, home: nat): (rows: seq<Row>)
    requires forall i :: 0 <= i < |items| ==> RowsOf(source, items[i]) != []
    ensures |rows| == |items|
    ensures forall i :: 0 <= i < |rows| ==> rows[i] == Home(RowsOf(source, items[i]), home)
  {
    seq(|items|, i requires 0 <= i < |items| => Home(RowsOf(source, items[i]), home))
  }

  lemma ItemsHaveRows(source: seq<Row>)
    ensures forall i :: 0 <= i < |Items(source)| ==> RowsOf(source, Items(source)[i]) != []
  {
    forall i | 0 <= i < |Items(source)| ensures RowsOf(source, Items(source)[i]) != [] {
      RowsOfItem(source, Items(source)[i]);
    }
  }

  // The table after a reset.
  function ResetRows(source: seq<Row>, home: nat): seq<Row> {
    ItemsHaveRows(source);
    Homes(source, Items(source), home)
  }

  predicate Resettable(source: seq<Row>) {
    Owned(source) <= INT4_MAX && forall i :: 0 <= i < |Items(source)| ==> Storable(RowsOf(source, Items(source)[i]))
  }

  // The first n items are stored at home.
  ghost predicate Placed(source: seq<Row>, home: nat, rows: seq<Row>, n: nat) {
    && n <= |Items(source)| == |ResetRows(source, home)| && rows == ResetRows(source, home)[..n]
    && forall i :: 0 <= i < n ==> Storable(RowsOf(source, Items(source)[i]))
  }

  lemma PlaceNext(source: seq<Row>, home: nat, rows: seq<Row>, n: nat)
    requires n < |Items(source)| && Placed(source, home, rows, n) && Storable(RowsOf(source, Items(source)[n]))
    requires RowsOf(source, Items(source)[n]) != []
    ensures Placed(source, home, rows + [Home(RowsOf(source, Items(source)[n]), home)], n + 1)
  {
    var all := ResetRows(source, home);
    assert all[..n] + [all[n]] == all[..n + 1];
  }

  // ---- The reset ----

  datatype Merged = Merged(item: nat, status: Status, quantity: int, trade: int, notes: seq<string>,
                           allNotesShared: bool, favorite: bool, target: int)

  function MergedOf(rows: seq<Row>): Merged
    requires rows != []
  {
    Merged(rows[0].item, rows[0].status, Owned(rows), Traded(rows), Notes(rows), AllNotesShared(rows), Favorite(rows),
           Target(rows))
  }

  lemma MergeOne(rows: seq<Row>, row: Row)
    ensures var all, note := rows + [row], NoteOf(row);
            && Owned(all) == Owned(rows) + row.quantity && Traded(all) == Traded(rows) + row.trade
            && Target(all) == Max(Target(rows), if row.target.Some? then row.target.value else 0)
            && Notes(all) == (if note == "" || note in Notes(rows) then Notes(rows) else Notes(rows) + [note])
            && Favorite(all) == (Favorite(rows) || row.favorite)
            && AllNotesShared(all) == (AllNotesShared(rows) && (note == "" || row.shareNote))
  {
    var all := rows + [row];
    assert all[..|rows|] == rows && all[|rows|] == row;
    forall i | 0 <= i < |rows| ensures all[i] == rows[i] {
    }
  }

  method MergeRow(item: Merged, row: Row, ghost rows: seq<Row>) returns (merged: Merged)
    requires item == (if rows == [] then Merged(row.item, row.status, 0, 0, [], true, false, 0) else MergedOf(rows))
    ensures merged == MergedOf(rows + [row])
  {
    MergeOne(rows, row);
    assert rows != [] ==> (rows + [row])[0] == rows[0];
    var note := NoteOf(row);
    var notes, shared := item.notes, item.allNotesShared;
    if note != "" {
      if note !in notes {
        notes := notes + [note];
      }
      shared := shared && row.shareNote;
    }
    merged := item.(quantity := item.quantity + row.quantity, trade := item.trade + row.trade, notes := notes,
                    allNotesShared := shared, favorite := item.favorite || row.favorite,
                    target := Max(item.target, if row.target.Some? then row.target.value else 0));
  }

  // The accumulating map, with its keys in insertion order.
  method MergeRows(source: seq<Row>) returns (order: seq<nat>, merged: map<nat, Merged>)
    ensures order == Items(source)
    ensures forall item :: item in merged <==> item in order
    ensures forall item :: item in merged ==>
              RowsOf(source, item) != [] && merged[item] == MergedOf(RowsOf(source, item))
  {
    order, merged := [], map[];
    for k := 0 to |source|
      invariant order == Items(source[..k])
      invariant forall item :: item in merged <==> item in order
      invariant forall item :: item in merged ==>
                  RowsOf(source[..k], item) != [] && merged[item] == MergedOf(RowsOf(source[..k], item))
    {
      var row := source[k];
      assert source[..k + 1][..k] == source[..k];
      RowsOfItem(source[..k], row.item);
      var item := if row.item in merged then merged[row.item]
                  else Merged(row.item, row.status, 0, 0, [], true, false, 0);
      item := MergeRow(item, row, RowsOf(source[..k], row.item));
      if row.item !in merged {
        order := order + [row.item];
      }
      merged := merged[row.item := item];
    }
    assert source[..|source|] == source;
  }

  datatype Counts = Counts(uniqueItems: nat, totalItems: int, locationCount: nat)

  datatype ResetEvent = ResetEvent(home: nat, gameVersion: Option<string>, counts: Counts)

  const MAX_VERSION: nat := 50

  function CountsOf(rows: seq<Row>): Counts {
    Counts(|Items(rows)|, Owned(rows), |Locations(rows)|)
  }

  class Inventory {
    var rows: seq<Row>
    var events: seq<ResetEvent>

    // One row of the new table; None when the note is too long or a number does not fit.
    method HomeRow(item: Merged, home: nat, ghost group: seq<Row>) returns (row: Option<Row>)
      requires group != [] && ValidRows(group) && item == MergedOf(group)
      ensures row == if Storable(group) then Some(Home(group, home)) else None
    {
      GroupBounds(group);
      var note := Join(item.notes);
      if |note| > MAX_NOTE {
        return None;
      }
      var status := if item.trade > 0 then ForTrade else if item.status == ForTrade then ForTrade else item.status;
      var trade := if status == NotForTrade then 0 else item.trade;
      if item.quantity > INT4_MAX || trade > INT4_MAX {
        return None;
      }
      return Some(Row(item.item, home, item.quantity, Min(trade, item.quantity), status,
                      if note == "" then None else Some(note), item.notes == [] || item.allNotesShared, item.favorite,
                      Some(item.target)));
    }

    /** The rows are read in item order. Anything that fails leaves the table as it was. */
    method Reset(home: nat, validHome: bool, gameVersion: Option<string>) returns (counts: Option<Counts>)
      requires ValidRows(rows)
      modifies this
      ensures counts == if validHome && ValidVersion(gameVersion) && Resettable(old(rows))
                        then Some(CountsOf(old(rows))) else None
      ensures counts.Some? ==> validHome && (gameVersion.Some? ==> |gameVersion.value| <= 50)
      ensures rows == if counts.Some? then ResetRows(old(rows), home) else old(rows)
      ensures events == old(events) + if counts.Some? then [ResetEvent(home, gameVersion, counts.value)] else []
    {
      if gameVersion.Some? && |gameVersion.value| > MAX_VERSION {
        return None;
      }
      var source := rows;
      var snapshot := CountItems(source);
      if snapshot.totalItems > INT4_MAX || !validHome {
        return None;
      }
      var order, merged := MergeRows(source);
      ItemsHaveRows(source);
      rows := [];
      for i := 0 to |order|
        invariant events == old(events) && Placed(source, home, rows, i)
      {
        ValidGroup(source, order[i]);
        ghost var before := rows;
        var row := HomeRow(merged[order[i]], home, RowsOf(source, order[i]));
        if row.None? {
          rows := source;
          return None;
        }
        rows := rows + [row.value];
        PlaceNext(source, home, before, i);
      }
      assert rows == ResetRows(source, home);
      events := events + [ResetEvent(home, gameVersion, snapshot)];
      return Some(snapshot);
    }
  }

  // The SELECT of counts.
  method CountItems(source: seq<Row>) returns (counts: Counts)
    ensures counts == CountsOf(source)
  {
    var items: seq<nat>, locations: seq<nat>, total := [], [], 0;
    for k := 0 to |source|
      invariant items == Items(source[..k]) && locations == Locations(source[..k]) && total == Owned(source[..k])
    {
      assert source[..k + 1][..k] == source[..k];
      if source[k].item !in items {
        items := items + [source[k].item];
      }
      if source[k].location !in locations {
        locations := locations + [source[k].location];
      }
      total := total + source[k].quantity;
    }
    assert source[..|source|] == source;
    counts := Counts(|items|, total, |locations|);
  }

  function Locations(source: seq<Row>): seq<nat> {
    if source == [] then []
    else
      var before, last := Locations(source[..|source| - 1]), source[|source| - 1];
      if last.location in before then before else before + [last.location]
  }

  predicate ValidVersion(gameVersion: Option<string>) {
    gameVersion.Some? ==> |gameVersion.value| <= MAX_VERSION
  }

  // ---- What a reset keeps ----

  // One row per item, at home, with the quantities of all the item's rows added up and no more
  // offered for trade than is owned.
  lemma OneRowPerItem(source: seq<Row>, home: nat, i: nat)
    requires i < |ResetRows(source, home)|
    ensures var row := ResetRows(source, home)[i];
            && row.item == Items(source)[i] && row.location == home
            && row.quantity == Owned(RowsOf(source, row.item))
            && row.trade == Min(Traded(RowsOf(source, row.item)), Owned(RowsOf(source, row.item)))
            && row.trade <= row.quantity
  {
    ItemsHaveRows(source);
    var item := Items(source)[i];
    RowsOfItem(source, item);
    assert RowsOf(source, item)[0] in RowsOf(source, item);
  }

  lemma {:induction false} ItemsOfDistinct(rows: seq<Row>)
    requires forall i, j :: 0 <= i < j < |rows| ==> rows[i].item != rows[j].item
    ensures |Items(rows)| == |rows| && forall i :: 0 <= i < |rows| ==> Items(rows)[i] == rows[i].item
  {
    if rows != [] {
      var front := rows[..|rows| - 1];
      ItemsOfDistinct(front);
      assert rows[|rows| - 1].item !in Items(front);
    }
  }

  lemma {:induction false} RowsOfAbsent(rows: seq<Row>, item: nat)
    requires forall i :: 0 <= i < |rows| ==> rows[i].item != item
    ensures RowsOf(rows, item) == []
  {
    if rows != [] {
      RowsOfAbsent(rows[..|rows| - 1], item);
    }
  }

  lemma {:induction false} RowsOfDistinct(rows: seq<Row>, i: nat)
    requires i < |rows| && forall j, k :: 0 <= j < k < |rows| ==> rows[j].item != rows[k].item
    ensures RowsOf(rows, rows[i].item) == [rows[i]]
  {
    var front := rows[..|rows| - 1];
    if i == |rows| - 1 {
      RowsOfAbsent(front, rows[i].item);
    } else {
      RowsOfDistinct(front, i);
    }
  }

  lemma ResetItems(source: seq<Row>, home: nat)
    ensures Items(ResetRows(source, home)) == Items(source)
    ensures var rows := ResetRows(source, home);
            forall i, j :: 0 <= i < j < |rows| ==> rows[i].item != rows[j].item
  {
    var rows := ResetRows(source, home);
    forall i | 0 <= i < |rows| ensures rows[i].item == Items(source)[i] {
      OneRowPerItem(source, home, i);
    }
    ItemsOfDistinct(rows);
  }

  lemma SingleRow(row: Row)
    ensures Owned([row]) == row.quantity && Traded([row]) == row.trade
    ensures Target([row]) == Max(0, if row.target.Some? then row.target.value else 0)
    ensures Notes([row]) == if NoteOf(row) == "" then [] else [NoteOf(row)]
    ensures Favorite([row]) == row.favorite
    ensures AllNotesShared([row]) == (NoteOf(row) != "" ==> row.shareNote)
  {
    MergeOne([], row);
    assert [] + [row] == [row];
  }

  // Every item keeps its total quantity.
  lemma QuantityPerItemKept(source: seq<Row>, home: nat, item: nat)
    ensures Owned(RowsOf(ResetRows(source, home), item)) == Owned(RowsOf(source, item))
  {
    var rows := ResetRows(source, home);
    ResetItems(source, home);
    RowsOfItem(source, item);
    RowsOfItem(rows, item);
    if item in Items(source) {
      var i :| 0 <= i < |rows| && Items(source)[i] == item;
      OneRowPerItem(source, home, i);
      RowsOfDistinct(rows, i);
      SingleRow(rows[i]);
    }
  }

  function SumOf(source: seq<Row>, items: seq<nat>): int {
    if items == [] then 0 else SumOf(source, items[..|items| - 1]) + Owned(RowsOf(source, items[|items| - 1]))
  }

  lemma {:induction false} SumOfAppend(source: seq<Row>, row: Row, items: seq<nat>)
    requires forall i, j :: 0 <= i < j < |items| ==> items[i] != items[j]
    ensures SumOf(source + [row], items) == SumOf(source, items) + (if row.item in items then row.quantity else 0)
  {
    if items != [] {
      var item := items[|items| - 1];
      SumOfAppend(source, row, items[..|items| - 1]);
      assert (source + [row])[..|source|] == source;
      MergeOne(RowsOf(source, item), row);
    }
  }

  lemma SumOfNewItem(front: seq<Row>, items: seq<nat>, item: nat)
    requires RowsOf(front, item) == []
    ensures SumOf(front, items + [item]) == SumOf(front, items)
  {
    assert (items + [item])[..|items|] == items;
  }

  lemma ItemsAppend(front: seq<Row>, last: Row)
    ensures Items(front + [last]) == if last.item in Items(front) then Items(front) else Items(front) + [last.item]
    ensures Owned(front + [last]) == Owned(front) + last.quantity
  {
    assert (front + [last])[..|front|] == front;
  }

  lemma TotalStep(front: seq<Row>, last: Row)
    requires SumOf(front, Items(front)) == Owned(front)
    ensures SumOf(front + [last], Items(front + [last])) == Owned(front + [last])
  {
    ItemsAppend(front, last);
    SumOfAppend(front, last, Items(front + [last]));
    RowsOfItem(front, last.item);
    if last.item !in Items(front) {
      SumOfNewItem(front, Items(front), last.item);
    }
  }

  // The total is the sum over the items, each counted once.
  lemma {:induction false} TotalByItem(source: seq<Row>)
    ensures SumOf(source, Items(source)) == Owned(source)
  {
    if source != [] {
      TotalByItem(source[..|source| - 1]);
      TotalStep(source[..|source| - 1], source[|source| - 1]);
      assert source[..|source| - 1] + [source[|source| - 1]] == source;
    }
  }

  lemma {:induction false} SumOfSame(a: seq<Row>, b: seq<Row>, items: seq<nat>)
    requires forall i :: 0 <= i < |items| ==> Owned(RowsOf(a, items[i])) == Owned(RowsOf(b, items[i]))
    ensures SumOf(a, items) == SumOf(b, items)
  {
    if items != [] {
      SumOfSame(a, b, items[..|items| - 1]);
    }
  }

  lemma {:induction false} OneLocation(rows: seq<Row>, home: nat)
    requires rows != [] && forall i :: 0 <= i < |rows| ==> rows[i].location == home
    ensures Locations(rows) == [home]
  {
    if |rows| > 1 {
      OneLocation(rows[..|rows| - 1], home);
    } else {
      assert Locations(rows[..0]) == [];
    }
  }

  lemma SomeItem(source: seq<Row>)
    requires source != []
    ensures Items(source) != []
  {
  }

  // After a reset everything is at one location.
  lemma ResetLeavesOneLocation(source: seq<Row>, home: nat)
    requires source != []
    ensures Locations(ResetRows(source, home)) == [home]
  {
    var rows := ResetRows(source, home);
    SomeItem(source);
    forall i | 0 <= i < |rows| ensures rows[i].location == home {
      OneRowPerItem(source, home, i);
    }
    OneLocation(rows, home);
  }

  // The recorded counts are those of the table before and after.
  lemma CountsKept(source: seq<Row>, home: nat)
    ensures |Items(ResetRows(source, home))| == |ResetRows(source, home)| == |Items(source)|
    ensures Owned(ResetRows(source, home)) == Owned(source)
  {
    var rows := ResetRows(source, home);
    ResetItems(source, home);
    TotalByItem(source);
    TotalByItem(rows);
    forall i | 0 <= i < |Items(source)|
      ensures Owned(RowsOf(rows, Items(source)[i])) == Owned(RowsOf(source, Items(source)[i]))
    {
      QuantityPerItemKept(source, home, Items(source)[i]);
    }
    SumOfSame(rows, source, Items(source));
  }

  // ---- A second reset ----

  lemma {:induction false} GroupBounds(rows: seq<Row>)
    requires ValidRows(rows)
    ensures Owned(rows) >= |rows| && Traded(rows) >= 0 && Target(rows) >= 0
  {
    if rows != [] {
      GroupBounds(rows[..|rows| - 1]);
      assert ValidRow(rows[|rows| - 1]);
    }
  }

  lemma HomeNote(rows: seq<Row>, home: nat)
    requires rows != []
    ensures NoteOf(Home(rows, home)) == Join(Notes(rows))
    ensures Join(Notes(rows)) == "" <==> Notes(rows) == []
  {
    if Notes(rows) != [] {
      JoinTrimmed(Notes(rows));
    }
  }

  // A merged row merges into itself, and fits whenever it did the first time.
  lemma HomeAgain(rows: seq<Row>, home: nat)
    requires rows != [] && ValidRows(rows)
    ensures Home([Home(rows, home)], home) == Home(rows, home)
    ensures Storable(rows) ==> Storable([Home(rows, home)])
  {
    var row := Home(rows, home);
    GroupBounds(rows);
    HomeNote(rows, home);
    SingleRow(row);
    assert Join([NoteOf(row)]) == NoteOf(row);
  }

  lemma {:induction false} ValidGroup(source: seq<Row>, item: nat)
    requires ValidRows(source)
    ensures ValidRows(RowsOf(source, item))
  {
    if source != [] {
      ValidGroup(source[..|source| - 1], item);
      assert ValidRow(source[|source| - 1]);
    }
  }

  lemma ResetGroup(source: seq<Row>, home: nat, i: nat)
    requires ValidRows(source) && i < |Items(source)|
    ensures RowsOf(source, Items(source)[i]) != [] && |ResetRows(source, home)| == |Items(source)|
    ensures var row := Home(RowsOf(source, Items(source)[i]), home);
            && ResetRows(source, home)[i] == row && RowsOf(ResetRows(source, home), Items(source)[i]) == [row]
            && Home([row], home) == row
            && (Storable(RowsOf(source, Items(source)[i])) ==> Storable([row]))
  {
    ItemsHaveRows(source);
    ResetItems(source, home);
    OneRowPerItem(source, home, i);
    RowsOfDistinct(ResetRows(source, home), i);
    ValidGroup(source, Items(source)[i]);
    HomeAgain(RowsOf(source, Items(source)[i]), home);
  }

  /** A second reset to the same place goes through and finds nothing to change. */
  lemma SecondResetChangesNothing(source: seq<Row>, home: nat)
    requires ValidRows(source) && Resettable(source)
    ensures Resettable(ResetRows(source, home))
    ensures ResetRows(ResetRows(source, home), home) == ResetRows(source, home)
  {
    var rows := ResetRows(source, home);
    ResetItems(source, home);
    CountsKept(source, home);
    forall i | 0 <= i < |Items(rows)|
      ensures Storable(RowsOf(rows, Items(rows)[i])) && ResetRows(rows, home)[i] == rows[i]
    {
      ResetGroup(source, home, i);
    }
  }

  // The new rows pass the table's checks.
  lemma ResetRowsValid(source: seq<Row>, home: nat)
    requires ValidRows(source) && Resettable(source)
    ensures ValidRows(ResetRows(source, home))
  {
    var rows := ResetRows(source, home);
    forall i | 0 <= i < |rows| ensures ValidRow(rows[i]) {
      ResetGroup(source, home, i);
      ValidGroup(source, Items(source)[i]);
      GroupBounds(RowsOf(source, Items(source)[i]));
    }
  }

  // Rows read in item order are written in item order, so that is how they are read again.
  lemma {:induction false} ItemOrderKept(source: seq<Row>)
    requires forall i, j :: 0 <= i < j < |source| ==> source[i].item <= source[j].item
    ensures forall i, j :: 0 <= i < j < |Items(source)| ==> Items(source)[i] < Items(source)[j]
    ensures source != [] ==> Items(source) != [] && Items(source)[|Items(source)| - 1] == source[|source| - 1].item
  {
    if source != [] {
      var front := source[..|source| - 1];
      ItemOrderKept(front);
    }
  }
}
