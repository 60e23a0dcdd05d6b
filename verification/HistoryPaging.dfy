// Keyset paging over the presence history, and the client that follows next_cursor.
module HistoryPaging {
  import opened Options

  datatype Key = Key(receivedAt: int, id: int)

  datatype Entry = Entry(key: Key, device: int, deviceName: Option<string>, location: Option<string>,
                         jurisdiction: Option<string>, ship: Option<string>)

  predicate Below(a: Key, b: Key) {
    a.receivedAt < b.receivedAt || (a.receivedAt == b.receivedAt && a.id < b.id)
  }

  // The visible rows of one account at one moment, newest first.
  ghost predicate Ordered(rows: seq<Entry>) {
    forall i, j :: 0 <= i < j < |rows| ==> Below(rows[j].key, rows[i].key)
  }

  predicate Wanted(e: Entry, cursor: Option<Key>) {
    cursor.Some? ==> Below(e.key, cursor.value)
  }

  // The WHERE clause.
  function Select(rows: seq<Entry>, cursor: Option<Key>, n: nat): seq<Entry>
    requires n <= |rows|
  {
    if n == 0 then []
    else Select(rows, cursor, n - 1) + if Wanted(rows[n - 1], cursor) then [rows[n - 1]] else []
  }

  function Take(rows: seq<Entry>, n: nat): seq<Entry> {
    if |rows| <= n then rows else rows[..n]
  }

  datatype Page = Page(entries: seq<Entry>, next: Option<Key>)

  // One request: limit + 1 rows are fetched to learn whether there are more.
  function ListHistory(rows: seq<Entry>, cursor: Option<Key>, limit: nat): Page
    requires limit >= 1
  {
    var fetched := Take(Select(rows, cursor, |rows|), limit + 1);
    var hasMore := |fetched| > limit;
    var entries := Take(fetched, limit);
    Page(entries, if hasMore && |entries| > 0 then Some(entries[|entries| - 1].key) else None)
  }

  lemma {:induction false} SelectIsSuffix(rows: seq<Entry>, cursor: Option<Key>, n: nat) returns (k: nat)
    requires n <= |rows| && Ordered(rows)
    ensures k <= n && Select(rows, cursor, n) == rows[k..n]
    ensures forall i :: 0 <= i < n ==> (Wanted(rows[i], cursor) <==> k <= i)
  {
    if n == 0 {
      k := 0;
    } else {
      k := SelectIsSuffix(rows, cursor, n - 1);
      assert k < n - 1 ==> Wanted(rows[n - 2], cursor) && Below(rows[n - 1].key, rows[n - 2].key);
      if Wanted(rows[n - 1], cursor) {
        assert rows[k..n] == rows[k..n - 1] + [rows[n - 1]];
      } else {
        k := n;
      }
    }
  }

  // Received earlier, or at the same time under a smaller id.
  predicate Older(e: Entry, than: Key) {
    || e.key.receivedAt < than.receivedAt
    || (e.key.receivedAt == than.receivedAt && e.key.id < than.id)
  }

  lemma FirstOfSuffix(rows: seq<Entry>, suffix: seq<Entry>, k: nat, limit: nat)
    requires k <= |rows| && suffix == rows[k..]
    ensures var fetched := Take(suffix, limit + 1);
            && (|fetched| > limit <==> |rows| > k + limit)
            && Take(fetched, limit) == rows[k..if |rows| > k + limit then k + limit else |rows|]
  {
  }

  lemma WantedIff(e: Entry, cursor: Key)
    ensures Wanted(e, Some(cursor)) <==> Older(e, cursor)
  {
  }

  // The first row that the cursor leaves, and the page as a stretch that starts there.
  lemma StretchFrom(rows: seq<Entry>, cursor: Option<Key>, limit: nat) returns (k: nat, m: nat)
    requires limit >= 1 && Ordered(rows)
    ensures k <= |rows| && m == (if |rows| > k + limit then k + limit else |rows|)
    ensures var page := ListHistory(rows, cursor, limit);
            && page.entries == rows[k..m]
            && page.next == if |rows| > k + limit then Some(rows[m - 1].key) else None
    ensures forall i :: 0 <= i < |rows| ==> (Wanted(rows[i], cursor) <==> k <= i)
  {
    k := SelectIsSuffix(rows, cursor, |rows|);
    m := if |rows| > k + limit then k + limit else |rows|;
    assert Select(rows, cursor, |rows|) == rows[k..];
    FirstOfSuffix(rows, rows[k..], k, limit);
  }

  // A page is a stretch of the table: it starts at the first row below the cursor, and what
  // follows the page is below next, or there is nothing.
  lemma PageIsStretch(rows: seq<Entry>, cursor: Option<Key>, limit: nat) returns (k: nat)
    requires limit >= 1 && Ordered(rows)
    ensures var page := ListHistory(rows, cursor, limit);
            var m := k + |page.entries|;
            && m <= |rows| && page.entries == rows[k..m] && |page.entries| <= limit
            && (forall i :: 0 <= i < |rows| ==> (Wanted(rows[i], cursor) <==> k <= i))
            && (page.next.None? ==> m == |rows|)
            && (page.next.Some? ==> k + limit == m < |rows| && page.next.value == rows[m - 1].key)
    ensures cursor.None? ==> k == 0
    ensures cursor.Some? ==> forall i :: 0 <= i < |rows| ==> (k <= i <==> Older(rows[i], cursor.value))
  {
    var m;
    k, m := StretchFrom(rows, cursor, limit);
    if cursor.Some? {
      forall i | 0 <= i < |rows| ensures k <= i <==> Older(rows[i], cursor.value) {
        WantedIff(rows[i], cursor.value);
      }
    } else {
      assert |rows| > 0 ==> Wanted(rows[0], cursor);
    }
  }

  // ---- The client ----

  function AppendPage(existing: seq<Entry>, page: seq<Entry>): seq<Entry> {
    existing + page
  }

  // cursor is the one to send next; finished is set once a page came without a next cursor.
  datatype Loaded = Loaded(entries: seq<Entry>, cursor: Option<Key>, finished: bool)

  // n requests in a row; request i finds the table as tables[i] and asks for limits[i] rows.
  function Follow(tables: seq<seq<Entry>>, limits: seq<nat>, n: nat): Loaded
    requires n <= |tables| == |limits| && forall i :: 0 <= i < n ==> limits[i] >= 1
  {
    if n == 0 then Loaded([], None, false)
    else
      var before := Follow(tables, limits, n - 1);
      if before.finished then before
      else
        var page := ListHistory(tables[n - 1], before.cursor, limits[n - 1]);
        Loaded(AppendPage(before.entries, page.entries), page.next, page.next.None?)
  }

  ghost predicate Requests(tables: seq<seq<Entry>>, limits: seq<nat>, n: nat) {
    && n <= |tables| == |limits|
    && (forall i :: 0 <= i < n ==> limits[i] >= 1)
    && (forall i :: 0 <= i < n ==> Ordered(tables[i]))
  }

  ghost predicate HasKey(rows: seq<Entry>, key: Key) {
    exists i :: 0 <= i < |rows| && rows[i].key == key
  }

  // The list so far is ordered, and nothing is listed at or below the cursor's successors.
  ghost predicate ListedAbove(l: Loaded) {
    && Ordered(l.entries)
    && (!l.finished && |l.entries| > 0 ==>
          l.cursor == Some(l.entries[|l.entries| - 1].key))
    && (!l.finished && |l.entries| == 0 ==> l.cursor.None?)
  }

  lemma OrderedConcat(a: seq<Entry>, b: seq<Entry>)
    requires Ordered(a) && Ordered(b)
    requires |a| > 0 ==> forall j :: 0 <= j < |b| ==> Below(b[j].key, a[|a| - 1].key)
    ensures Ordered(a + b)
  {
    forall i, j | 0 <= i < j < |a + b|
      ensures Below((a + b)[j].key, (a + b)[i].key)
    {
      if i < |a| <= j {
        assert i < |a| - 1 ==> Below(a[|a| - 1].key, a[i].key);
        assert Below(b[j - |a|].key, a[|a| - 1].key);
      }
    }
  }

  lemma OrderedStretch(rows: seq<Entry>, k: nat, m: nat)
    requires Ordered(rows) && k <= m <= |rows|
    ensures Ordered(rows[k..m])
  {
  }

  lemma PageBelowCursor(rows: seq<Entry>, cursor: Option<Key>, limit: nat)
    requires limit >= 1 && Ordered(rows)
    ensures var page := ListHistory(rows, cursor, limit);
            && Ordered(page.entries)
            && (forall j :: 0 <= j < |page.entries| ==> Wanted(page.entries[j], cursor))
            && (page.next.Some? ==> |page.entries| > 0 && page.next.value == page.entries[|page.entries| - 1].key)
  {
    var page := ListHistory(rows, cursor, limit);
    var k := PageIsStretch(rows, cursor, limit);
    OrderedStretch(rows, k, k + |page.entries|);
    forall j | 0 <= j < |page.entries|
      ensures Wanted(page.entries[j], cursor)
    {
      assert page.entries[j] == rows[k + j];
    }
  }

  lemma PageKeepsOrder(before: Loaded, rows: seq<Entry>, limit: nat)
    requires ListedAbove(before) && !before.finished && limit >= 1 && Ordered(rows)
    ensures var page := ListHistory(rows, before.cursor, limit);
            ListedAbove(Loaded(before.entries + page.entries, page.next, page.next.None?))
  {
    PageBelowCursor(rows, before.cursor, limit);
    OrderedConcat(before.entries, ListHistory(rows, before.cursor, limit).entries);
  }

  /** Whatever is inserted or deleted between two requests, the list stays sorted newest first,
      so no key is listed twice. */
  lemma {:induction false} ListIsOrdered(tables: seq<seq<Entry>>, limits: seq<nat>, n: nat)
    requires Requests(tables, limits, n)
    ensures ListedAbove(Follow(tables, limits, n))
  {
    if n > 0 {
      ListIsOrdered(tables, limits, n - 1);
      var before := Follow(tables, limits, n - 1);
      if !before.finished {
        PageKeepsOrder(before, tables[n - 1], limits[n - 1]);
      }
    }
  }

  // Newest first: received earlier, or at the same time under a smaller id.
  lemma NewestFirst(tables: seq<seq<Entry>>, limits: seq<nat>, n: nat, i: nat, j: nat)
    requires Requests(tables, limits, n) && i < j < |Follow(tables, limits, n).entries|
    ensures var entries := Follow(tables, limits, n).entries;
            Older(entries[j], entries[i].key)
  {
    ListIsOrdered(tables, limits, n);
  }

  lemma HasKeyConcat(a: seq<Entry>, b: seq<Entry>, key: Key)
    ensures HasKey(a + b, key) <==> HasKey(a, key) || HasKey(b, key)
  {
    if i :| 0 <= i < |a| && a[i].key == key {
      assert (a + b)[i].key == key;
    }
    if j :| 0 <= j < |b| && b[j].key == key {
      assert (a + b)[|a| + j].key == key;
    }
  }

  lemma PageCoversKey(rows: seq<Entry>, cursor: Option<Key>, limit: nat, key: Key)
    requires limit >= 1 && Ordered(rows) && HasKey(rows, key)
    requires cursor.Some? ==> Below(key, cursor.value)
    ensures var page := ListHistory(rows, cursor, limit);
            HasKey(page.entries, key) || (page.next.Some? && Below(key, page.next.value))
  {
    var page := ListHistory(rows, cursor, limit);
    var k := PageIsStretch(rows, cursor, limit);
    var i :| 0 <= i < |rows| && rows[i].key == key;
    assert Wanted(rows[i], cursor);
    var m := k + |page.entries|;
    if i < m {
      assert page.entries[i - k] == rows[i];
    } else {
      assert Below(rows[i].key, rows[m - 1].key);
    }
  }

  ghost predicate Reached(l: Loaded, key: Key) {
    HasKey(l.entries, key) || (!l.finished && (l.cursor.Some? ==> Below(key, l.cursor.value)))
  }

  lemma StillReached(before: Loaded, rows: seq<Entry>, limit: nat, key: Key)
    requires Reached(before, key) && !before.finished && limit >= 1 && Ordered(rows) && HasKey(rows, key)
    ensures var page := ListHistory(rows, before.cursor, limit);
            Reached(Loaded(before.entries + page.entries, page.next, page.next.None?), key)
  {
    var page := ListHistory(rows, before.cursor, limit);
    HasKeyConcat(before.entries, page.entries, key);
    if !HasKey(before.entries, key) {
      PageCoversKey(rows, before.cursor, limit, key);
    }
  }

  /** A key present at every request is listed, or still lies below the cursor. */
  lemma {:induction false} LastingRowsAreListed(tables: seq<seq<Entry>>, limits: seq<nat>, n: nat, key: Key)
    requires Requests(tables, limits, n)
    requires forall i :: 0 <= i < n ==> HasKey(tables[i], key)
    ensures Reached(Follow(tables, limits, n), key)
  {
    if n > 0 {
      LastingRowsAreListed(tables, limits, n - 1, key);
      var before := Follow(tables, limits, n - 1);
      if !before.finished {
        StillReached(before, tables[n - 1], limits[n - 1], key);
      }
    }
  }

  /** When the last page has come, every row that was there throughout is listed exactly once. */
  lemma LastingRowsExactlyOnce(tables: seq<seq<Entry>>, limits: seq<nat>, n: nat, key: Key)
    requires Requests(tables, limits, n) && Follow(tables, limits, n).finished
    requires forall i :: 0 <= i < n ==> HasKey(tables[i], key)
    ensures var entries := Follow(tables, limits, n).entries;
            exists i :: 0 <= i < |entries| && entries[i].key == key
                        && forall j :: 0 <= j < |entries| && entries[j].key == key ==> j == i
  {
    LastingRowsAreListed(tables, limits, n, key);
    ListIsOrdered(tables, limits, n);
    var entries := Follow(tables, limits, n).entries;
    var i :| 0 <= i < |entries| && entries[i].key == key;
    forall j | 0 <= j < |entries| && j != i
      ensures entries[j].key != key
    {
      assert Below(entries[i].key, entries[j].key) || Below(entries[j].key, entries[i].key);
    }
  }

  lemma PageRowsExist(rows: seq<Entry>, cursor: Option<Key>, limit: nat, e: Entry)
    requires limit >= 1 && Ordered(rows) && e in ListHistory(rows, cursor, limit).entries
    ensures e in rows
  {
    var k := PageIsStretch(rows, cursor, limit);
  }

  /** Nothing is invented: each listed row stood in the table of one of the requests. */
  lemma {:induction false} ListedRowsExisted(tables: seq<seq<Entry>>, limits: seq<nat>, n: nat, e: Entry)
    requires Requests(tables, limits, n) && e in Follow(tables, limits, n).entries
    ensures exists i :: 0 <= i < n && e in tables[i]
  {
    if n > 0 {
      var before := Follow(tables, limits, n - 1);
      if e in before.entries {
        ListedRowsExisted(tables, limits, n - 1, e);
      } else {
        assert !before.finished;
        PageRowsExist(tables[n - 1], before.cursor, limits[n - 1], e);
      }
    }
  }

  // ---- A table that stays as it is ----

  // After n requests to one table: a prefix of it, at least one row a request until it is complete.
  ghost predicate PrefixLoaded(rows: seq<Entry>, l: Loaded, n: nat) {
    && |l.entries| <= |rows| && l.entries == rows[..|l.entries|]
    && (l.finished ==> |l.entries| == |rows|)
    && (!l.finished ==> n <= |l.entries| && (n > 0 ==> |l.entries| < |rows|))
    && (!l.finished ==> if n == 0 then l.cursor.None? && |l.entries| == 0
                        else l.cursor == Some(l.entries[|l.entries| - 1].key))
  }

  lemma PrefixPlace(rows: seq<Entry>, c: nat, k: nat)
    requires Ordered(rows) && 0 < c < |rows| && k <= |rows|
    requires forall i :: 0 <= i < |rows| ==> (Wanted(rows[i], Some(rows[c - 1].key)) <==> k <= i)
    ensures k == c
  {
    assert Below(rows[c].key, rows[c - 1].key);
    assert Wanted(rows[c], Some(rows[c - 1].key)) && !Wanted(rows[c - 1], Some(rows[c - 1].key));
  }

  lemma PageAfterPrefix(rows: seq<Entry>, before: Loaded, n: nat, limit: nat)
    requires Ordered(rows) && limit >= 1 && PrefixLoaded(rows, before, n) && !before.finished
    ensures var page, c := ListHistory(rows, before.cursor, limit), |before.entries|;
            var m := c + |page.entries|;
            && m <= |rows| && page.entries == rows[c..m]
            && (page.next.None? ==> m == |rows|)
            && (page.next.Some? ==> c < m < |rows| && page.next.value == rows[m - 1].key)
  {
    var k := PageIsStretch(rows, before.cursor, limit);
    if n > 0 {
      PrefixPlace(rows, |before.entries|, k);
    } else if |rows| > 0 {
      assert Wanted(rows[0], None);
    }
  }

  lemma JoinStretch(rows: seq<Entry>, c: nat, m: nat)
    requires c <= m <= |rows|
    ensures rows[..c] + rows[c..m] == rows[..m]
  {
  }

  lemma LoadMore(rows: seq<Entry>, before: Loaded, page: Page, c: nat, m: nat, n: nat)
    requires PrefixLoaded(rows, before, n) && !before.finished && c == |before.entries| <= m <= |rows|
    requires page.entries == rows[c..m] && (page.next.None? ==> m == |rows|)
    requires page.next.Some? ==> c < m < |rows| && page.next.value == rows[m - 1].key
    ensures PrefixLoaded(rows, Loaded(before.entries + page.entries, page.next, page.next.None?), n + 1)
  {
    JoinStretch(rows, c, m);
  }

  lemma PrefixGrows(rows: seq<Entry>, before: Loaded, n: nat, limit: nat)
    requires Ordered(rows) && limit >= 1 && PrefixLoaded(rows, before, n) && !before.finished
    ensures var page := ListHistory(rows, before.cursor, limit);
            PrefixLoaded(rows, Loaded(before.entries + page.entries, page.next, page.next.None?), n + 1)
  {
    var page, c := ListHistory(rows, before.cursor, limit), |before.entries|;
    PageAfterPrefix(rows, before, n, limit);
    LoadMore(rows, before, page, c, c + |page.entries|, n);
  }

  lemma {:induction false} QuietTablePrefix(tables: seq<seq<Entry>>, limits: seq<nat>, n: nat, rows: seq<Entry>)
    requires Requests(tables, limits, n) && Ordered(rows)
    requires forall i :: 0 <= i < n ==> tables[i] == rows
    ensures PrefixLoaded(rows, Follow(tables, limits, n), n)
  {
    if n > 0 {
      QuietTablePrefix(tables, limits, n - 1, rows);
      var before := Follow(tables, limits, n - 1);
      if !before.finished {
        PrefixGrows(rows, before, n - 1, limits[n - 1]);
      }
    }
  }

  /** Following the cursors of a quiet table ends after at most as many requests as it has rows
      (one if it has none), and then the list is the table. */
  lemma QuietTableIsListed(tables: seq<seq<Entry>>, limits: seq<nat>, n: nat, rows: seq<Entry>)
    requires Requests(tables, limits, n) && Ordered(rows)
    requires forall i :: 0 <= i < n ==> tables[i] == rows
    ensures n > 0 && n >= |rows| ==> Follow(tables, limits, n).finished
    ensures Follow(tables, limits, n).finished ==> Follow(tables, limits, n).entries == rows
  {
    QuietTablePrefix(tables, limits, n, rows);
    var l := Follow(tables, limits, n);
    if l.finished {
      assert rows[..|rows|] == rows;
    }
  }
}
