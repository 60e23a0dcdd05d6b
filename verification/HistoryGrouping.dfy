// Grouping the loaded history into runs of repeated snapshots of one day.
module HistoryGrouping {
  import opened Options
  import opened HistoryPaging

  datatype Group = Group(records: seq<Entry>, olderNeighbor: Option<Entry>)

  function DisplayValue(value: Option<string>): string {
    if value.None? then "" else value.value
  }

  predicate SameSnapshotState(left: Entry, right: Entry) {
    && left.device == right.device
    && DisplayValue(left.deviceName) == DisplayValue(right.deviceName)
    && DisplayValue(left.location) == DisplayValue(right.location)
    && DisplayValue(left.jurisdiction) == DisplayValue(right.jurisdiction)
    && DisplayValue(left.ship) == DisplayValue(right.ship)
  }

  // day is the viewer's calendar day of a received_at value.
  predicate SameRun(left: Entry, right: Entry, day: int -> int) {
    SameSnapshotState(left, right) && day(left.key.receivedAt) == day(right.key.receivedAt)
  }

  function Flatten(groups: seq<Group>): seq<Entry> {
    if |groups| == 0 then [] else groups[0].records + Flatten(groups[1..])
  }

  ghost predicate RunGroup(g: Group, day: int -> int) {
    |g.records| > 0 && forall i :: 0 <= i < |g.records| ==> SameRun(g.records[0], g.records[i], day)
  }

  // Every group is a run, no run continues in the group after it, and each group knows the
  // entry after it; next is the entry after the last group.
  ghost predicate RunsBefore(groups: seq<Group>, next: Option<Entry>, day: int -> int) {
    && (forall i :: 0 <= i < |groups| ==> RunGroup(groups[i], day))
    && (forall i :: 0 < i < |groups| ==>
          && !SameRun(groups[i - 1].records[0], groups[i].records[0], day)
          && groups[i - 1].olderNeighbor == Some(groups[i].records[0]))
    && (|groups| > 0 ==>
          var last := groups[|groups| - 1];
          last.olderNeighbor == next && (next.Some? ==> !SameRun(last.records[0], next.value, day)))
  }

  ghost predicate MaximalRuns(groups: seq<Group>, day: int -> int) {
    RunsBefore(groups, None, day)
  }

  function EntryAt(entries: seq<Entry>, n: nat): Option<Entry> {
    if n < |entries| then Some(entries[n]) else None
  }

  lemma {:induction false} FlattenAppend(groups: seq<Group>, g: Group)
    ensures Flatten(groups + [g]) == Flatten(groups) + g.records
  {
    if |groups| == 0 {
      assert groups + [g] == [g];
      assert [g][1..] == [];
    } else {
      assert (groups + [g])[1..] == groups[1..] + [g];
      FlattenAppend(groups[1..], g);
    }
  }

  lemma RunsExtend(groups: seq<Group>, g: Group, next: Option<Entry>, day: int -> int)
    requires RunGroup(g, day) && RunsBefore(groups, Some(g.records[0]), day)
    requires g.olderNeighbor == next && (next.Some? ==> !SameRun(g.records[0], next.value, day))
    ensures RunsBefore(groups + [g], next, day)
  {
    var all := groups + [g];
    assert all[|groups|] == g;
    forall i | 0 < i < |all|
      ensures !SameRun(all[i - 1].records[0], all[i].records[0], day)
      ensures all[i - 1].olderNeighbor == Some(all[i].records[0])
    {
      if i < |groups| {
        assert all[i] == groups[i] && all[i - 1] == groups[i - 1];
      } else {
        assert all[i - 1] == groups[|groups| - 1];
      }
    }
  }

  method CollectRun(entries: seq<Entry>, index: nat, day: int -> int) returns (g: Group, next: nat)
    requires index < |entries|
    ensures index < next <= |entries| && g.records == entries[index..next] && RunGroup(g, day)
    ensures g.olderNeighbor == EntryAt(entries, next)
    ensures next < |entries| ==> !SameRun(entries[index], entries[next], day)
  {
    var first := entries[index];
    var records := [first];
    next := index + 1;
    while next < |entries| && SameRun(first, entries[next], day)
      invariant index < next <= |entries|
      invariant records == entries[index..next]
      invariant forall i :: 0 <= i < |records| ==> SameRun(first, records[i], day)
    {
      records := records + [entries[next]];
      next := next + 1;
    }
    g := Group(records, EntryAt(entries, next));
  }

  // ---- Where the list is cut, told by the stored fields ----

  // Absent and empty look the same.
  predicate SameShown(a: Option<string>, b: Option<string>) {
    a == b || (a in {None, Some("")} && b in {None, Some("")})
  }

  // One device, one calendar day, and the same four texts.
  predicate Alike(a: Entry, b: Entry, day: int -> int) {
    && a.device == b.device && day(a.key.receivedAt) == day(b.key.receivedAt)
    && SameShown(a.deviceName, b.deviceName) && SameShown(a.location, b.location)
    && SameShown(a.jurisdiction, b.jurisdiction) && SameShown(a.ship, b.ship)
  }

  lemma SameRunIff(a: Entry, b: Entry, day: int -> int)
    ensures SameRun(a, b, day) <==> Alike(a, b, day)
  {
  }

  ghost predicate AllAlike(records: seq<Entry>, day: int -> int) {
    |records| > 0 && forall m, k :: 0 <= m < |records| && 0 <= k < |records| ==> Alike(records[m], records[k], day)
  }

  // The list is cut exactly where an entry differs from the one before it.
  ghost predicate CutAtChanges(groups: seq<Group>, day: int -> int) {
    && (forall i :: 0 <= i < |groups| ==> AllAlike(groups[i].records, day))
    && (forall i :: 0 < i < |groups| ==>
          var before := groups[i - 1];
          && !Alike(before.records[|before.records| - 1], groups[i].records[0], day)
          && before.olderNeighbor == Some(groups[i].records[0]))
    && (|groups| > 0 ==> groups[|groups| - 1].olderNeighbor == None)
  }

  lemma AllAlikeIff(g: Group, day: int -> int)
    ensures RunGroup(g, day) <==> AllAlike(g.records, day)
  {
    forall a, b: Entry ensures SameRun(a, b, day) <==> Alike(a, b, day) {
      SameRunIff(a, b, day);
    }
    if RunGroup(g, day) {
      forall m, k | 0 <= m < |g.records| && 0 <= k < |g.records| ensures Alike(g.records[m], g.records[k], day) {
        assert SameRun(g.records[0], g.records[m], day) && SameRun(g.records[0], g.records[k], day);
      }
    }
  }

  lemma ChangeIff(g: Group, next: Entry, day: int -> int)
    requires RunGroup(g, day)
    ensures SameRun(g.records[0], next, day) <==> Alike(g.records[|g.records| - 1], next, day)
  {
    SameRunIff(g.records[|g.records| - 1], next, day);
    assert SameRun(g.records[0], g.records[|g.records| - 1], day);
  }

  lemma MaximalRunsIff(groups: seq<Group>, day: int -> int)
    ensures MaximalRuns(groups, day) <==> CutAtChanges(groups, day)
  {
    forall i | 0 <= i < |groups| ensures RunGroup(groups[i], day) <==> AllAlike(groups[i].records, day) {
      AllAlikeIff(groups[i], day);
    }
    if MaximalRuns(groups, day) || CutAtChanges(groups, day) {
      forall i | 0 < i < |groups|
        ensures SameRun(groups[i - 1].records[0], groups[i].records[0], day)
           <==> Alike(groups[i - 1].records[|groups[i - 1].records| - 1], groups[i].records[0], day)
      {
        assert RunGroup(groups[i - 1], day) && RunGroup(groups[i], day);
        ChangeIff(groups[i - 1], groups[i].records[0], day);
      }
    }
  }

  /** The groups are the entries, in order, cut into maximal runs. */
  method GroupTelemetryHistory(entries: seq<Entry>, day: int -> int) returns (groups: seq<Group>)
    ensures Flatten(groups) == entries
    ensures MaximalRuns(groups, day) && CutAtChanges(groups, day)
  {
    groups := [];
    var index := 0;
    while index < |entries|
      invariant 0 <= index <= |entries|
      invariant Flatten(groups) == entries[..index]
      invariant RunsBefore(groups, EntryAt(entries, index), day)
    {
      var g, next := CollectRun(entries, index, day);
      FlattenAppend(groups, g);
      RunsExtend(groups, g, EntryAt(entries, next), day);
      assert entries[..index] + entries[index..next] == entries[..next];
      groups := groups + [g];
      index := next;
    }
    assert entries[..index] == entries;
    MaximalRunsIff(groups, day);
  }

  // ---- There is only one such grouping ----

  lemma FlattenCons(groups: seq<Group>)
    requires |groups| > 0
    ensures Flatten(groups) == groups[0].records + Flatten(groups[1..])
  {
  }

  lemma FirstOfRest(groups: seq<Group>, day: int -> int)
    requires |groups| > 0 && MaximalRuns(groups, day)
    ensures |groups| > 1 ==>
              |Flatten(groups[1..])| > 0 && Flatten(groups[1..])[0] == groups[1].records[0]
    ensures |groups| == 1 ==> Flatten(groups[1..]) == []
    ensures MaximalRuns(groups[1..], day)
  {
    if |groups| > 1 {
      assert RunGroup(groups[1], day);
      FlattenCons(groups[1..]);
    }
  }

  // The first run ends where the state changes.
  lemma FirstRunEnds(a: seq<Group>, day: int -> int)
    requires MaximalRuns(a, day) && |a| > 0
    ensures var all, m := Flatten(a), |a[0].records|;
            0 < m <= |all| && (m < |all| ==> !SameRun(all[0], all[m], day))
  {
    assert RunGroup(a[0], day);
    FlattenCons(a);
    FirstOfRest(a, day);
    assert |a| > 1 ==> !SameRun(a[0].records[0], a[1].records[0], day);
  }

  // Up to there it does not.
  lemma FirstRunLasts(b: seq<Group>, day: int -> int)
    requires MaximalRuns(b, day) && |b| > 0
    ensures var all, m := Flatten(b), |b[0].records|;
            m <= |all| && forall i :: 0 <= i < m ==> SameRun(all[0], all[i], day)
  {
    assert RunGroup(b[0], day);
    FlattenCons(b);
  }

  // The first run cannot be shorter in one grouping than in the other.
  lemma FirstRunNotShorter(a: seq<Group>, b: seq<Group>, day: int -> int)
    requires MaximalRuns(a, day) && MaximalRuns(b, day) && |a| > 0 && |b| > 0
    requires Flatten(a) == Flatten(b)
    ensures |a[0].records| >= |b[0].records|
  {
    FirstRunEnds(a, day);
    FirstRunLasts(b, day);
  }

  /** Two groupings of the same entries into maximal runs are equal. */
  lemma {:induction false} GroupingIsUnique(a: seq<Group>, b: seq<Group>, day: int -> int)
    requires MaximalRuns(a, day) && MaximalRuns(b, day) && Flatten(a) == Flatten(b)
    ensures a == b
  {
    if |a| == 0 || |b| == 0 {
      EmptyGrouping(a, day);
      EmptyGrouping(b, day);
    } else {
      FirstRunNotShorter(a, b, day);
      FirstRunNotShorter(b, a, day);
      FlattenCons(a);
      FlattenCons(b);
      assert a[0].records == Flatten(a)[..|a[0].records|] == Flatten(b)[..|b[0].records|] == b[0].records;
      assert Flatten(a[1..]) == Flatten(a)[|a[0].records|..] == Flatten(b[1..]);
      FirstOfRest(a, day);
      FirstOfRest(b, day);
      GroupingIsUnique(a[1..], b[1..], day);
      SameNeighbour(a, b, day);
      assert a == [a[0]] + a[1..] && b == [b[0]] + b[1..];
    }
  }

  lemma EmptyGrouping(a: seq<Group>, day: int -> int)
    requires MaximalRuns(a, day)
    ensures |a| == 0 <==> Flatten(a) == []
  {
    if |a| > 0 {
      assert RunGroup(a[0], day);
      FlattenCons(a);
    }
  }

  lemma SameNeighbour(a: seq<Group>, b: seq<Group>, day: int -> int)
    requires |a| > 0 && |b| > 0 && MaximalRuns(a, day) && MaximalRuns(b, day)
    requires a[0].records == b[0].records && a[1..] == b[1..]
    ensures a[0] == b[0]
  {
    if |a| > 1 {
      assert a[1] == a[1..][0] == b[1..][0] == b[1];
    }
  }
}
