// The change-only history of one device, next to the log of its accepted snapshots.
module PresenceHistory {
  import opened Options

  type Time = nat

  // The four snapshot fields that history keeps.
  datatype Kept = Kept(location: Option<string>, observedAt: Option<string>, jurisdiction: Option<string>,
                       ship: Option<string>)

  // An accepted snapshot, and also the history row made from it.
  datatype Entry = Entry(id: nat, revision: nat, kept: Kept, receivedAt: Time)

  // The conditional insert: nothing is stored when the newest row already has the same fields.
  function Record(history: seq<Entry>, e: Entry): seq<Entry> {
    if |history| > 0 && history[|history| - 1].kept == e.kept then history else history + [e]
  }

  function HistoryOf(log: seq<Entry>): seq<Entry> {
    if |log| == 0 then [] else Record(HistoryOf(log[..|log| - 1]), log[|log| - 1])
  }

  predicate IsChange(log: seq<Entry>, i: nat)
    requires i < |log|
  {
    i == 0 || log[i - 1].kept != log[i].kept
  }

  // The log without the entries that repeat the fields of the entry before them.
  function Changes(log: seq<Entry>, n: nat): seq<Entry>
    requires n <= |log|
  {
    if n == 0 then []
    else Changes(log, n - 1) + if IsChange(log, n - 1) then [log[n - 1]] else []
  }

  lemma {:induction false} ChangesPrefix(a: seq<Entry>, b: seq<Entry>, n: nat)
    requires n <= |a| <= |b| && a == b[..|a|]
    ensures Changes(a, n) == Changes(b, n)
  {
    if n > 0 {
      ChangesPrefix(a, b, n - 1);
    }
  }

  /** The stored history is the log of accepted snapshots without consecutive duplicates. */
  lemma {:induction false} HistoryIsChanges(log: seq<Entry>)
    ensures HistoryOf(log) == Changes(log, |log|)
    ensures |log| > 0 ==> |HistoryOf(log)| > 0
    ensures |log| > 0 ==> HistoryOf(log)[|HistoryOf(log)| - 1].kept == log[|log| - 1].kept
  {
    if |log| > 0 {
      var n := |log| - 1;
      HistoryIsChanges(log[..n]);
      ChangesPrefix(log[..n], log, n);
    }
  }

  // The fields of the newest row that is not newer than the revision.
  function Lookup(history: seq<Entry>, revision: nat, n: nat): Option<Kept>
    requires n <= |history|
  {
    if n == 0 then None
    else if history[n - 1].revision <= revision then Some(history[n - 1].kept)
    else Lookup(history, revision, n - 1)
  }

  ghost predicate Increasing(es: seq<Entry>) {
    forall i, j :: 0 <= i < j < |es| ==> es[i].revision < es[j].revision && es[i].receivedAt < es[j].receivedAt
  }

  ghost predicate Changing(es: seq<Entry>) {
    forall i :: 0 < i < |es| ==> es[i - 1].kept != es[i].kept
  }

  ghost predicate Newer(es: seq<Entry>, e: Entry) {
    forall x :: x in es ==> x.revision < e.revision && x.receivedAt < e.receivedAt
  }

  // What every retained history keeps with respect to the log it came from.
  ghost predicate Faithful(history: seq<Entry>, log: seq<Entry>) {
    && Increasing(history) && Changing(history) && Increasing(log)
    && (forall x :: x in history ==> x in log)
    && (|history| > 0 ==> |log| > 0 && history[|history| - 1].kept == log[|log| - 1].kept)
    && (forall e :: e in log && |history| > 0 && history[0].revision <= e.revision ==>
          Lookup(history, e.revision, |history|) == Some(e.kept))
  }

  lemma {:induction false} LookupAppended(history: seq<Entry>, e: Entry, revision: nat, n: nat)
    requires n <= |history|
    ensures Lookup(history + [e], revision, n) == Lookup(history, revision, n)
  {
    if n > 0 {
      LookupAppended(history, e, revision, n - 1);
    }
  }

  lemma {:induction false} LookupNewest(history: seq<Entry>, revision: nat)
    requires |history| > 0 && history[|history| - 1].revision <= revision
    ensures Lookup(history, revision, |history|) == Some(history[|history| - 1].kept)
  {
  }

  // The decision to insert may rest on a history that has been shortened since.
  ghost predicate Decided(history: seq<Entry>, e: Entry, insert: bool) {
    |history| > 0 ==> (insert <==> history[|history| - 1].kept != e.kept)
  }

  function Append(history: seq<Entry>, e: Entry, insert: bool): seq<Entry> {
    if insert then history + [e] else history
  }

  lemma NewerThanAll(history: seq<Entry>, log: seq<Entry>, e: Entry)
    requires Newer(log, e) && forall x :: x in history ==> x in log
    ensures forall i :: 0 <= i < |history| ==> history[i].revision < e.revision && history[i].receivedAt < e.receivedAt
  {
    forall i | 0 <= i < |history|
      ensures history[i].revision < e.revision && history[i].receivedAt < e.receivedAt
    {
      assert history[i] in log;
    }
  }

  lemma IncreasingAppend(es: seq<Entry>, e: Entry)
    requires Increasing(es)
    requires forall i :: 0 <= i < |es| ==> es[i].revision < e.revision && es[i].receivedAt < e.receivedAt
    ensures Increasing(es + [e])
  {
  }

  lemma ChangingAppend(es: seq<Entry>, e: Entry)
    requires Changing(es) && (|es| > 0 ==> es[|es| - 1].kept != e.kept)
    ensures Changing(es + [e])
  {
  }

  lemma AppendShape(history: seq<Entry>, log: seq<Entry>, e: Entry, insert: bool)
    requires Faithful(history, log) && Newer(log, e) && Decided(history, e, insert)
    ensures var h := Append(history, e, insert);
            && Increasing(h) && Changing(h) && Increasing(log + [e])
            && (forall x :: x in h ==> x in log + [e])
            && (|h| > 0 ==> h[|h| - 1].kept == e.kept)
  {
    NewerThanAll(history, log, e);
    NewerThanAll(log, log, e);
    IncreasingAppend(log, e);
    if insert {
      IncreasingAppend(history, e);
      ChangingAppend(history, e);
    }
  }

  lemma AppendLookup(history: seq<Entry>, log: seq<Entry>, e: Entry, insert: bool, x: Entry)
    requires Faithful(history, log) && Newer(log, e) && Decided(history, e, insert)
    requires x in log + [e]
    ensures var h := Append(history, e, insert);
            |h| > 0 && h[0].revision <= x.revision ==> Lookup(h, x.revision, |h|) == Some(x.kept)
  {
    var h := Append(history, e, insert);
    if x == e {
      if |h| > 0 {
        assert h[|h| - 1] == e || h[|h| - 1] in log;
        LookupNewest(h, e.revision);
      }
    } else {
      assert x in log;
      if insert {
        LookupAppended(history, e, x.revision, |history|);
      }
    }
  }

  /** Accepting one more snapshot keeps the history faithful. */
  lemma AppendFaithful(history: seq<Entry>, log: seq<Entry>, e: Entry, insert: bool)
    requires Faithful(history, log) && Newer(log, e) && Decided(history, e, insert)
    ensures Faithful(Append(history, e, insert), log + [e])
  {
    AppendShape(history, log, e, insert);
    forall x | x in log + [e]
      ensures var h := Append(history, e, insert);
              |h| > 0 && h[0].revision <= x.revision ==> Lookup(h, x.revision, |h|) == Some(x.kept)
    {
      AppendLookup(history, log, e, insert, x);
    }
  }

  // ---- Deleting ----

  lemma {:induction false} LookupSuffix(history: seq<Entry>, k: nat, revision: nat, n: nat)
    requires k < n <= |history| && history[k].revision <= revision
    ensures Lookup(history[k..], revision, n - k) == Lookup(history, revision, n)
  {
    if history[n - 1].revision > revision {
      LookupSuffix(history, k, revision, n - 1);
    }
  }

  /** Dropping the oldest rows, or all rows, keeps the history faithful. */
  lemma SuffixFaithful(history: seq<Entry>, log: seq<Entry>, k: nat)
    requires Faithful(history, log) && k <= |history|
    ensures Faithful(history[k..], log)
  {
    var h := history[k..];
    forall e | e in log && |h| > 0 && h[0].revision <= e.revision
      ensures Lookup(h, e.revision, |h|) == Some(e.kept)
    {
      assert history[0].revision <= h[0].revision;
      LookupSuffix(history, k, e.revision, |history|);
    }
  }

  // The clean-up deletes, over all devices, the expired rows in (received_at, id) order up to
  // its batch limit: everything before some place in that order.
  datatype Bound = Bound(receivedAt: Time, id: nat)

  predicate Before(e: Entry, b: Bound) {
    e.receivedAt < b.receivedAt || (e.receivedAt == b.receivedAt && e.id < b.id)
  }

  function Retained(history: seq<Entry>, b: Bound, n: nat): seq<Entry>
    requires n <= |history|
  {
    if n == 0 then []
    else Retained(history, b, n - 1) + if Before(history[n - 1], b) then [] else [history[n - 1]]
  }

  lemma {:induction false} RetainedIsSuffix(history: seq<Entry>, b: Bound, n: nat) returns (k: nat)
    requires n <= |history| && Increasing(history)
    ensures k <= n && Retained(history, b, n) == history[k..n]
    ensures k < n ==> !Before(history[k], b)
  {
    if n == 0 {
      k := 0;
    } else {
      k := RetainedIsSuffix(history, b, n - 1);
      assert k < n - 1 ==> history[k].receivedAt < history[n - 1].receivedAt;
      if Before(history[n - 1], b) {
        k := n;
      } else {
        assert history[k..n] == history[k..n - 1] + [history[n - 1]];
      }
    }
  }

  /** Oldest-first clean-up keeps the history faithful. */
  lemma CleanupFaithful(history: seq<Entry>, log: seq<Entry>, b: Bound)
    requires Faithful(history, log)
    ensures Faithful(Retained(history, b, |history|), log)
  {
    var k := RetainedIsSuffix(history, b, |history|);
    assert history[k..|history|] == history[k..];
    SuffixFaithful(history, log, k);
  }

  // A shortened history keeps its newest row, or has none.
  lemma CleanupDecided(history: seq<Entry>, e: Entry, insert: bool, b: Bound)
    requires Increasing(history) && Decided(history, e, insert)
    ensures Decided(Retained(history, b, |history|), e, insert)
  {
    var k := RetainedIsSuffix(history, b, |history|);
  }
}
