// The paged list over the history that the presence protocol keeps.
module HistoryListing {
  import opened Options
  import H = HistoryPaging
  import P = PresenceProtocol
  import R = PresenceRuns
  import PH = PresenceHistory

  // A listed row shows a stored row of the device; the device's name may change in between.
  predicate Shows(row: H.Entry, d: P.DeviceId, e: PH.Entry) {
    && row.key == H.Key(e.receivedAt, e.id) && row.device == d
    && row.location == e.kept.location && row.jurisdiction == e.kept.jurisdiction && row.ship == e.kept.ship
  }

  ghost predicate Visible(s: P.State, account: P.UserId, since: PH.Time, d: P.DeviceId, e: PH.Entry) {
    d in s.devices && s.devices[d].owner == account && d in s.history && e in s.history[d] && since <= e.receivedAt
  }

  ghost predicate Listed(rows: seq<H.Entry>, d: P.DeviceId, e: PH.Entry) {
    exists i :: 0 <= i < |rows| && Shows(rows[i], d, e)
  }

  ghost predicate Stored(s: P.State, account: P.UserId, since: PH.Time, row: H.Entry) {
    exists d, e :: Visible(s, account, since, d, e) && Shows(row, d, e)
  }

  // rows is what the list query sees: the account's rows not older than since, newest first.
  ghost predicate Lists(s: P.State, account: P.UserId, since: PH.Time, rows: seq<H.Entry>) {
    && H.Ordered(rows)
    && (forall row :: row in rows ==> Stored(s, account, since, row))
    && (forall d, e :: Visible(s, account, since, d, e) ==> Listed(rows, d, e))
  }

  // Request k of the client finds the tables as after at[k] steps of the run.
  datatype Visit = Visit(at: nat, since: PH.Time, rows: seq<H.Entry>, limit: nat)

  ghost predicate Visits(states: seq<P.State>, account: P.UserId, visits: seq<Visit>) {
    forall k :: 0 <= k < |visits| ==>
      && visits[k].at < |states| && visits[k].limit >= 1
      && Lists(states[visits[k].at], account, visits[k].since, visits[k].rows)
  }

  function Tables(visits: seq<Visit>): (tables: seq<seq<H.Entry>>)
    ensures |tables| == |visits| && forall k :: 0 <= k < |visits| ==> tables[k] == visits[k].rows
  {
    seq(|visits|, k requires 0 <= k < |visits| => visits[k].rows)
  }

  function Limits(visits: seq<Visit>): (limits: seq<nat>)
    ensures |limits| == |visits| && forall k :: 0 <= k < |visits| ==> limits[k] == visits[k].limit
  {
    seq(|visits|, k requires 0 <= k < |visits| => visits[k].limit)
  }

  lemma VisitsRequest(states: seq<P.State>, account: P.UserId, visits: seq<Visit>)
    requires Visits(states, account, visits)
    ensures H.Requests(Tables(visits), Limits(visits), |visits|)
  {
    forall k | 0 <= k < |visits| ensures H.Ordered(Tables(visits)[k]) {
      assert Lists(states[visits[k].at], account, visits[k].since, visits[k].rows);
    }
  }

  // A stored history row is a snapshot that was accepted and stays in the log of accepted ones.
  lemma StoredWasAccepted(states: seq<P.State>, steps: seq<P.Step>, i: nat, j: nat, d: P.DeviceId, e: PH.Entry)
    requires R.Run(states, steps) && i <= j < |states|
    requires d in states[i].devices && d in states[i].history && e in states[i].history[d]
    ensures d in states[j].log && e in states[j].log[d]
  {
    R.RunInv(states, steps, i);
    assert P.DeviceSafe(states[i], d);
    R.MarkNeverFalls(states, steps, i, j, d);
    assert states[i].log[d] <= states[j].log[d];
    var k :| 0 <= k < |states[i].log[d]| && states[i].log[d][k] == e;
    assert states[j].log[d][k] == e;
  }

  ghost predicate Accepted(s: P.State, row: H.Entry) {
    exists d, e :: d in s.log && e in s.log[d] && Shows(row, d, e)
  }

  /** Every entry the client collects, over however many changes between its requests, shows a
      snapshot that was answered as accepted for that device. */
  lemma CollectedWasAccepted(states: seq<P.State>, steps: seq<P.Step>, account: P.UserId, visits: seq<Visit>,
                             row: H.Entry)
    requires R.Run(states, steps) && Visits(states, account, visits)
    requires row in CollectedBy(states, account, visits).entries
    ensures Accepted(states[|states| - 1], row)
  {
    VisitsRequest(states, account, visits);
    H.ListedRowsExisted(Tables(visits), Limits(visits), |visits|, row);
    var k :| 0 <= k < |visits| && row in Tables(visits)[k];
    var visit := visits[k];
    assert Lists(states[visit.at], account, visit.since, visit.rows);
    assert Stored(states[visit.at], account, visit.since, row);
    var d, e :| Visible(states[visit.at], account, visit.since, d, e) && Shows(row, d, e);
    StoredWasAccepted(states, steps, visit.at, |states| - 1, d, e);
  }

  ghost function CollectedBy(states: seq<P.State>, account: P.UserId, visits: seq<Visit>): H.Loaded
    requires Visits(states, account, visits)
  {
    VisitsRequest(states, account, visits);
    H.Follow(Tables(visits), Limits(visits), |visits|)
  }

  ghost predicate Once(entries: seq<H.Entry>, key: H.Key) {
    exists i :: 0 <= i < |entries| && entries[i].key == key
                && forall j :: 0 <= j < |entries| && entries[j].key == key ==> j == i
  }

  /** A history row that is visible at every request is collected exactly once by the time the
      last page has come. */
  lemma VisibleThroughoutCollectedOnce(states: seq<P.State>, account: P.UserId, visits: seq<Visit>, d: P.DeviceId,
                                       e: PH.Entry)
    requires Visits(states, account, visits) && CollectedBy(states, account, visits).finished
    requires forall k :: 0 <= k < |visits| ==> Visible(states[visits[k].at], account, visits[k].since, d, e)
    ensures Once(CollectedBy(states, account, visits).entries, H.Key(e.receivedAt, e.id))
  {
    var key := H.Key(e.receivedAt, e.id);
    VisitsRequest(states, account, visits);
    forall k | 0 <= k < |visits| ensures H.HasKey(Tables(visits)[k], key) {
      assert Lists(states[visits[k].at], account, visits[k].since, visits[k].rows);
      assert Visible(states[visits[k].at], account, visits[k].since, d, e);
      assert Listed(visits[k].rows, d, e);
      var i :| 0 <= i < |visits[k].rows| && Shows(visits[k].rows[i], d, e);
      assert Tables(visits)[k][i].key == key;
    }
    H.LastingRowsExactlyOnce(Tables(visits), Limits(visits), |visits|, key);
  }
}
