// The presence, revocation and history handlers on the stored tables, statement by statement,
// when no other transaction interferes.
module PresenceHandler {
  import opened Options
  import opened PresenceHistory
  import opened PresenceProtocol
  import opened PresenceRuns

  // A row of the history table, which holds all devices' rows in the order of their insertion.
  datatype HistoryRow = HistoryRow(device: DeviceId, entry: Entry)

  function RowsOf(rows: seq<HistoryRow>, d: DeviceId): seq<Entry> {
    if |rows| == 0 then []
    else
      var last := rows[|rows| - 1];
      RowsOf(rows[..|rows| - 1], d) + if last.device == d then [last.entry] else []
  }

  function Without(rows: seq<HistoryRow>, ds: set<DeviceId>): (kept: seq<HistoryRow>)
    ensures |kept| <= |rows|
  {
    if |rows| == 0 then []
    else
      var last := rows[|rows| - 1];
      Without(rows[..|rows| - 1], ds) + if last.device in ds then [] else [last]
  }

  lemma RowsOfAppend(rows: seq<HistoryRow>, row: HistoryRow, d: DeviceId)
    ensures RowsOf(rows + [row], d) == RowsOf(rows, d) + if row.device == d then [row.entry] else []
  {
    assert (rows + [row])[..|rows|] == rows;
  }

  // A deletion empties the histories of its devices and leaves every other one as it was.
  lemma {:induction false} RowsOfWithout(rows: seq<HistoryRow>, ds: set<DeviceId>, d: DeviceId)
    ensures RowsOf(Without(rows, ds), d) == if d in ds then [] else RowsOf(rows, d)
  {
    if |rows| > 0 {
      var front, last := rows[..|rows| - 1], rows[|rows| - 1];
      RowsOfWithout(front, ds, d);
      if last.device !in ds {
        RowsOfAppend(Without(front, ds), last, d);
      } else {
        assert Without(front, ds) + [] == Without(front, ds);
      }
    }
  }

  datatype Reply = Answer(answer: Answer) | InvalidCredential

  class PresenceTables {
    var active: set<UserId>
    var devices: map<DeviceId, Device>
    var presence: map<DeviceId, Presence>
    var history: seq<HistoryRow>

    predicate MayPut(d: DeviceId, account: UserId)
      reads this
    {
      d in devices && devices[d].owner == account && !devices[d].revoked && account in active
    }

    function View(d: DeviceId): DeviceView
      reads this
      requires d in devices
    {
      DeviceView(devices[d].mark, if d in presence then Some(presence[d]) else None, RowsOf(history, d))
    }

    constructor (active: set<UserId>, devices: map<DeviceId, Device>)
      ensures this.active == active && this.devices == devices && presence == map[] && history == []
    {
      this.active, this.devices, presence, history := active, devices, map[], [];
    }

    method InsertAcceptedPresenceHistory(d: DeviceId, e: Entry)
      modifies this`history
      ensures RowsOf(history, d) == Record(RowsOf(old(history), d), e)
      ensures forall x :: x != d ==> RowsOf(history, x) == RowsOf(old(history), x)
    {
      var before := RowsOf(history, d);
      if |before| > 0 {
        var latest := before[|before| - 1];
        if latest.kept == e.kept {
          return;
        }
      }
      forall x ensures RowsOf(history + [HistoryRow(d, e)], x) == RowsOf(history, x) + if x == d then [e] else [] {
        RowsOfAppend(history, HistoryRow(d, e), x);
      }
      history := history + [HistoryRow(d, e)];
    }

    // The answer and the new tables are told twice: as the protocol's, and by the rows themselves.
    method PutPresence(d: DeviceId, account: UserId, r: Request) returns (reply: Reply)
      modifies this
      ensures reply.Answer? <==>
                && d in old(devices) && old(devices)[d].owner == account && !old(devices)[d].revoked
                && account in old(active)
      ensures reply.Answer? ==> (reply.answer == Accepted <==> r.revision > old(devices)[d].mark)
      ensures reply.Answer? ==>
                (reply.answer == Stale(old(devices)[d].mark) <==> r.revision < old(devices)[d].mark)
      ensures reply.Answer? ==>
                (reply.answer == Repeated <==>
                   && r.revision == old(devices)[d].mark
                   && d in old(presence) && old(presence)[d].snapshot == r.snapshot)
      ensures reply.Answer? ==>
                (reply.answer == Conflict(old(devices)[d].mark) <==>
                   && r.revision == old(devices)[d].mark
                   && (d !in old(presence) || old(presence)[d].snapshot != r.snapshot))
      ensures reply == Answer(Accepted) ==> devices == old(devices)[d := old(devices)[d].(mark := r.revision)]
      ensures reply == Answer(Accepted) ==> presence == old(presence)[d := Presence(r.revision, r.snapshot)]
      ensures reply == Answer(Accepted) ==>
                var was, e := RowsOf(old(history), d), Entry(r.id, r.revision, r.snapshot.kept, r.now);
                RowsOf(history, d) == if |was| > 0 && was[|was| - 1].kept == e.kept then was else was + [e]
      ensures reply == if old(MayPut(d, account)) then Answer(Answered(old(View(d)), r)) else InvalidCredential
      ensures old(MayPut(d, account)) ==> MayPut(d, account) && View(d) == Handle(old(View(d)), r)
      ensures reply != Answer(Accepted) ==> unchanged(this)
      ensures active == old(active) && devices.Keys == old(devices).Keys
      ensures forall x :: x in devices && x != d ==> devices[x] == old(devices)[x] && View(x) == old(View(x))
    {
      if !MayPut(d, account) {
        return InvalidCredential;
      }
      var currentRevision := devices[d].mark;
      if r.revision < currentRevision {
        return Answer(Stale(currentRevision));
      }
      if r.revision == currentRevision {
        if d in presence && presence[d].snapshot == r.snapshot {
          return Answer(Repeated);
        }
        return Answer(Conflict(currentRevision));
      }
      devices := devices[d := devices[d].(mark := r.revision)];
      presence := presence[d := Presence(r.revision, r.snapshot)];
      InsertAcceptedPresenceHistory(d, Entry(r.id, r.revision, r.snapshot.kept, r.now));
      return Answer(Accepted);
    }

    // The device is refused from then on; its mark and history outlive the credential.
    method Revoke(d: DeviceId, account: UserId) returns (found: bool)
      modifies this
      ensures found <==> d in old(devices) && old(devices)[d].owner == account
      ensures !found ==> unchanged(this)
      ensures found ==> d in devices && View(d) == old(View(d)).(presence := None) && forall a :: !MayPut(d, a)
      ensures found ==> devices == old(devices)[d := old(devices)[d].(revoked := true)]
      ensures found ==> presence == old(presence) - {d} && history == old(history)
      ensures active == old(active) && devices.Keys == old(devices).Keys
      ensures forall x :: x in devices && x != d ==> devices[x] == old(devices)[x] && View(x) == old(View(x))
    {
      if d !in devices || devices[d].owner != account {
        return false;
      }
      devices := devices[d := devices[d].(revoked := true)];
      presence := presence - {d};
      return true;
    }

    function Mine(account: UserId): set<DeviceId>
      reads this
    {
      set d | d in devices && devices[d].owner == account
    }

    // All the account's devices lose their history, and nothing else changes.
    method DeleteHistory(account: UserId) returns (deleted: nat)
      modifies this`history
      ensures deleted == |old(history)| - |history|
      ensures forall d :: d in devices ==>
                View(d) == if devices[d].owner == account then old(View(d)).(history := []) else old(View(d))
    {
      var kept := Without(history, Mine(account));
      forall d ensures RowsOf(kept, d) == if d in Mine(account) then [] else RowsOf(history, d) {
        RowsOfWithout(history, Mine(account), d);
      }
      deleted := |history| - |kept|;
      history := kept;
    }
  }
}
