// Inventory transactions reported by the game: what a user carries, kept twice, once as inventory
// rows and once as synchronised stock.
module InventoryEvents {
  import opened Options

  const INT4_MAX: int := 2147483647
  const MAX_QUANTITY: int := 1000000

  datatype Direction = ToBackpack | ToStation

  datatype Storage = Backpack | Station

  datatype Key = Key(user: string, item: string, location: string)

  datatype Place = Place(key: Key, storage: Storage)

  // direction is None and quantity None when the payload holds something else.
  datatype Event = Event(id: string, user: string, item: string, category: string, location: string,
                         direction: Option<Direction>, quantity: Option<int>)

  // Rows by key, the log of applied transactions and the identifiers seen.
  datatype Tables = Tables(inventory: map<Key, int>, sync: map<Place, int>, ledger: seq<Event>, seen: set<string>)

  const EMPTY := Tables(map[], map[], [], {})

  predicate ItemChar(c: char) {
    ('A' <= c <= 'Z') || ('a' <= c <= 'z') || ('0' <= c <= '9') || c == '_' || c == '.' || c == '-'
  }

  predicate ValidEvent(e: Event) {
    && 1 <= |e.item| <= 300 && (forall i :: 0 <= i < |e.item| ==> ItemChar(e.item[i]))
    && e.direction.Some? && 1 <= |e.location| <= 200
    && e.quantity.Some? && 1 <= e.quantity.value <= MAX_QUANTITY
    && (e.category == "Weapons" || e.category == "Armor")
  }

  function KeyOf(e: Event): Key {
    Key(e.user, e.item, e.location)
  }

  // What the event adds to the backpack; the station gets the opposite.
  function Delta(e: Event): int {
    var q := if e.quantity.Some? then e.quantity.value else 0;
    if e.direction == Some(ToBackpack) then q else -q
  }

  function Max(a: int, b: int): int {
    if a > b then a else b
  }

  function Stored<K>(rows: map<K, int>, k: K): int {
    if k in rows then rows[k] else 0
  }

  // ---- The statements of one event; None where a column overflows ----

  // A row at zero is deleted, and taking from no row does nothing.
  function Carry(rows: map<Key, int>, k: Key, delta: int): Option<map<Key, int>> {
    if delta > 0 then
      if Stored(rows, k) + delta > INT4_MAX then None else Some(rows[k := Stored(rows, k) + delta])
    else if k !in rows then Some(rows)
    else if rows[k] <= -delta then Some(rows - {k})
    else Some(rows[k := rows[k] + delta])
  }

  // A row may stay at zero.
  function Sync(rows: map<Place, int>, p: Place, delta: int): Option<map<Place, int>> {
    if Stored(rows, p) + delta > INT4_MAX then None
    else Some(rows[p := Max(Stored(rows, p) + delta, 0)])
  }

  function SyncBoth(rows: map<Place, int>, k: Key, delta: int): Option<map<Place, int>> {
    var one := Sync(rows, Place(k, Backpack), delta);
    if one.None? then None else Sync(one.value, Place(k, Station), -delta)
  }

  function Applied(t: Tables, e: Event): Option<Tables> {
    var inventory, sync := Carry(t.inventory, KeyOf(e), Delta(e)), SyncBoth(t.sync, KeyOf(e), Delta(e));
    if !ValidEvent(e) || inventory.None? || sync.None? then None
    else Some(Tables(inventory.value, sync.value, t.ledger + [e], t.seen + {e.id}))
  }

  // A repeated event is acknowledged and a failing one is rolled back.
  function Handled(t: Tables, e: Event, interrupted: bool): Tables {
    if e.id in t.seen || interrupted || Applied(t, e).None? then t else Applied(t, e).value
  }

  // ---- What an event does, by rows and directions ----

  // What the payload must hold, and that no quantity leaves the range of its column.
  predicate Admissible(t: Tables, e: Event) {
    && 1 <= |e.item| <= 300
    && (forall i :: 0 <= i < |e.item| ==>
          || ('A' <= e.item[i] <= 'Z') || ('a' <= e.item[i] <= 'z') || ('0' <= e.item[i] <= '9')
          || e.item[i] == '_' || e.item[i] == '.' || e.item[i] == '-')
    && 1 <= |e.location| <= 200
    && (e.category == "Weapons" || e.category == "Armor")
    && e.direction.Some? && e.quantity.Some? && 1 <= e.quantity.value <= 1000000
    && var k, q := Key(e.user, e.item, e.location), e.quantity.value;
       if e.direction.value == ToBackpack
       then Stored(t.inventory, k) + q <= 2147483647 && Stored(t.sync, Place(k, Backpack)) + q <= 2147483647
       else Stored(t.sync, Place(k, Station)) + q <= 2147483647
  }

  // Taking to the backpack raises inventory and backpack and lowers the station, bringing to the
  // station does the reverse, and nothing falls below zero. Other rows stay.
  ghost predicate Transacted(t: Tables, e: Event, u: Tables) {
    && e.direction.Some? && e.quantity.Some?
    && (var k, q := Key(e.user, e.item, e.location), e.quantity.value;
        var carried := Stored(t.inventory, k);
        var worn, stored := Stored(t.sync, Place(k, Backpack)), Stored(t.sync, Place(k, Station));
        && (e.direction.value == ToBackpack ==>
              && Stored(u.inventory, k) == carried + q
              && Stored(u.sync, Place(k, Backpack)) == worn + q
              && Stored(u.sync, Place(k, Station)) == if stored > q then stored - q else 0)
        && (e.direction.value == ToStation ==>
              && Stored(u.inventory, k) == (if carried > q then carried - q else 0)
              && Stored(u.sync, Place(k, Backpack)) == (if worn > q then worn - q else 0)
              && Stored(u.sync, Place(k, Station)) == stored + q)
        && (forall j :: j != k ==> (j in u.inventory <==> j in t.inventory))
        && (forall j :: j != k && j in t.inventory ==> u.inventory[j] == t.inventory[j])
        && (forall p: Place :: p.key != k ==> (p in u.sync <==> p in t.sync))
        && (forall p: Place :: p.key != k && p in t.sync ==> u.sync[p] == t.sync[p]))
    && u.ledger == t.ledger + [e]
  }

  // What the columns' checks and their type allow: no empty inventory row, nothing negative.
  ghost predicate Checked(t: Tables) {
    && (forall k :: k in t.inventory ==> 1 <= t.inventory[k] <= 2147483647)
    && (forall p :: p in t.sync ==> 0 <= t.sync[p] <= 2147483647)
  }

  /** On tables that pass the columns' checks, an event is applied exactly when it is admissible,
      and then moves its quantity in its direction. */
  lemma AppliedMeaning(t: Tables, e: Event)
    requires Checked(t)
    ensures Applied(t, e).Some? <==> Admissible(t, e)
    ensures Applied(t, e).Some? ==>
              && Transacted(t, e, Applied(t, e).value) && Checked(Applied(t, e).value)
              && Applied(t, e).value.seen == t.seen + {e.id}
  {
    AppliedIff(t, e);
    if Admissible(t, e) {
      AppliedMoves(t, e);
    }
  }

  lemma AppliedIff(t: Tables, e: Event)
    requires Checked(t)
    ensures Applied(t, e).Some? <==> Admissible(t, e)
  {
  }

  lemma AppliedMoves(t: Tables, e: Event)
    requires Checked(t) && Admissible(t, e) && Applied(t, e).Some?
    ensures Transacted(t, e, Applied(t, e).value) && Checked(Applied(t, e).value)
  {
    AppliedOwn(t, e);
    AppliedFrame(t, e);
    AppliedChecked(t, e);
  }

  lemma AppliedOwn(t: Tables, e: Event)
    requires Checked(t) && Admissible(t, e) && Applied(t, e).Some?
    ensures var u, k, q := Applied(t, e).value, Key(e.user, e.item, e.location), e.quantity.value;
            var carried := Stored(t.inventory, k);
            var worn, stored := Stored(t.sync, Place(k, Backpack)), Stored(t.sync, Place(k, Station));
            if e.direction.value == ToBackpack then
              && Stored(u.inventory, k) == carried + q
              && Stored(u.sync, Place(k, Backpack)) == worn + q
              && Stored(u.sync, Place(k, Station)) == if stored > q then stored - q else 0
            else
              && Stored(u.inventory, k) == (if carried > q then carried - q else 0)
              && Stored(u.sync, Place(k, Backpack)) == (if worn > q then worn - q else 0)
              && Stored(u.sync, Place(k, Station)) == stored + q
  {
  }

  lemma AppliedFrame(t: Tables, e: Event)
    requires Applied(t, e).Some?
    ensures var u, k := Applied(t, e).value, Key(e.user, e.item, e.location);
            && (forall j :: j != k ==> (j in u.inventory <==> j in t.inventory))
            && (forall j :: j != k && j in t.inventory ==> u.inventory[j] == t.inventory[j])
            && (forall p: Place :: p.key != k ==> (p in u.sync <==> p in t.sync))
            && (forall p: Place :: p.key != k && p in t.sync ==> u.sync[p] == t.sync[p])
  {
  }

  lemma AppliedChecked(t: Tables, e: Event)
    requires Checked(t) && Applied(t, e).Some?
    ensures Checked(Applied(t, e).value)
  {
  }

  // ---- The same, statement by statement ----

  datatype Outcome = Accepted | Duplicate | Rejected

  class InventoryStore {
    var inventory: map<Key, int>
    var sync: map<Place, int>
    var ledger: seq<Event>
    var seen: set<string>

    ghost function State(): Tables
      reads this
    {
      Tables(inventory, sync, ledger, seen)
    }

    constructor ()
      ensures State() == EMPTY
    {
      inventory, sync, ledger, seen := map[], map[], [], {};
    }

    // False: the statement failed and the caller rolls back.
    method ApplyTransaction(e: Event) returns (ok: bool)
      modifies this
      ensures ok <==> Applied(old(State()), e).Some?
      ensures ok ==> State() == Applied(old(State()), e).value.(seen := old(seen))
      ensures seen == old(seen)
      ensures old(Checked(State())) ==> (ok <==> Admissible(old(State()), e))
      ensures old(Checked(State())) && ok ==> Transacted(old(State()), e, State()) && Checked(State())
    {
      ghost var was := State();
      ok := RunStatements(e);
      if Checked(was) {
        AppliedMeaning(was, e);
      }
    }

    method RunStatements(e: Event) returns (ok: bool)
      modifies this
      ensures ok <==> Applied(old(State()), e).Some?
      ensures ok ==> State() == Applied(old(State()), e).value.(seen := old(seen))
      ensures seen == old(seen)
    {
      if !ValidEvent(e) {
        return false;
      }
      var k, quantity := KeyOf(e), e.quantity.value;
      if e.direction == Some(ToBackpack) {
        var sum := (if k in inventory then inventory[k] else 0) + quantity;
        if sum > INT4_MAX {
          return false;
        }
        inventory := inventory[k := sum];
      } else {
        if k in inventory && inventory[k] <= quantity {
          inventory := inventory - {k};
        }
        if k in inventory {
          inventory := inventory[k := inventory[k] - quantity];
        }
      }
      var backpackDelta := if e.direction == Some(ToBackpack) then quantity else -quantity;
      var changes := [(Backpack, backpackDelta), (Station, -backpackDelta)];
      ghost var before := sync;
      for i := 0 to |changes|
        invariant seen == old(seen) && ledger == old(ledger) && Carry(old(inventory), k, Delta(e)) == Some(inventory)
        invariant i == 0 ==> sync == before
        invariant i == 1 ==> Sync(before, Place(k, Backpack), Delta(e)) == Some(sync)
        invariant i == 2 ==> SyncBoth(before, k, Delta(e)) == Some(sync)
      {
        var place := Place(k, changes[i].0);
        var sum := (if place in sync then sync[place] else 0) + changes[i].1;
        if sum > INT4_MAX {
          return false;
        }
        sync := sync[place := Max(sum, 0)];
      }
      ledger := ledger + [e];
      return true;
    }

    method Handle(e: Event, interrupted: bool) returns (outcome: Outcome)
      modifies this
      ensures State() == Handled(old(State()), e, interrupted)
      ensures outcome == Duplicate <==> e.id in old(seen)
      ensures outcome == Accepted <==> e.id !in old(seen) && e.id in seen
      ensures outcome != Accepted ==> State() == old(State())
      ensures old(Checked(State())) ==>
                (outcome == Accepted <==> e.id !in old(seen) && !interrupted && Admissible(old(State()), e))
      ensures old(Checked(State())) ==> Checked(State())
      ensures old(Checked(State())) && outcome == Accepted ==>
                Transacted(old(State()), e, State()) && seen == old(seen) + {e.id}
    {
      ghost var was := State();
      if Checked(was) {
        AppliedMeaning(was, e);
      }
      if e.id in seen {
        return Duplicate;
      }
      var before := (inventory, sync, ledger);
      var ok := ApplyTransaction(e);
      if !ok || interrupted {
        inventory, sync, ledger := before.0, before.1, before.2;
        return Rejected;
      }
      seen := seen + {e.id};
      return Accepted;
    }
  }

  // ---- The clamped balance ----

  // The quantities that the first n events move in one direction.
  function Moved(ledger: seq<Event>, n: nat, k: Key, direction: Direction): int
    requires n <= |ledger|
  {
    if n == 0 then 0
    else
      var e := ledger[n - 1];
      Moved(ledger, n - 1, k, direction)
      + if Key(e.user, e.item, e.location) == k && e.direction == Some(direction) && e.quantity.Some?
        then e.quantity.value else 0
  }

  // What was taken to the backpack less what was brought to the station.
  function Total(ledger: seq<Event>, n: nat, k: Key): int
    requires n <= |ledger|
  {
    Moved(ledger, n, k, ToBackpack) - Moved(ledger, n, k, ToStation)
  }

  predicate LowestTotal(ledger: seq<Event>, k: Key, low: int) {
    && (exists i :: 0 <= i <= |ledger| && Total(ledger, i, k) == low)
    && (forall i :: 0 <= i <= |ledger| ==> low <= Total(ledger, i, k))
  }

  predicate HighestTotal(ledger: seq<Event>, k: Key, high: int) {
    && (exists i :: 0 <= i <= |ledger| && Total(ledger, i, k) == high)
    && (forall i :: 0 <= i <= |ledger| ==> Total(ledger, i, k) <= high)
  }

  lemma {:induction false} TotalPrefix(ledger: seq<Event>, e: Event, n: nat, k: Key)
    requires n <= |ledger|
    ensures Total(ledger + [e], n, k) == Total(ledger, n, k)
    ensures Moved(ledger + [e], n, k, ToBackpack) == Moved(ledger, n, k, ToBackpack)
    ensures Moved(ledger + [e], n, k, ToStation) == Moved(ledger, n, k, ToStation)
  {
    if n > 0 {
      TotalPrefix(ledger, e, n - 1, k);
    }
  }

  lemma LowestAppend(ledger: seq<Event>, e: Event, k: Key, low: int)
    requires LowestTotal(ledger, k, low)
    ensures var total := Total(ledger + [e], |ledger| + 1, k);
            LowestTotal(ledger + [e], k, if total < low then total else low)
  {
    var total := Total(ledger + [e], |ledger| + 1, k);
    forall i | 0 <= i <= |ledger| ensures Total(ledger + [e], i, k) == Total(ledger, i, k) {
      TotalPrefix(ledger, e, i, k);
    }
    var i :| 0 <= i <= |ledger| && Total(ledger, i, k) == low;
    assert Total(ledger + [e], i, k) == low;
  }

  lemma HighestAppend(ledger: seq<Event>, e: Event, k: Key, high: int)
    requires HighestTotal(ledger, k, high)
    ensures var total := Total(ledger + [e], |ledger| + 1, k);
            HighestTotal(ledger + [e], k, if total > high then total else high)
  {
    var total := Total(ledger + [e], |ledger| + 1, k);
    forall i | 0 <= i <= |ledger| ensures Total(ledger + [e], i, k) == Total(ledger, i, k) {
      TotalPrefix(ledger, e, i, k);
    }
    var i :| 0 <= i <= |ledger| && Total(ledger, i, k) == high;
    assert Total(ledger + [e], i, k) == high;
  }

  // ---- Every run ----

  datatype Delivery = Delivery(event: Event, interrupted: bool)

  function After(deliveries: seq<Delivery>, n: nat): Tables
    requires n <= |deliveries|
  {
    if n == 0 then EMPTY
    else Handled(After(deliveries, n - 1), deliveries[n - 1].event, deliveries[n - 1].interrupted)
  }

  // Both records of the backpack are the total less its lowest value so far; the station mirrors
  // it from above. Inventory rows are positive.
  ghost predicate Balanced(t: Tables, k: Key) {
    && (k in t.inventory ==> 1 <= t.inventory[k])
    && Stored(t.inventory, k) == Stored(t.sync, Place(k, Backpack))
    && LowestTotal(t.ledger, k, Total(t.ledger, |t.ledger|, k) - Stored(t.inventory, k))
    && HighestTotal(t.ledger, k, Total(t.ledger, |t.ledger|, k) + Stored(t.sync, Place(k, Station)))
  }

  lemma AppliedToOther(t: Tables, e: Event, k: Key)
    requires Applied(t, e).Some? && KeyOf(e) != k
    ensures var u := Applied(t, e).value;
            && (k in u.inventory <==> k in t.inventory) && Stored(u.inventory, k) == Stored(t.inventory, k)
            && Stored(u.sync, Place(k, Backpack)) == Stored(t.sync, Place(k, Backpack))
            && Stored(u.sync, Place(k, Station)) == Stored(t.sync, Place(k, Station))
  {
  }

  lemma AppliedToOwn(t: Tables, e: Event)
    requires Applied(t, e).Some?
    requires KeyOf(e) in t.inventory ==> 1 <= t.inventory[KeyOf(e)]
    ensures var u, k := Applied(t, e).value, KeyOf(e);
            && (k in u.inventory ==> 1 <= u.inventory[k])
            && Stored(u.inventory, k) == Max(Stored(t.inventory, k) + Delta(e), 0)
            && Stored(u.sync, Place(k, Backpack)) == Max(Stored(t.sync, Place(k, Backpack)) + Delta(e), 0)
            && Stored(u.sync, Place(k, Station)) == Max(Stored(t.sync, Place(k, Station)) - Delta(e), 0)
  {
  }

  lemma AppliedStores(t: Tables, e: Event, k: Key)
    requires Applied(t, e).Some? && (k in t.inventory ==> 1 <= t.inventory[k])
    requires 0 <= Stored(t.inventory, k) == Stored(t.sync, Place(k, Backpack)) && 0 <= Stored(t.sync, Place(k, Station))
    ensures var u, delta := Applied(t, e).value, DeltaFor(e, k);
            && (k in u.inventory ==> 1 <= u.inventory[k])
            && Stored(u.inventory, k) == Stored(u.sync, Place(k, Backpack)) == Max(Stored(t.inventory, k) + delta, 0)
            && Stored(u.sync, Place(k, Station)) == Max(Stored(t.sync, Place(k, Station)) - delta, 0)
  {
    if KeyOf(e) == k {
      AppliedToOwn(t, e);
    } else {
      AppliedToOther(t, e, k);
    }
  }

  function DeltaFor(e: Event, k: Key): int {
    if KeyOf(e) == k then Delta(e) else 0
  }

  // The totals' lowest and highest values, seen from the new total.
  lemma LogGrows(t: Tables, e: Event, k: Key, total: int, kept: nat, station: nat)
    requires total == Total(t.ledger, |t.ledger|, k) && ValidEvent(e)
    requires LowestTotal(t.ledger, k, total - kept) && HighestTotal(t.ledger, k, total + station)
    ensures var now := total + DeltaFor(e, k);
            && Total(t.ledger + [e], |t.ledger| + 1, k) == now
            && LowestTotal(t.ledger + [e], k, now - Max(kept + DeltaFor(e, k), 0))
            && HighestTotal(t.ledger + [e], k, now + Max(station - DeltaFor(e, k), 0))
  {
    TotalGrows(t, e, k);
    LowestAppend(t.ledger, e, k, total - kept);
    HighestAppend(t.ledger, e, k, total + station);
  }

  lemma TotalGrows(t: Tables, e: Event, k: Key)
    requires ValidEvent(e)
    ensures Total(t.ledger + [e], |t.ledger| + 1, k) == Total(t.ledger, |t.ledger|, k) + DeltaFor(e, k)
  {
    var all, n := t.ledger + [e], |t.ledger|;
    TotalPrefix(t.ledger, e, n, k);
    assert all[n] == e;
    assert e.direction.value == ToBackpack || e.direction.value == ToStation;
    MovedNext(all, n, k, ToBackpack);
    MovedNext(all, n, k, ToStation);
  }

  lemma MovedNext(ledger: seq<Event>, n: nat, k: Key, direction: Direction)
    requires n < |ledger| && ValidEvent(ledger[n])
    ensures Moved(ledger, n + 1, k, direction) == Moved(ledger, n, k, direction)
         + if KeyOf(ledger[n]) == k && ledger[n].direction == Some(direction) then ledger[n].quantity.value else 0
  {
  }

  // The stocks of the key follow the event, clamped at zero.
  ghost predicate Follows(t: Tables, u: Tables, e: Event, k: Key) {
    && u.ledger == t.ledger + [e] && ValidEvent(e)
    && (k in u.inventory ==> 1 <= u.inventory[k])
    && Stored(u.inventory, k) == Stored(u.sync, Place(k, Backpack)) == Max(Stored(t.inventory, k) + DeltaFor(e, k), 0)
    && Stored(u.sync, Place(k, Station)) == Max(Stored(t.sync, Place(k, Station)) - DeltaFor(e, k), 0)
  }

  lemma FollowingIsBalanced(t: Tables, u: Tables, e: Event, k: Key)
    requires Balanced(t, k) && Follows(t, u, e, k)
    ensures Balanced(u, k)
  {
    var total, kept := Total(t.ledger, |t.ledger|, k), Stored(t.inventory, k);
    var station := Stored(t.sync, Place(k, Station));
    assert total - kept <= total <= total + station;
    LogGrows(t, e, k, total, kept, station);
  }

  lemma AppliedKeepsBalance(t: Tables, e: Event, k: Key)
    requires Applied(t, e).Some? && Balanced(t, k)
    ensures Balanced(Applied(t, e).value, k)
  {
    assert Total(t.ledger, |t.ledger|, k) <= Total(t.ledger, |t.ledger|, k) + Stored(t.sync, Place(k, Station));
    AppliedStores(t, e, k);
    FollowingIsBalanced(t, Applied(t, e).value, e, k);
  }

  /** In every run of deliveries, repeated, failing or not, the inventory quantity, an absent row
      counting as zero, is the synchronised backpack quantity, and both are the total of the
      applied transactions less the lowest total along the way. */
  lemma {:induction false} InventoryIsClampedBalance(deliveries: seq<Delivery>, n: nat, k: Key)
    requires n <= |deliveries|
    ensures Balanced(After(deliveries, n), k)
  {
    if n == 0 {
      assert Total([], 0, k) == 0;
    } else {
      InventoryIsClampedBalance(deliveries, n - 1, k);
      var t, d := After(deliveries, n - 1), deliveries[n - 1];
      if After(deliveries, n) != t {
        AppliedKeepsBalance(t, d.event, k);
      }
    }
  }

  // ---- Repeats and replay ----

  ghost predicate InLog(ledger: seq<Event>, id: string) {
    exists i :: 0 <= i < |ledger| && ledger[i].id == id
  }

  ghost predicate Logged(t: Tables) {
    && (forall i :: 0 <= i < |t.ledger| ==> t.ledger[i].id in t.seen && ValidEvent(t.ledger[i]))
    && (forall id :: id in t.seen ==> InLog(t.ledger, id))
    && (forall i, j :: 0 <= i < j < |t.ledger| ==> t.ledger[i].id != t.ledger[j].id)
  }

  lemma InLogAppend(ledger: seq<Event>, e: Event, id: string)
    ensures InLog(ledger + [e], id) <==> InLog(ledger, id) || id == e.id
  {
    assert (ledger + [e])[|ledger|] == e;
    if i :| 0 <= i < |ledger| && ledger[i].id == id {
      assert (ledger + [e])[i].id == id;
    }
  }

  lemma AppliedLogged(t: Tables, e: Event)
    requires Logged(t) && e.id !in t.seen && Applied(t, e).Some?
    ensures Logged(Applied(t, e).value)
  {
    forall id | id in t.seen + {e.id} ensures InLog(t.ledger + [e], id) {
      InLogAppend(t.ledger, e, id);
    }
  }

  // Every seen event is in the log, once, and is valid.
  lemma {:induction false} EachEventLoggedOnce(deliveries: seq<Delivery>, n: nat)
    requires n <= |deliveries|
    ensures Logged(After(deliveries, n))
  {
    if n > 0 {
      EachEventLoggedOnce(deliveries, n - 1);
      var t, d := After(deliveries, n - 1), deliveries[n - 1];
      if After(deliveries, n) != t {
        AppliedLogged(t, d.event);
      }
    }
  }

  function Deliver(t: Tables, deliveries: seq<Delivery>, n: nat): Tables
    requires n <= |deliveries|
  {
    if n == 0 then t
    else Handled(Deliver(t, deliveries, n - 1), deliveries[n - 1].event, deliveries[n - 1].interrupted)
  }

  // Seen events can come again, in any order and number, without effect.
  lemma {:induction false} RedeliveryChangesNothing(t: Tables, again: seq<Delivery>, n: nat)
    requires n <= |again| && forall i :: 0 <= i < |again| ==> again[i].event.id in t.seen
    ensures Deliver(t, again, n) == t
  {
    if n > 0 {
      RedeliveryChangesNothing(t, again, n - 1);
    }
  }

  function Replayed(ledger: seq<Event>, n: nat): Tables
    requires n <= |ledger|
  {
    if n == 0 then EMPTY else Handled(Replayed(ledger, n - 1), ledger[n - 1], false)
  }

  lemma {:induction false} ReplayPrefix(ledger: seq<Event>, e: Event, n: nat)
    requires n <= |ledger|
    ensures Replayed(ledger + [e], n) == Replayed(ledger, n)
  {
    if n > 0 {
      ReplayPrefix(ledger, e, n - 1);
    }
  }

  lemma ReplayNext(t: Tables, e: Event)
    requires Replayed(t.ledger, |t.ledger|) == t && e.id !in t.seen && Applied(t, e).Some?
    ensures var u := Applied(t, e).value; Replayed(u.ledger, |u.ledger|) == u
  {
    ReplayPrefix(t.ledger, e, |t.ledger|);
    assert (t.ledger + [e])[|t.ledger|] == e;
  }

  lemma HandledRebuilds(t: Tables, e: Event, interrupted: bool)
    requires Replayed(t.ledger, |t.ledger|) == t
    ensures var u := Handled(t, e, interrupted); Replayed(u.ledger, |u.ledger|) == u
  {
    if Handled(t, e, interrupted) != t {
      ReplayNext(t, e);
    }
  }

  /** Replaying the log rebuilds every table: repeats, rejected and interrupted deliveries leave
      no trace. */
  lemma {:induction false} LogRebuildsTables(deliveries: seq<Delivery>, n: nat)
    requires n <= |deliveries|
    ensures var t := After(deliveries, n); Replayed(t.ledger, |t.ledger|) == t
  {
    if n > 0 {
      LogRebuildsTables(deliveries, n - 1);
      HandledRebuilds(After(deliveries, n - 1), deliveries[n - 1].event, deliveries[n - 1].interrupted);
    }
  }
}
