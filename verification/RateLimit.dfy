// The fixed-window request limiter: per-key counts with a bound on the number of keys.
module RateLimit {
  import opened Options

  const MAX_SAFE_INTEGER: nat := 9007199254740991

  datatype Config = Config(limit: nat, windowMs: real, maxEntries: nat) {
    predicate Valid() {
      limit >= 1 && windowMs >= 1.0 && maxEntries >= 1
    }
  }

  datatype Entry = Entry(count: nat, resetAt: real)

  type Entries = map<string, Entry>

  // Math.ceil
  function Ceil(x: real): (n: int)
    ensures x <= n as real < x + 1.0
  {
    -((-x).Floor)
  }

  // An absent or empty key is counted as "unknown".
  function Keyed(key: string): string {
    if key == "" then "unknown" else key
  }

  // ---- What one request does ----

  function Live(entries: Entries, t: real): Entries {
    map k | k in entries && entries[k].resetAt > t :: entries[k]
  }

  predicate AdmitsLive(c: Config, live: Entries, key: string) {
    if key in live then live[key].count < c.limit else |live| < c.maxEntries
  }

  predicate Admits(c: Config, entries: Entries, key: string, t: real) {
    AdmitsLive(c, Live(entries, t), key)
  }

  function Counted(c: Config, live: Entries, key: string, t: real): Entries {
    if !AdmitsLive(c, live, key) then live
    else if key in live then live[key := live[key].(count := live[key].count + 1)]
    else live[key := Entry(1, t + c.windowMs)]
  }

  function After(c: Config, entries: Entries, key: string, t: real): Entries {
    Counted(c, Live(entries, t), key, t)
  }

  predicate Sane(c: Config, entries: Entries) {
    && c.Valid() && |entries| <= c.maxEntries && "" !in entries
    && forall k :: k in entries ==> 1 <= entries[k].count <= c.limit
  }

  predicate Earliest(live: Entries, at: real) {
    (exists k :: k in live && live[k].resetAt == at) && (forall k :: k in live ==> at <= live[k].resetAt)
  }

  // When a refused key may come back.
  predicate ResetOf(c: Config, live: Entries, key: string, at: real) {
    if key in live then at == live[key].resetAt else Earliest(live, at)
  }

  lemma {:induction false} SubsetSize<T>(small: set<T>, large: set<T>)
    requires small <= large
    ensures |small| <= |large|
    ensures small != large ==> |small| < |large|
  {
    if small != {} {
      var x :| x in small;
      SubsetSize(small - {x}, large - {x});
      if small != large {
        var y :| y in large && y !in small;
        assert y in large - {x} && y !in small - {x};
      }
    } else if large != {} {
      var y :| y in large;
    }
  }

  lemma LiveSize(entries: Entries, t: real)
    ensures |Live(entries, t)| <= |entries|
    ensures (exists k :: k in entries && entries[k].resetAt <= t) ==> |Live(entries, t)| < |entries|
  {
    SubsetSize(Live(entries, t).Keys, entries.Keys);
  }

  lemma LiveAgain(entries: Entries, t: real, later: real)
    requires t <= later
    ensures Live(Live(entries, t), later) == Live(entries, later)
  {
  }

  lemma AfterIsSane(c: Config, entries: Entries, key: string, t: real)
    requires Sane(c, entries) && key != ""
    ensures Sane(c, After(c, entries, key, t))
  {
    LiveSize(entries, t);
    var live := Live(entries, t);
    if key !in live && AdmitsLive(c, live, key) {
      assert live[key := Entry(1, t + c.windowMs)].Keys == live.Keys + {key};
    } else if key in live {
      assert live[key := live[key].(count := live[key].count + 1)].Keys == live.Keys;
    }
  }

  // ---- The limiter ----

  datatype Bucket = Bucket(count: nat, resetAt: real)

  datatype Verdict = Verdict(allowed: bool, remaining: int, resetAt: real, retryAfter: int, capacityLimited: bool)

  function Kept(overflow: Option<Bucket>, t: real): Option<Bucket> {
    if overflow.Some? && overflow.value.resetAt <= t then None else overflow
  }

  function Overflowed(overflow: Option<Bucket>, resetAt: real): Option<Bucket> {
    var count := if overflow.None? || overflow.value.resetAt != resetAt then 0 else overflow.value.count;
    Some(Bucket(if count + 1 < MAX_SAFE_INTEGER then count + 1 else MAX_SAFE_INTEGER, resetAt))
  }

  predicate VerdictOf(c: Config, live: Entries, key: string, t: real, v: Verdict) {
    && v.allowed == AdmitsLive(c, live, key)
    && v.capacityLimited == (key !in live && |live| >= c.maxEntries)
    && (if v.allowed && key !in live then v.resetAt == t + c.windowMs else ResetOf(c, live, key, v.resetAt))
    && v.retryAfter == Ceil((v.resetAt - t) / 1000.0)
    && v.remaining == (if !v.allowed then 0 else c.limit - Counted(c, live, key, t)[key].count)
  }

  // A client that gives a key is counted under it, and one that gives none under "unknown".
  predicate CountedUnder(given: string, key: string) {
    if given == "" then key == "unknown" else key == given
  }

  lemma KeyedIff(given: string, key: string)
    ensures CountedUnder(given, key) <==> key == Keyed(given)
  {
  }

  // ---- What consume and allow do, by the clients' keys ----

  // The entries that have not expired, each as it was, but for one key.
  ghost predicate OthersKept(was: Entries, t: real, key: string, now: Entries) {
    && (forall k :: k != key ==> (k in now <==> k in was && was[k].resetAt > t))
    && (forall k :: k != key && k in now ==> now[k] == was[k])
  }

  function Running(was: Entries, t: real): set<string> {
    set k | k in was && was[k].resetAt > t
  }

  predicate Open(c: Config, was: Entries, key: string, t: real) {
    if key in Running(was, t) then was[key].count < c.limit else |Running(was, t)| < c.maxEntries
  }

  // A client's request under its own key: one more in a running window with room, the first of a
  // new window if there is room for a key, and otherwise refused.
  ghost predicate Consumed(c: Config, was: Entries, key: string, t: real, v: Verdict, now: Entries) {
    var running := key in Running(was, t);
    && OthersKept(was, t, key, now)
    && v.allowed == Open(c, was, key, t)
    && v.capacityLimited == (!running && !v.allowed)
    && (v.allowed ==> key in now && v.remaining == c.limit - now[key].count && v.resetAt == now[key].resetAt)
    && (v.allowed && running ==> now[key] == Entry(was[key].count + 1, was[key].resetAt))
    && (v.allowed && !running ==> now[key] == Entry(1, t + c.windowMs))
    && (!v.allowed ==> v.remaining == 0 && (key in now <==> running))
    && (!v.allowed && running ==> now[key] == was[key] && v.resetAt == was[key].resetAt)
    && (!v.allowed && !running ==>
          && (exists k :: k in Running(was, t) && was[k].resetAt == v.resetAt)
          && (forall k :: k in Running(was, t) ==> v.resetAt <= was[k].resetAt))
    && 1000.0 * (v.retryAfter - 1) as real < v.resetAt - t <= 1000.0 * v.retryAfter as real
  }

  lemma RunningIsLive(was: Entries, t: real)
    ensures Running(was, t) == Live(was, t).Keys && |Running(was, t)| == |Live(was, t)|
  {
  }

  /** The verdict and the new entries, told by the key that the client is counted under. */
  lemma ConsumedMeaning(c: Config, was: Entries, given: string, key: string, t: real, v: Verdict)
    requires CountedUnder(given, key) && VerdictOf(c, Live(was, t), Keyed(given), t, v)
    ensures Consumed(c, was, key, t, v, After(c, was, Keyed(given), t))
  {
    RunningIsLive(was, t);
    KeyedIff(given, key);
    CeilScaled(v.resetAt - t, v.retryAfter);
  }

  lemma CeilScaled(x: real, n: int)
    requires n == Ceil(x / 1000.0)
    ensures 1000.0 * (n - 1) as real < x <= 1000.0 * n as real
  {
  }

  class RequestRateLimiter {
    const config: Config
    var entries: Entries
    var overflowBucket: Option<Bucket>

    ghost predicate Valid() reads this {
      Sane(config, entries)
    }

    constructor (config: Config)
      requires config.Valid()
      ensures Valid() && this.config == config && entries == map[] && overflowBucket == None
    {
      this.config := config;
      entries := map[];
      overflowBucket := None;
    }

    method Cleanup(t: real)
      requires Valid()
      modifies this
      ensures Valid() && entries == Live(old(entries), t) && overflowBucket == Kept(old(overflowBucket), t)
    {
      var keys := entries.Keys;
      while keys != {}
        invariant keys <= entries.Keys && entries.Keys <= old(entries).Keys
        invariant forall k :: k in entries ==> entries[k] == old(entries)[k] && (k in keys || entries[k].resetAt > t)
        invariant forall k :: k in old(entries) && old(entries)[k].resetAt > t ==> k in entries
        invariant overflowBucket == old(overflowBucket)
        decreases |keys|
      {
        var k :| k in keys;
        if entries[k].resetAt <= t {
          entries := entries - {k};
        }
        keys := keys - {k};
      }
      assert entries == Live(old(entries), t);
      LiveSize(old(entries), t);
      if overflowBucket.Some? && overflowBucket.value.resetAt <= t {
        overflowBucket := None;
      }
    }

    // The answer consume would give to the same request, without counting it.
    method Allow(key: string, t: real) returns (allowed: bool)
      requires Valid()
      modifies this
      ensures Valid() && entries == Live(old(entries), t) && overflowBucket == Kept(old(overflowBucket), t)
      ensures allowed == Admits(config, old(entries), Keyed(key), t)
      ensures allowed == Admits(config, entries, Keyed(key), t)
      ensures allowed == Open(config, old(entries), if key == "" then "unknown" else key, t)
    {
      RunningIsLive(entries, t);
      Cleanup(t);
      LiveAgain(old(entries), t, t);
      if Keyed(key) !in entries {
        return |entries| < config.maxEntries;
      }
      var entry := entries[Keyed(key)];
      return entry.resetAt <= t || entry.count < config.limit;
    }

    method EarliestReset() returns (resetAt: real)
      requires entries != map[]
      ensures Earliest(entries, resetAt)
    {
      var keys := entries.Keys;
      var first :| first in keys;
      resetAt := entries[first].resetAt;
      keys := keys - {first};
      while keys != {}
        invariant keys <= entries.Keys
        invariant exists k :: k in entries && entries[k].resetAt == resetAt
        invariant forall k :: k in entries && k !in keys ==> resetAt <= entries[k].resetAt
        decreases |keys|
      {
        var k :| k in keys;
        resetAt := if entries[k].resetAt < resetAt then entries[k].resetAt else resetAt;
        keys := keys - {k};
      }
    }

    method Refuse(key: string, t: real) returns (v: Verdict)
      requires Valid() && key !in entries && |entries| >= config.maxEntries
      requires Live(entries, t) == entries
      modifies this`overflowBucket
      ensures VerdictOf(config, entries, key, t, v)
      ensures overflowBucket == Overflowed(old(overflowBucket), v.resetAt)
    {
      assert entries != map[];
      var resetAt := EarliestReset();
      var k :| k in entries && entries[k].resetAt == resetAt;
      assert k in Live(entries, t);
      if overflowBucket.None? || overflowBucket.value.resetAt != resetAt {
        overflowBucket := Some(Bucket(0, resetAt));
      }
      var count := overflowBucket.value.count + 1;
      overflowBucket := Some(Bucket(if count < MAX_SAFE_INTEGER then count else MAX_SAFE_INTEGER, resetAt));
      var wait := Ceil((resetAt - t) / 1000.0);
      return Verdict(false, 0, resetAt, if wait > 1 then wait else 1, true);
    }

    method Count(key: string, t: real) returns (v: Verdict)
      requires Valid() && (key in entries || |entries| < config.maxEntries) && Live(entries, t) == entries
      modifies this`entries
      ensures entries == Counted(config, old(entries), key, t)
      ensures VerdictOf(config, old(entries), key, t, v)
    {
      assert key in entries ==> key in Live(entries, t);
      var entry := if key in entries then entries[key] else Entry(0, t + config.windowMs);
      var allowed := entry.count < config.limit;
      if allowed {
        entry := entry.(count := entry.count + 1);
      }
      entries := entries[key := entry];
      var wait := Ceil((entry.resetAt - t) / 1000.0);
      v := Verdict(allowed, if config.limit > entry.count then config.limit - entry.count else 0,
                   entry.resetAt, if wait > 0 then wait else 0, false);
    }

    method Consume(givenKey: string, t: real) returns (v: Verdict)
      requires Valid()
      modifies this
      ensures Valid() && entries == After(config, old(entries), Keyed(givenKey), t)
      ensures VerdictOf(config, Live(old(entries), t), Keyed(givenKey), t, v)
      ensures overflowBucket ==
              (if v.capacityLimited then Overflowed(Kept(old(overflowBucket), t), v.resetAt)
               else Kept(old(overflowBucket), t))
      ensures Size() <= config.maxEntries && (v.capacityLimited ==> OverflowCount() > 0)
      ensures Consumed(config, old(entries), if givenKey == "" then "unknown" else givenKey, t, v, entries)
      ensures v.capacityLimited ==> overflowBucket.Some? && overflowBucket.value.resetAt == v.resetAt
      ensures v.capacityLimited && old(overflowBucket).Some? && old(overflowBucket).value.resetAt == v.resetAt ==>
                OverflowCount() == if old(OverflowCount()) < 9007199254740991 then old(OverflowCount()) + 1
                                   else 9007199254740991
      ensures v.capacityLimited && !(old(overflowBucket).Some? && old(overflowBucket).value.resetAt == v.resetAt) ==>
                OverflowCount() == 1
      ensures !v.capacityLimited ==>
                overflowBucket == if old(overflowBucket).Some? && old(overflowBucket).value.resetAt <= t then None
                                  else old(overflowBucket)
    {
      v := Decide(givenKey, t);
      ConsumedMeaning(config, old(entries), givenKey, if givenKey == "" then "unknown" else givenKey, t, v);
    }

    method Decide(givenKey: string, t: real) returns (v: Verdict)
      requires Valid()
      modifies this
      ensures Valid() && entries == After(config, old(entries), Keyed(givenKey), t)
      ensures VerdictOf(config, Live(old(entries), t), Keyed(givenKey), t, v)
      ensures overflowBucket ==
              (if v.capacityLimited then Overflowed(Kept(old(overflowBucket), t), v.resetAt)
               else Kept(old(overflowBucket), t))
    {
      var key := Keyed(givenKey);
      AfterIsSane(config, entries, key, t);
      Cleanup(t);
      LiveAgain(old(entries), t, t);
      if key !in entries && |entries| >= config.maxEntries {
        v := Refuse(key, t);
        return;
      }
      v := Count(key, t);
    }

    function Size(): nat reads this {
      |entries|
    }

    function OverflowCount(): nat reads this {
      if overflowBucket.Some? then overflowBucket.value.count else 0
    }
  }

  // Anything but positive whole bounds and a window of at least one millisecond is refused.
  method CreateRequestRateLimiter(limit: int, windowMs: real, maxEntries: int) returns (r: Option<RequestRateLimiter>)
    ensures r.Some? <==> limit >= 1 && windowMs >= 1.0 && maxEntries >= 1
    ensures r.Some? ==> fresh(r.value) && r.value.Valid() && r.value.entries == map[] && r.value.overflowBucket == None
                        && r.value.config == Config(limit, windowMs, maxEntries)
  {
    if limit < 1 || windowMs < 1.0 || maxEntries < 1 {
      return None;
    }
    var limiter := new RequestRateLimiter(Config(limit, windowMs, maxEntries));
    return Some(limiter);
  }

  // ---- The retry hint ----

  lemma RefusedStays(c: Config, entries: Entries, key: string, t: real, resetAt: real, later: real)
    requires Sane(c, entries) && !Admits(c, entries, key, t) && ResetOf(c, Live(entries, t), key, resetAt)
    requires t <= later < resetAt
    ensures !Admits(c, Live(entries, t), key, later)
  {
    var live := Live(entries, t);
    if key !in live {
      assert Live(live, later) == live;
    }
  }

  lemma RefusedReturns(c: Config, entries: Entries, key: string, t: real, resetAt: real, later: real)
    requires Sane(c, entries) && !Admits(c, entries, key, t) && ResetOf(c, Live(entries, t), key, resetAt)
    requires resetAt <= later
    ensures Admits(c, Live(entries, t), key, later)
  {
    var live := Live(entries, t);
    LiveSize(entries, t);
    LiveSize(live, later);
    if key in live {
      assert live[key].resetAt <= later;
    } else {
      var k :| k in live && live[k].resetAt == resetAt;
      assert live[k].resetAt <= later;
    }
  }

  /** A refused key that waits, while nobody else asks, is admitted again exactly from the
      announced reset time on; the announced whole seconds are enough, and no fewer are. */
  lemma RetryHintIsExact(c: Config, entries: Entries, key: string, t: real, v: Verdict, seconds: nat)
    requires Sane(c, entries) && VerdictOf(c, Live(entries, t), key, t, v) && !v.allowed
    ensures After(c, entries, key, t) == Live(entries, t)
    ensures v.retryAfter >= 1
    ensures Admits(c, After(c, entries, key, t), key, t + 1000.0 * seconds as real) <==> seconds >= v.retryAfter
  {
    var live := Live(entries, t);
    var later := t + 1000.0 * seconds as real;
    assert v.resetAt > t by {
      if key !in live {
        var k :| k in live && live[k].resetAt == v.resetAt;
      }
    }
    if later >= v.resetAt {
      RefusedReturns(c, entries, key, t, v.resetAt, later);
      assert seconds as real >= (v.resetAt - t) / 1000.0;
    } else {
      RefusedStays(c, entries, key, t, v.resetAt, later);
      assert (seconds as real) < (v.resetAt - t) / 1000.0;
    }
  }

  // ---- Runs ----

  datatype Request = Request(key: string, at: real)

  predicate Ordered(requests: seq<Request>) {
    forall i, j :: 0 <= i < j < |requests| ==> requests[i].at <= requests[j].at
  }

  function Serve(c: Config, entries: Entries, r: Request): Entries {
    After(c, entries, Keyed(r.key), r.at)
  }

  predicate Passes(c: Config, entries: Entries, r: Request, key: string, from: real, to: real) {
    CountedUnder(r.key, key) && from <= r.at < to && Admits(c, entries, key, r.at)
  }

  // How many of requests[i..] for the key are admitted at times in [from, to).
  function Admitted(c: Config, entries: Entries, requests: seq<Request>, i: nat, key: string, from: real, to: real): nat
    requires i <= |requests|
    decreases |requests| - i
  {
    if i == |requests| then 0
    else (if Passes(c, entries, requests[i], key, from, to) then 1 else 0)
         + Admitted(c, Serve(c, entries, requests[i]), requests, i + 1, key, from, to)
  }

  function EntriesAfter(c: Config, entries: Entries, requests: seq<Request>, n: nat): Entries
    requires n <= |requests|
  {
    if n == 0 then entries else Serve(c, EntriesAfter(c, entries, requests, n - 1), requests[n - 1])
  }

  // The key bound holds throughout every run.
  lemma {:induction false} KeysBounded(c: Config, requests: seq<Request>, n: nat)
    requires c.Valid() && n <= |requests|
    ensures Sane(c, EntriesAfter(c, map[], requests, n))
  {
    if n > 0 {
      KeysBounded(c, requests, n - 1);
      AfterIsSane(c, EntriesAfter(c, map[], requests, n - 1), Keyed(requests[n - 1].key), requests[n - 1].at);
    }
  }

  lemma {:induction false} NothingOutside(c: Config, entries: Entries, requests: seq<Request>, i: nat, key: string,
                                          from: real, to: real)
    requires i <= |requests| && from >= to
    ensures Admitted(c, entries, requests, i, key, from, to) == 0
    decreases |requests| - i
  {
    if i < |requests| {
      NothingOutside(c, Serve(c, entries, requests[i]), requests, i + 1, key, from, to);
    }
  }

  lemma {:induction false} SplitTime(c: Config, entries: Entries, requests: seq<Request>, i: nat, key: string,
                                     from: real, mid: real, to: real)
    requires i <= |requests| && from <= mid <= to
    ensures Admitted(c, entries, requests, i, key, from, to)
         == Admitted(c, entries, requests, i, key, from, mid) + Admitted(c, entries, requests, i, key, mid, to)
    decreases |requests| - i
  {
    if i < |requests| {
      SplitTime(c, Serve(c, entries, requests[i]), requests, i + 1, key, from, mid, to);
    }
  }

  // While its window lasts, an entry only counts up, by the requests it admits.
  lemma EntryLasts(c: Config, entries: Entries, r: Request, key: string)
    requires key in entries && r.at < entries[key].resetAt
    ensures key in Serve(c, entries, r)
    ensures Serve(c, entries, r)[key] == entries[key].(count :=
              entries[key].count + if CountedUnder(r.key, key) && Admits(c, entries, key, r.at) then 1 else 0)
  {
  }

  // Within the current window at most what is left of the limit is admitted.
  lemma {:induction false} WithinWindow(c: Config, entries: Entries, requests: seq<Request>, i: nat, key: string,
                                        from: real, to: real)
    requires i <= |requests| && Ordered(requests) && Sane(c, entries)
    requires key in entries && to <= entries[key].resetAt
    ensures Admitted(c, entries, requests, i, key, from, to) <= c.limit - entries[key].count
    decreases |requests| - i
  {
    if i == |requests| {
      return;
    }
    var next := Serve(c, entries, requests[i]);
    AfterIsSane(c, entries, Keyed(requests[i].key), requests[i].at);
    if requests[i].at < to {
      EntryLasts(c, entries, requests[i], key);
      WithinWindow(c, next, requests, i + 1, key, from, to);
    } else {
      TooLate(c, next, requests, i + 1, key, from, to);
    }
  }

  lemma {:induction false} TooLate(c: Config, entries: Entries, requests: seq<Request>, i: nat, key: string,
                                   from: real, to: real)
    requires 0 < i <= |requests| && Ordered(requests) && requests[i - 1].at >= to
    ensures Admitted(c, entries, requests, i, key, from, to) == 0
    decreases |requests| - i
  {
    if i < |requests| {
      assert requests[i - 1].at <= requests[i].at;
      TooLate(c, Serve(c, entries, requests[i]), requests, i + 1, key, from, to);
    }
  }

  predicate Idle(entries: Entries, key: string, from: real) {
    key in entries ==> entries[key].resetAt <= from
  }

  // A key with no running window gets at most the limit in any window length.
  lemma {:induction false} FromIdle(c: Config, entries: Entries, requests: seq<Request>, i: nat, key: string,
                                    from: real, to: real)
    requires i <= |requests| && Ordered(requests) && Sane(c, entries) && Idle(entries, key, from)
    requires to <= from + c.windowMs && (i < |requests| ==> from <= requests[i].at)
    ensures Admitted(c, entries, requests, i, key, from, to) <= c.limit
    decreases |requests| - i
  {
    if i == |requests| {
      return;
    }
    var r := requests[i];
    var next := Serve(c, entries, r);
    AfterIsSane(c, entries, Keyed(r.key), r.at);
    ServeIdle(c, entries, r, key, from);
    if CountedUnder(r.key, key) && Admits(c, entries, key, r.at) {
      WithinWindow(c, next, requests, i + 1, key, from, to);
    } else {
      assert i + 1 < |requests| ==> r.at <= requests[i + 1].at;
      FromIdle(c, next, requests, i + 1, key, from, to);
    }
  }

  // An idle key opens a window or stays without one.
  lemma ServeIdle(c: Config, entries: Entries, r: Request, key: string, from: real)
    requires Idle(entries, key, from) && from <= r.at
    ensures var next := Serve(c, entries, r);
            if CountedUnder(r.key, key) && Admits(c, entries, key, r.at)
            then key in next && next[key] == Entry(1, r.at + c.windowMs)
            else key !in next
  {
    assert key !in Live(entries, r.at);
  }

  // The same, counted from the end of a running window.
  lemma {:induction false} AfterWindow(c: Config, entries: Entries, requests: seq<Request>, i: nat, key: string,
                                       to: real)
    requires i <= |requests| && Ordered(requests) && Sane(c, entries)
    requires key in entries && to <= entries[key].resetAt + c.windowMs
    ensures Admitted(c, entries, requests, i, key, entries[key].resetAt, to) <= c.limit
    decreases |requests| - i
  {
    if i == |requests| {
      return;
    }
    var from := entries[key].resetAt;
    if requests[i].at < from {
      AfterIsSane(c, entries, Keyed(requests[i].key), requests[i].at);
      EntryLasts(c, entries, requests[i], key);
      AfterWindow(c, Serve(c, entries, requests[i]), requests, i + 1, key, to);
    } else {
      FromIdle(c, entries, requests, i, key, from, to);
    }
  }

  /** A window that a request opens admits at most the limit to its client before it ends. */
  lemma LimitPerWindow(c: Config, entries: Entries, requests: seq<Request>, i: nat, key: string)
    requires i < |requests| && Ordered(requests) && Sane(c, entries)
    requires CountedUnder(requests[i].key, key) && Idle(entries, key, requests[i].at)
    ensures Admitted(c, entries, requests, i, key, requests[i].at, requests[i].at + c.windowMs) <= c.limit
  {
    FromIdle(c, entries, requests, i, key, requests[i].at, requests[i].at + c.windowMs);
  }

  /** However the windows fall, any interval of the window's length admits fewer than twice the
      limit: the request that opened the earlier window lies before the interval. */
  lemma {:induction false} BelowTwiceTheLimit(c: Config, entries: Entries, requests: seq<Request>, i: nat,
                                              key: string, from: real)
    requires i <= |requests| && Ordered(requests) && Sane(c, entries)
    ensures Admitted(c, entries, requests, i, key, from, from + c.windowMs) <= 2 * c.limit - 1
    decreases |requests| - i
  {
    if i == |requests| {
      return;
    }
    var to := from + c.windowMs;
    if requests[i].at < from {
      AfterIsSane(c, entries, Keyed(requests[i].key), requests[i].at);
      BelowTwiceTheLimit(c, Serve(c, entries, requests[i]), requests, i + 1, key, from);
    } else if Idle(entries, key, from) {
      FromIdle(c, entries, requests, i, key, from, to);
    } else {
      var mid := if entries[key].resetAt < to then entries[key].resetAt else to;
      SplitTime(c, entries, requests, i, key, from, mid, to);
      WithinWindow(c, entries, requests, i, key, from, mid);
      if mid == to {
        NothingOutside(c, entries, requests, i, key, mid, to);
      } else {
        AfterWindow(c, entries, requests, i, key, to);
      }
    }
  }

  // ---- When a key gets more than its limit ----

  // What is left of the running window at `from`, then a full window once that one has ended.
  function Burst(key: string, left: nat, limit: nat, from: real, reset: real): (rs: seq<Request>)
    ensures |rs| == left + limit
  {
    seq(left + limit, i requires 0 <= i < left + limit => Request(key, if i < left then from else reset))
  }

  lemma AdmittedNow(c: Config, entries: Entries, requests: seq<Request>, i: nat, key: string, from: real, to: real)
    requires i < |requests| && Passes(c, entries, requests[i], key, from, to)
    ensures Admitted(c, entries, requests, i, key, from, to)
         == 1 + Admitted(c, Serve(c, entries, requests[i]), requests, i + 1, key, from, to)
  {
  }

  // Within a window, as long as the count is below the limit.
  lemma ServeCounts(c: Config, entries: Entries, r: Request, key: string)
    requires Sane(c, entries) && CountedUnder(r.key, key)
    requires key in entries && r.at < entries[key].resetAt && entries[key].count < c.limit
    ensures Admits(c, entries, key, r.at) && Sane(c, Serve(c, entries, r)) && key in Serve(c, entries, r)
    ensures Serve(c, entries, r)[key] == Entry(entries[key].count + 1, entries[key].resetAt)
  {
    AfterIsSane(c, entries, key, r.at);
  }

  /** What is announced as remaining is what the client's next requests get: that many of them pass
      while the window runs, and no more. */
  lemma {:induction false} RemainingIsExact(c: Config, entries: Entries, rs: seq<Request>, i: nat, given: string,
                                            key: string, at: real)
    requires Sane(c, entries) && CountedUnder(given, key) && key in entries && at < entries[key].resetAt
    requires i <= |rs| && forall j :: i <= j < |rs| ==> rs[j] == Request(given, at)
    ensures var remaining := c.limit - entries[key].count;
            Admitted(c, entries, rs, i, key, at, entries[key].resetAt)
              == if |rs| - i <= remaining then |rs| - i else remaining
    decreases |rs| - i
  {
    if i < |rs| {
      AfterIsSane(c, entries, key, at);
      EntryLasts(c, entries, rs[i], key);
      RemainingIsExact(c, Serve(c, entries, rs[i]), rs, i + 1, given, key, at);
    }
  }

  // The end of a window makes room for the next one of the same key.
  lemma ServeReopens(c: Config, entries: Entries, r: Request, key: string)
    requires Sane(c, entries) && CountedUnder(r.key, key) && key in entries && entries[key].resetAt <= r.at
    ensures Admits(c, entries, key, r.at) && Sane(c, Serve(c, entries, r)) && key in Serve(c, entries, r)
    ensures Serve(c, entries, r)[key] == Entry(1, r.at + c.windowMs)
  {
    LiveSize(entries, r.at);
    AfterIsSane(c, entries, key, r.at);
  }

  // The second half of a burst, n requests of which are still to come in the window it has opened.
  lemma {:induction false} SecondHalf(c: Config, entries: Entries, rs: seq<Request>, i: nat, n: nat, given: string,
                                      key: string, from: real, reset: real)
    requires CountedUnder(given, key) && n < c.limit && i + n == |rs|
    requires forall j :: i <= j < |rs| ==> rs[j] == Request(given, reset)
    requires Sane(c, entries) && key in entries && entries[key] == Entry(c.limit - n, reset + c.windowMs)
    requires from <= reset < from + c.windowMs
    ensures Admitted(c, entries, rs, i, key, from, from + c.windowMs) == n
    decreases n
  {
    if n > 0 {
      ServeCounts(c, entries, rs[i], key);
      AdmittedNow(c, entries, rs, i, key, from, from + c.windowMs);
      SecondHalf(c, Serve(c, entries, rs[i]), rs, i + 1, n - 1, given, key, from, reset);
    }
  }

  // The first half, of which n requests are still to come.
  lemma {:induction false} FirstHalf(c: Config, entries: Entries, rs: seq<Request>, i: nat, n: nat, given: string,
                                     key: string, from: real, reset: real)
    requires CountedUnder(given, key) && n < c.limit && i + n + c.limit == |rs|
    requires forall j :: i <= j < i + n ==> rs[j] == Request(given, from)
    requires forall j :: i + n <= j < |rs| ==> rs[j] == Request(given, reset)
    requires Sane(c, entries) && key in entries && entries[key] == Entry(c.limit - n, reset)
    requires from < reset < from + c.windowMs
    ensures Admitted(c, entries, rs, i, key, from, from + c.windowMs) == n + c.limit
    decreases n
  {
    if n > 0 {
      ServeCounts(c, entries, rs[i], key);
      AdmittedNow(c, entries, rs, i, key, from, from + c.windowMs);
      FirstHalf(c, Serve(c, entries, rs[i]), rs, i + 1, n - 1, given, key, from, reset);
    } else {
      ServeReopens(c, entries, rs[i], key);
      AdmittedNow(c, entries, rs, i, key, from, from + c.windowMs);
      SecondHalf(c, Serve(c, entries, rs[i]), rs, i + 1, c.limit - 1, given, key, from, reset);
    }
  }

  // A running window that ends within the next one and has room left lets a burst through.
  lemma BurstPasses(c: Config, entries: Entries, key: string, from: real)
    requires Sane(c, entries) && key in entries && entries[key].count < c.limit
    requires from < entries[key].resetAt < from + c.windowMs
    ensures var left := c.limit - entries[key].count;
            var rs := Burst(key, left, c.limit, from, entries[key].resetAt);
            Ordered(rs) && Admitted(c, entries, rs, 0, key, from, from + c.windowMs) == left + c.limit
  {
    var left := c.limit - entries[key].count;
    var rs := Burst(key, left, c.limit, from, entries[key].resetAt);
    FirstHalf(c, entries, rs, 0, left, key, key, from, entries[key].resetAt);
  }

  ghost predicate StartsAt(requests: seq<Request>, from: real) {
    Ordered(requests) && (|requests| > 0 ==> from <= requests[0].at)
  }

  // However requests go on from here, the key gets at most its limit in the next window length.
  ghost predicate LimitedFrom(c: Config, entries: Entries, key: string, from: real) {
    forall requests :: StartsAt(requests, from) ==>
      Admitted(c, entries, requests, 0, key, from, from + c.windowMs) <= c.limit
  }

  lemma LimitedIf(c: Config, entries: Entries, key: string, from: real, requests: seq<Request>, i: nat)
    requires Sane(c, entries) && Ordered(requests) && i <= |requests| && (i < |requests| ==> from <= requests[i].at)
    requires Idle(entries, key, from) || entries[key].count == c.limit || entries[key].resetAt >= from + c.windowMs
    ensures Admitted(c, entries, requests, i, key, from, from + c.windowMs) <= c.limit
  {
    var to := from + c.windowMs;
    if Idle(entries, key, from) {
      FromIdle(c, entries, requests, i, key, from, to);
    } else if entries[key].resetAt >= to {
      WithinWindow(c, entries, requests, i, key, from, to);
    } else {
      UsedUp(c, entries, requests, i, key, from, entries[key].resetAt, to);
    }
  }

  // A window that is used up lets nothing through before the next one.
  lemma UsedUp(c: Config, entries: Entries, requests: seq<Request>, i: nat, key: string, from: real, mid: real,
               to: real)
    requires Sane(c, entries) && Ordered(requests) && key in entries && entries[key] == Entry(c.limit, mid)
    requires i <= |requests| && from <= mid <= to <= mid + c.windowMs
    ensures Admitted(c, entries, requests, i, key, from, to) <= c.limit
  {
    SplitTime(c, entries, requests, i, key, from, mid, to);
    WithinWindow(c, entries, requests, i, key, from, mid);
    AfterWindow(c, entries, requests, i, key, to);
  }

  /** At most the limit per interval is what the limiter gives exactly when, at the interval's
      start, the key has no running window, or has used it up, or keeps it to the end. */
  lemma LimitPerIntervalIff(c: Config, entries: Entries, key: string, from: real)
    requires Sane(c, entries)
    ensures LimitedFrom(c, entries, key, from) <==>
              || Idle(entries, key, from)
              || entries[key].count == c.limit
              || entries[key].resetAt >= from + c.windowMs
  {
    if Idle(entries, key, from) || entries[key].count == c.limit || entries[key].resetAt >= from + c.windowMs {
      forall requests | StartsAt(requests, from)
        ensures Admitted(c, entries, requests, 0, key, from, from + c.windowMs) <= c.limit
      {
        LimitedIf(c, entries, key, from, requests, 0);
      }
    } else {
      BurstPasses(c, entries, key, from);
      var rs := Burst(key, c.limit - entries[key].count, c.limit, from, entries[key].resetAt);
      assert StartsAt(rs, from);
    }
  }

  // ---- The bound is reached ----

  lemma {:induction false} Shifted(c: Config, entries: Entries, r: Request, rs: seq<Request>, i: nat, key: string,
                                   from: real,
                                   to: real)
    requires i <= |rs|
    ensures Admitted(c, entries, [r] + rs, i + 1, key, from, to) == Admitted(c, entries, rs, i, key, from, to)
    decreases |rs| - i
  {
    if i < |rs| {
      assert ([r] + rs)[i + 1] == rs[i];
      Shifted(c, Serve(c, entries, rs[i]), r, rs, i + 1, key, from, to);
    }
  }

  /** Every limiter reaches the bound, for every client: a request opens a window, the rest of the
      limit comes just before its end and a full limit at its end. */
  lemma BoundIsReached(c: Config, given: string, key: string)
    requires c.Valid() && CountedUnder(given, key)
    ensures var from := c.windowMs - 0.5;
            var requests := [Request(given, 0.0)] + Burst(given, c.limit - 1, c.limit, from, c.windowMs);
            && Ordered(requests) && |requests| == 2 * c.limit
            && Admitted(c, map[], requests, 0, key, from, from + c.windowMs) == 2 * c.limit - 1
  {
    var from, opening := c.windowMs - 0.5, Request(given, 0.0);
    var rs := Burst(given, c.limit - 1, c.limit, from, c.windowMs);
    OpeningFirst(opening, rs);
    BoundCounted(c, given, key, from, opening, rs, [opening] + rs);
  }

  lemma OpeningFirst(opening: Request, rs: seq<Request>)
    requires Ordered(rs) && forall i :: 0 <= i < |rs| ==> opening.at <= rs[i].at
    ensures Ordered([opening] + rs)
  {
  }

  lemma BoundCounted(c: Config, given: string, key: string, from: real, opening: Request, rs: seq<Request>,
                     all: seq<Request>)
    requires c.Valid() && CountedUnder(given, key) && from == c.windowMs - 0.5 && opening == Request(given, 0.0)
    requires rs == Burst(given, c.limit - 1, c.limit, from, c.windowMs) && all == [opening] + rs
    ensures Admitted(c, map[], all, 0, key, from, from + c.windowMs) == 2 * c.limit - 1
  {
    var entries := Opened(c, key);
    OpeningServed(c, given, key);
    FirstHalf(c, entries, rs, 0, c.limit - 1, given, key, from, c.windowMs);
    Shifted(c, entries, opening, rs, 0, key, from, from + c.windowMs);
    assert all[0] == opening && !Passes(c, map[], opening, key, from, from + c.windowMs);
  }

  function Opened(c: Config, key: string): Entries {
    map[key := Entry(1, c.windowMs)]
  }

  lemma OpeningServed(c: Config, given: string, key: string)
    requires c.Valid() && CountedUnder(given, key)
    ensures Serve(c, map[], Request(given, 0.0)) == Opened(c, key) && Sane(c, Opened(c, key))
  {
    assert Live(map[], 0.0) == map[];
  }
}
