// The limiter for authentications in flight: counts per peer, a global bound and a bound on the
// number of peers. Release closures are tokens.
module AuthInFlight {
  import opened Options

  class Token {
    const key: string
    var released: bool

    constructor (key: string)
      ensures this.key == key && !released
    {
      this.key := key;
      released := false;
    }
  }

  // ---- Counting tokens by peer ----

  // held groups the open tokens by their peers.
  ghost predicate IsHeld(held: map<string, set<Token>>, token: Token) {
    token.key in held && token in held[token.key]
  }

  ghost predicate Groups(open: set<Token>, held: map<string, set<Token>>) {
    && (forall token :: token in open ==> IsHeld(held, token))
    && (forall key, token :: key in held && token in held[key] ==> token in open && token.key == key)
  }

  // Exactly the peers with open tokens have an entry, which is their number.
  ghost predicate Tallies(held: map<string, set<Token>>, counts: map<string, nat>) {
    held.Keys == counts.Keys && forall key :: key in held ==> counts[key] == |held[key]| > 0
  }

  ghost function Total(counts: map<string, nat>): nat
    decreases |counts.Keys|
  {
    if counts == map[] then 0
    else
      var key :| key in counts;
      assert (counts - {key}).Keys == counts.Keys - {key};
      counts[key] + Total(counts - {key})
  }

  lemma WithoutPeer(open: set<Token>, held: map<string, set<Token>>, key: string)
    requires Groups(open, held) && key in held
    ensures Groups(open - held[key], held - {key}) && |open - held[key]| == |open| - |held[key]|
  {
    assert held[key] <= open;
  }

  // The per-peer counts add up to the number of open tokens.
  lemma {:induction false} TotalIsOpen(open: set<Token>, held: map<string, set<Token>>, counts: map<string, nat>)
    requires Groups(open, held) && Tallies(held, counts)
    ensures Total(counts) == |open|
    decreases |counts.Keys|
  {
    if counts == map[] {
      assert open == {};
    } else {
      var key :| key in counts && Total(counts) == counts[key] + Total(counts - {key});
      assert (counts - {key}).Keys == counts.Keys - {key};
      WithoutPeer(open, held, key);
      TotalIsOpen(open - held[key], held - {key}, counts - {key});
    }
  }

  // Every peer with an entry adds to the total.
  lemma {:induction false} PeersWithinTotal(counts: map<string, nat>)
    requires forall key :: key in counts ==> counts[key] > 0
    ensures |counts| <= Total(counts)
    decreases |counts.Keys|
  {
    if counts != map[] {
      var key :| key in counts && Total(counts) == counts[key] + Total(counts - {key});
      assert (counts - {key}).Keys == counts.Keys - {key};
      PeersWithinTotal(counts - {key});
    }
  }

  datatype Limits = Limits(perPeer: nat, global: nat, peers: nat)

  ghost predicate Within(limits: Limits, open: set<Token>, counts: map<string, nat>, total: int) {
    && total == |open| <= limits.global
    && |counts| <= limits.peers
    && forall key :: key in counts ==> counts[key] <= limits.perPeer
  }

  function ActiveIn(counts: map<string, nat>, key: string): nat {
    if key in counts then counts[key] else 0
  }

  predicate MayAcquire(limits: Limits, counts: map<string, nat>, total: int, key: string) {
    && total < limits.global && ActiveIn(counts, key) < limits.perPeer
    && (ActiveIn(counts, key) > 0 || |counts| < limits.peers)
  }

  function Raised(counts: map<string, nat>, key: string): map<string, nat> {
    counts[key := ActiveIn(counts, key) + 1]
  }

  function Lowered(counts: map<string, nat>, key: string): map<string, nat>
    requires key in counts && counts[key] > 0
  {
    if counts[key] == 1 then counts - {key} else counts[key := counts[key] - 1]
  }

  ghost function Joined(held: map<string, set<Token>>, token: Token): map<string, set<Token>> {
    held[token.key := (if token.key in held then held[token.key] else {}) + {token}]
  }

  ghost function Left(held: map<string, set<Token>>, token: Token): map<string, set<Token>>
    requires IsHeld(held, token)
  {
    if held[token.key] == {token} then held - {token.key} else held[token.key := held[token.key] - {token}]
  }

  // One more is counted for the peer, and as many as before for every other.
  ghost predicate OneMore(was: map<string, nat>, now: map<string, nat>, peer: string) {
    && peer in now && now[peer] == (if peer in was then was[peer] + 1 else 1)
    && now.Keys == was.Keys + {peer}
    && forall other :: other in was && other != peer ==> now[other] == was[other]
  }

  lemma RaisedIsOneMore(counts: map<string, nat>, key: string)
    ensures OneMore(counts, Raised(counts, key), key)
  {
  }

  lemma LoweredIsOneLess(counts: map<string, nat>, key: string)
    requires key in counts && counts[key] > 0
    ensures OneMore(Lowered(counts, key), counts, key)
  {
  }

  // The three limits, for a peer under its own name and a nameless one under "unknown".
  ghost predicate HasRoom(limits: Limits, counts: map<string, nat>, total: int, key: string) {
    && total < limits.global
    && (if key in counts then counts[key] < limits.perPeer else |counts| < limits.peers && limits.perPeer > 0)
  }

  lemma RoomIff(limits: Limits, counts: map<string, nat>, total: int, peer: string)
    requires forall key :: key in counts ==> counts[key] > 0
    ensures MayAcquire(limits, counts, total, Keyed(peer))
       <==> HasRoom(limits, counts, total, if peer == "" then "unknown" else peer)
  {
  }

  lemma RaisedAndLowered(counts: map<string, nat>, key: string)
    requires key in counts ==> counts[key] > 0
    ensures Lowered(Raised(counts, key), key) == counts
  {
  }

  lemma SizeAfterSet(counts: map<string, nat>, key: string, n: nat)
    ensures |counts[key := n]| == |counts| + if key in counts then 0 else 1
  {
    assert counts[key := n].Keys == counts.Keys + {key};
    assert key in counts ==> counts.Keys + {key} == counts.Keys;
  }

  lemma SizeAfterRemove(counts: map<string, nat>, key: string)
    requires key in counts
    ensures |counts - {key}| == |counts| - 1
  {
    assert (counts - {key}).Keys == counts.Keys - {key};
  }

  // The tokens handed out, those not yet released, and these by peer.
  datatype Book = Book(issued: set<Token>, open: set<Token>, held: map<string, set<Token>>)

  ghost predicate Kept(limits: Limits, book: Book, counts: map<string, nat>, total: int) {
    && book.open <= book.issued
    && Groups(book.open, book.held) && Tallies(book.held, counts)
    && Within(limits, book.open, counts, total)
  }

  ghost function Enrolled(book: Book, token: Token): Book {
    Book(book.issued + {token}, book.open + {token}, Joined(book.held, token))
  }

  ghost function Closed(book: Book, token: Token): Book
    requires IsHeld(book.held, token)
  {
    Book(book.issued, book.open - {token}, Left(book.held, token))
  }

  lemma AcquireTallies(open: set<Token>, held: map<string, set<Token>>, counts: map<string, nat>, token: Token)
    requires Groups(open, held) && Tallies(held, counts) && token !in open
    ensures Groups(open + {token}, Joined(held, token)) && Tallies(Joined(held, token), Raised(counts, token.key))
  {
    JoinGroups(open, held, token);
    var mine := if token.key in held then held[token.key] else {};
    assert |mine + {token}| == |mine| + 1;
  }

  lemma JoinGroups(open: set<Token>, held: map<string, set<Token>>, token: Token)
    requires Groups(open, held)
    ensures Groups(open + {token}, Joined(held, token))
  {
  }

  // An allowed acquire keeps the counts exact and all three limits.
  lemma AcquireKept(limits: Limits, book: Book, counts: map<string, nat>, total: int, token: Token)
    requires Kept(limits, book, counts, total) && token !in book.open && MayAcquire(limits, counts, total, token.key)
    ensures Kept(limits, Enrolled(book, token), Raised(counts, token.key), total + 1)
  {
    AcquireTallies(book.open, book.held, counts, token);
    AcquireWithin(limits, book.open, counts, total, token);
  }

  lemma AcquireWithin(limits: Limits, open: set<Token>, counts: map<string, nat>, total: int, token: Token)
    requires Within(limits, open, counts, total) && token !in open && MayAcquire(limits, counts, total, token.key)
    ensures Within(limits, open + {token}, Raised(counts, token.key), total + 1)
  {
    SizeAfterSet(counts, token.key, ActiveIn(counts, token.key) + 1);
  }

  lemma ReleaseTallies(open: set<Token>, held: map<string, set<Token>>, counts: map<string, nat>, token: Token)
    requires Groups(open, held) && Tallies(held, counts) && token in open
    ensures IsHeld(held, token) && token.key in counts && counts[token.key] > 0
    ensures Groups(open - {token}, Left(held, token)) && Tallies(Left(held, token), Lowered(counts, token.key))
  {
    var mine := held[token.key];
    assert mine == {token} || |mine - {token}| > 0 by {
      if mine - {token} == {} { assert mine == {token}; }
    }
  }

  // A release finds its peer's entry, keeps the counts exact and leaves no zero entry.
  lemma ReleaseKept(limits: Limits, book: Book, counts: map<string, nat>, total: int, token: Token)
    requires Kept(limits, book, counts, total) && token in book.open
    ensures IsHeld(book.held, token) && token.key in counts && counts[token.key] > 0
    ensures Kept(limits, Closed(book, token), Lowered(counts, token.key), total - 1)
  {
    ReleaseTallies(book.open, book.held, counts, token);
    SizeAfterRemove(counts, token.key);
    SizeAfterSet(counts, token.key, counts[token.key] - 1);
  }

  // Nothing is counted once every token is closed.
  lemma NothingOpen(limits: Limits, book: Book, counts: map<string, nat>, total: int)
    requires Kept(limits, book, counts, total) && book.open == {}
    ensures total == 0 && counts == map[]
  {
    TotalIsOpen(book.open, book.held, counts);
    PeersWithinTotal(counts);
  }

  // ---- The limiter ----

  class InFlightLimiter {
    const limits: Limits
    var activeByPeer: map<string, nat>
    var activeTotal: int
    ghost var book: Book

    ghost predicate Valid()
      reads this, book.issued
    {
      && Kept(limits, book, activeByPeer, activeTotal)
      && forall token :: token in book.issued ==> (token in book.open <==> !token.released)
    }

    constructor (limits: Limits)
      ensures Valid() && book == Book({}, {}, map[]) && this.limits == limits
      ensures activeByPeer == map[] && activeTotal == 0
    {
      this.limits := limits;
      activeByPeer := map[];
      activeTotal := 0;
      book := Book({}, {}, map[]);
    }

    method CountUp(key: string)
      modifies this`activeByPeer, this`activeTotal
      ensures activeByPeer == Raised(old(activeByPeer), key) && activeTotal == old(activeTotal) + 1
    {
      activeByPeer := activeByPeer[key := (if key in activeByPeer then activeByPeer[key] else 0) + 1];
      activeTotal := activeTotal + 1;
    }

    method Enroll(token: Token)
      requires Valid() && MayAcquire(limits, activeByPeer, activeTotal, token.key)
      requires token !in book.issued && !token.released
      modifies this
      ensures Valid() && book == Enrolled(old(book), token)
      ensures activeByPeer == Raised(old(activeByPeer), token.key) && activeTotal == old(activeTotal) + 1
    {
      AcquireKept(limits, book, activeByPeer, activeTotal, token);
      CountUp(token.key);
      book := Enrolled(book, token);
    }

    // An absent peer counts as "unknown"; a refused acquire changes nothing.
    method TryAcquire(peer: string) returns (token: Option<Token>)
      requires Valid()
      modifies this
      ensures Valid()
      ensures token.Some? <==> MayAcquire(limits, old(activeByPeer), old(activeTotal), Keyed(peer))
      ensures token.Some? <==> HasRoom(limits, old(activeByPeer), old(activeTotal),
                                       if peer == "" then "unknown" else peer)
      ensures token.None? ==> unchanged(this)
      ensures token.Some? ==> fresh(token.value) && token.value.key == Keyed(peer)
      ensures token.Some? ==> token.value.key == if peer == "" then "unknown" else peer
      ensures token.Some? ==> OneMore(old(activeByPeer), activeByPeer, token.value.key)
      ensures token.Some? ==> book == Enrolled(old(book), token.value)
      ensures token.Some? ==> activeByPeer == Raised(old(activeByPeer), Keyed(peer))
      ensures token.Some? ==> activeTotal == old(activeTotal) + 1
    {
      RoomIff(limits, activeByPeer, activeTotal, peer);
      var key := Keyed(peer);
      RaisedIsOneMore(activeByPeer, key);
      var activeForPeer := if key in activeByPeer then activeByPeer[key] else 0;
      if activeTotal >= limits.global || activeForPeer >= limits.perPeer {
        return None;
      }
      if activeForPeer == 0 && |activeByPeer| >= limits.peers {
        return None;
      }
      var t := new Token(key);
      Enroll(t);
      return Some(t);
    }

    method CountDown(key: string)
      requires key in activeByPeer && activeByPeer[key] > 0
      modifies this`activeByPeer, this`activeTotal
      ensures activeByPeer == Lowered(old(activeByPeer), key) && activeTotal == old(activeTotal) - 1
    {
      activeTotal := activeTotal - 1;
      var remaining := (if key in activeByPeer && activeByPeer[key] != 0 then activeByPeer[key] else 1) - 1;
      if remaining == 0 {
        activeByPeer := activeByPeer - {key};
      } else {
        activeByPeer := activeByPeer[key := remaining];
      }
    }

    // A token counts once: releasing it again changes nothing. Its peer always has an entry, so
    // the fallback for a missing one is never used.
    method Release(token: Token)
      requires Valid() && token in book.issued
      modifies this, token
      ensures Valid() && book.issued == old(book).issued && token.released
      ensures old(token.released) ==> unchanged(this)
      ensures !old(token.released) ==> token.key in old(activeByPeer) && old(activeByPeer)[token.key] > 0
      ensures !old(token.released) ==> activeByPeer == Lowered(old(activeByPeer), token.key)
      ensures !old(token.released) ==> OneMore(activeByPeer, old(activeByPeer), token.key)
      ensures !old(token.released) ==> activeTotal == old(activeTotal) - 1 && book.open == old(book).open - {token}
    {
      if token.released {
        return;
      }
      ReleaseKept(limits, book, activeByPeer, activeTotal, token);
      LoweredIsOneLess(activeByPeer, token.key);
      token.released := true;
      CountDown(token.key);
      book := Closed(book, token);
    }

    // A run on its own: the token is released however the operation ends, so nothing stays counted.
    method Run(peer: string) returns (ran: bool)
      requires Valid()
      modifies this
      ensures Valid() && ran == MayAcquire(limits, old(activeByPeer), old(activeTotal), Keyed(peer))
      ensures activeByPeer == old(activeByPeer) && activeTotal == old(activeTotal) && book.open == old(book).open
    {
      var release := TryAcquire(peer);
      if release.None? {
        return false;
      }
      RaisedAndLowered(old(activeByPeer), Keyed(peer));
      Release(release.value);
      return true;
    }

    method Snapshot() returns (total: int, peers: nat)
      requires Valid()
      ensures total == Total(activeByPeer) == |book.open| && peers == |activeByPeer|
      ensures peers <= total && total <= limits.global && peers <= limits.peers
    {
      TotalIsOpen(book.open, book.held, activeByPeer);
      PeersWithinTotal(activeByPeer);
      return activeTotal, |activeByPeer|;
    }

    // Nothing stays behind once every token is released.
    lemma AllReleased()
      requires Valid() && forall token :: token in book.issued ==> token.released
      ensures activeTotal == 0 && activeByPeer == map[]
    {
      assert book.open == {};
      NothingOpen(limits, book, activeByPeer, activeTotal);
    }
  }

  function Keyed(peer: string): string {
    if peer == "" then "unknown" else peer
  }

  // Non-positive limits are refused.
  method CreateLimiter(perPeerLimit: int, globalLimit: int, maxPeers: int) returns (r: Option<InFlightLimiter>)
    ensures r.Some? <==> perPeerLimit > 0 && globalLimit > 0 && maxPeers > 0
    ensures r.Some? ==> fresh(r.value) && r.value.Valid() && r.value.book == Book({}, {}, map[])
                        && r.value.limits == Limits(perPeerLimit, globalLimit, maxPeers)
  {
    if perPeerLimit <= 0 || globalLimit <= 0 || maxPeers <= 0 {
      return None;
    }
    var limiter := new InFlightLimiter(Limits(perPeerLimit, globalLimit, maxPeers));
    return Some(limiter);
  }
}
