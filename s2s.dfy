// Server-to-server event deduplication, event id generation and
// generation-checked peer cleanup (freeq-server/src/s2s.rs).

module S2s {
  import opened Common

  /** Per-origin ring size. */
  const DEDUP_CAPACITY: nat := 10000

  /** The counter portion of an event id: the text after the last ':', parsed as a u64. */
  function ParseCounter(eventId: string): Option<nat>
  {
    match RFindChar(eventId, ':')
    case None => None
    case Some(i) => ParseU64(eventId[i + 1..])
  }

  /** The three dedup tables: recent ids, their insertion order, and the high-water mark. */
  datatype Dedup = Dedup(seen: map<string, set<string>>, order: map<string, seq<string>>, highWater: map<string, nat>)

  function SeenOf(d: Dedup, origin: string): set<string>
  {
    if origin in d.seen then d.seen[origin] else {}
  }

  function OrderOf(d: Dedup, origin: string): seq<string>
  {
    if origin in d.order then d.order[origin] else []
  }

  function MarkOf(d: Dedup, origin: string): nat
  {
    if origin in d.highWater then d.highWater[origin] else 0
  }

  /** Layer 1 of `check_and_insert`: the high-water check. Returns the new tables and whether the id is stale. */
  function HighWaterStep(d: Dedup, origin: string, eventId: string): (Dedup, bool)
  {
    match ParseCounter(eventId)
    case None => (d, false)
    case Some(c) =>
      var mark := MarkOf(d, origin);
      if c <= mark then (d.(highWater := d.highWater[origin := mark]), true)
      else (d.(highWater := d.highWater[origin := c]), false)
  }

  /** Layer 2 of `check_and_insert`: exact-match dedup in the bounded ring, evicting the oldest id at capacity. */
  function RingStep(d: Dedup, origin: string, eventId: string): (Dedup, bool)
  {
    var ps := SeenOf(d, origin);
    var po := OrderOf(d, origin);
    if eventId in ps then (d.(seen := d.seen[origin := ps], order := d.order[origin := po]), false)
    else
      var ps2 := if |ps| >= DEDUP_CAPACITY && po != [] then ps - {po[0]} else ps;
      var po2 := if |ps| >= DEDUP_CAPACITY && po != [] then po[1..] else po;
      (d.(seen := d.seen[origin := ps2 + {eventId}], order := d.order[origin := po2 + [eventId]]), true)
  }

  /** `DedupSet::check_and_insert`: the new tables and whether the event is new. */
  function DedupCheck(d: Dedup, origin: string, eventId: string): (Dedup, bool)
  {
    if eventId == [] then (d, true)
    else
      var (d1, stale) := HighWaterStep(d, origin, eventId);
      if stale then (d1, false) else RingStep(d1, origin, eventId)
  }

  /** `DedupSet::remove_peer`: all three tables forget the origin. */
  function DedupRemove(d: Dedup, origin: string): Dedup
  {
    Dedup(d.seen - {origin}, d.order - {origin}, d.highWater - {origin})
  }

  /** The ring of every origin is coherent: same origins in both tables, the set is
      exactly the queue's ids, the queue has no repeats, and it holds at most 10,000 ids. */
  predicate Coherent(d: Dedup)
  {
    d.seen.Keys == d.order.Keys
    && (forall o | o in d.seen && o in d.order ::
          d.seen[o] == (set x | x in d.order[o]) && Distinct(d.order[o]) && |d.order[o]| <= DEDUP_CAPACITY)
  }

  lemma DistinctCard(s: seq<string>)
    requires Distinct(s)
    ensures |set x | x in s| == |s|
  {
    if s != [] {
      var t := s[1..];
      assert Distinct(t);
      DistinctCard(t);
      assert (set x | x in s) == (set x | x in t) + {s[0]};
      assert s[0] !in t;
    }
  }

  // ---------------------------------------------------------------------
  // Properties of check_and_insert.

  lemma EmptyIdAlwaysNew(d: Dedup, origin: string)
    ensures DedupCheck(d, origin, "") == (d, true)
  {
  }

  /** The high-water mark of every origin never decreases, and no mark is dropped. */
  lemma HighWaterNeverDecreases(d: Dedup, origin: string, eventId: string)
    ensures var d2 := DedupCheck(d, origin, eventId).0;
      forall o | o in d.highWater :: o in d2.highWater && d2.highWater[o] >= d.highWater[o]
  {
  }

  /** An id whose counter is at or below the origin's mark is rejected; an accepted id with a counter raises the mark to it. */
  lemma CounterGatesAcceptance(d: Dedup, origin: string, eventId: string, c: nat)
    requires eventId != [] && ParseCounter(eventId) == Some(c)
    ensures var (d2, accepted) := DedupCheck(d, origin, eventId);
      (c <= MarkOf(d, origin) ==> !accepted)
      && (accepted ==> c > MarkOf(d, origin) && d2.highWater[origin] == c)
  {
  }

  /** An id already in the origin's ring is rejected. */
  lemma DuplicateRejected(d: Dedup, origin: string, eventId: string)
    requires eventId != [] && eventId in SeenOf(d, origin)
    ensures !DedupCheck(d, origin, eventId).1
  {
    var (d1, stale) := HighWaterStep(d, origin, eventId);
    assert SeenOf(d1, origin) == SeenOf(d, origin);
  }

  /** An accepted (non-empty) id ends up in both the set and, last, in the queue. */
  lemma AcceptedIsRecorded(d: Dedup, origin: string, eventId: string)
    requires eventId != []
    ensures var (d2, accepted) := DedupCheck(d, origin, eventId);
      accepted ==>
        (origin in d2.seen && eventId in d2.seen[origin]
         && origin in d2.order && d2.order[origin] != [] && d2.order[origin][|d2.order[origin]| - 1] == eventId)
  {
  }

  /** At capacity the oldest id of the origin is evicted: the queue drops its head and gains the new id. */
  lemma EvictsOldestAtCapacity(d: Dedup, origin: string, eventId: string)
    requires Coherent(d) && origin in d.seen && |d.seen[origin]| >= DEDUP_CAPACITY
    ensures var (d2, accepted) := DedupCheck(d, origin, eventId);
      accepted && eventId != [] ==>
        d2.order[origin] == d.order[origin][1..] + [eventId]
        && d2.seen[origin] == (d.seen[origin] - {d.order[origin][0]}) + {eventId}
  {
    DistinctCard(d.order[origin]);
  }

  /** Coherence of the ring (and so the 10,000 bound) is preserved by every call. */
  lemma {:induction false} CheckAndInsertCoherent(d: Dedup, origin: string, eventId: string)
    requires Coherent(d)
    ensures Coherent(DedupCheck(d, origin, eventId).0)
  {
    if eventId != [] {
      var (d1, stale) := HighWaterStep(d, origin, eventId);
      assert d1.seen == d.seen && d1.order == d.order;
      if !stale {
        RingStepCoherent(d1, origin, eventId);
      }
    }
  }

  lemma RingStepCoherent(d: Dedup, origin: string, eventId: string)
    requires Coherent(d)
    ensures Coherent(RingStep(d, origin, eventId).0)
  {
    var ps := SeenOf(d, origin);
    var po := OrderOf(d, origin);
    assert ps == (set x | x in po) && Distinct(po) && |po| <= DEDUP_CAPACITY;
    if eventId !in ps {
      var evict := |ps| >= DEDUP_CAPACITY && po != [];
      var ps2 := if evict then ps - {po[0]} else ps;
      var po2 := if evict then po[1..] else po;
      RingPush(ps, po, eventId);
      var d2 := RingStep(d, origin, eventId).0;
      assert d2.seen == d.seen[origin := ps2 + {eventId}] && d2.order == d.order[origin := po2 + [eventId]];
      CoherentUpdate(d, origin, ps2 + {eventId}, po2 + [eventId]);
    } else {
      CoherentUpdate(d, origin, ps, po);
    }
  }

  /** Replacing one origin's ring by a coherent one keeps the tables coherent. */
  lemma CoherentUpdate(d: Dedup, origin: string, ps: set<string>, po: seq<string>)
    requires Coherent(d)
    requires ps == (set x | x in po) && Distinct(po) && |po| <= DEDUP_CAPACITY
    ensures Coherent(d.(seen := d.seen[origin := ps], order := d.order[origin := po]))
  {
  }

  /** One push onto a coherent ring, with the eviction of its head at capacity. */
  lemma RingPush(ps: set<string>, po: seq<string>, eventId: string)
    requires ps == (set x | x in po) && Distinct(po) && |po| <= DEDUP_CAPACITY && eventId !in ps
    ensures var evict := |ps| >= DEDUP_CAPACITY && po != [];
      var ps2 := if evict then ps - {po[0]} else ps;
      var po2 := if evict then po[1..] else po;
      ps2 + {eventId} == (set x | x in po2 + [eventId]) && Distinct(po2 + [eventId]) && |po2 + [eventId]| <= DEDUP_CAPACITY
  {
    DistinctCard(po);
    var evict := |ps| >= DEDUP_CAPACITY && po != [];
    var ps2 := if evict then ps - {po[0]} else ps;
    var po2 := if evict then po[1..] else po;
    assert |po2| < DEDUP_CAPACITY;
    assert ps2 == (set x | x in po2) by {
      if evict {
        assert po[0] !in po[1..];
        assert po == [po[0]] + po[1..];
      }
    }
    assert eventId !in po2;
  }

  /** Removing a peer keeps the others' rings coherent and leaves their tables as they were. */
  lemma RemovePeerFacts(d: Dedup, origin: string)
    requires Coherent(d)
    ensures var d2 := DedupRemove(d, origin);
      Coherent(d2) && origin !in d2.seen && origin !in d2.order && origin !in d2.highWater
      && (forall o | o != origin && o in d.seen :: o in d2.seen && d2.seen[o] == d.seen[o])
      && (forall o | o != origin && o in d.highWater :: o in d2.highWater && d2.highWater[o] == d.highWater[o])
  {
  }

  /** The server's own event ids round-trip through the counter parser. */
  lemma {:induction false} EventIdCounter(serverId: string, n: nat)
    requires n <= U64_MAX
    ensures ParseCounter(EventId(serverId, n)) == Some(n)
  {
    var id := EventId(serverId, n);
    var digits := DecimalString(n);
    assert id == (serverId + ":") + digits;
    assert id[|serverId|] == ':';
    assert id[|serverId| + 1..] == digits;
    assert ':' !in digits by {
      forall i | 0 <= i < |digits| ensures digits[i] != ':' {
        assert IsDigit(digits[i]);
      }
    }
    RFindCharAt(id, ':', |serverId|);
    ParseU64Decimal(n);
  }

  /** Consecutive ids from one server are accepted in order by a receiver that has seen nothing newer. */
  lemma ConsecutiveIdsAccepted(d: Dedup, serverId: string, n: nat)
    requires n <= U64_MAX && MarkOf(d, serverId) < n
    requires EventId(serverId, n) !in SeenOf(d, serverId)
    ensures DedupCheck(d, serverId, EventId(serverId, n)).1
  {
    EventIdCounter(serverId, n);
    var (d1, stale) := HighWaterStep(d, serverId, EventId(serverId, n));
    assert SeenOf(d1, serverId) == SeenOf(d, serverId);
  }

  /** `format!("{}:{}", server_id, counter)`. */
  function EventId(serverId: string, counter: nat): string
  {
    serverId + ":" + DecimalString(counter)
  }

  /** The shared dedup set. */
  class DedupSet {
    var seen: map<string, set<string>>
    var order: map<string, seq<string>>
    var highWater: map<string, nat>

    function State(): Dedup
      reads this
    {
      Dedup(seen, order, highWater)
    }

    constructor ()
      ensures State() == Dedup(map[], map[], map[]) && Coherent(State())
    {
      seen := map[];
      order := map[];
      highWater := map[];
    }

    method CheckAndInsert(origin: string, eventId: string) returns (accepted: bool)
      modifies this
      ensures (State(), accepted) == DedupCheck(old(State()), origin, eventId)
    {
      if eventId == [] {
        return true;
      }
      var stale := CheckHighWater(origin, eventId);
      if stale {
        return false;
      }
      accepted := InsertInRing(origin, eventId);
    }

    /** Layer 1: the origin's mark is created if missing, and raised by a newer counter. */
    method CheckHighWater(origin: string, eventId: string) returns (stale: bool)
      modifies this
      ensures (State(), stale) == HighWaterStep(old(State()), origin, eventId)
    {
      stale := false;
      var counter := ParseCounter(eventId);
      if counter.Some? {
        var mark := if origin in highWater then highWater[origin] else 0;
        if counter.value <= mark {
          highWater := highWater[origin := mark];
          stale := true;
        } else {
          highWater := highWater[origin := counter.value];
        }
      }
    }

    /** Layer 2: exact-match dedup in the origin's ring, evicting the oldest id at capacity. */
    method InsertInRing(origin: string, eventId: string) returns (accepted: bool)
      modifies this
      ensures (State(), accepted) == RingStep(old(State()), origin, eventId)
    {
      var peerSeen := if origin in seen then seen[origin] else {};
      var peerOrder := if origin in order then order[origin] else [];
      if eventId in peerSeen {
        seen := seen[origin := peerSeen];
        order := order[origin := peerOrder];
        return false;
      }
      if |peerSeen| >= DEDUP_CAPACITY {
        if peerOrder != [] {
          var oldest := peerOrder[0];
          peerOrder := peerOrder[1..];
          peerSeen := peerSeen - {oldest};
        }
      }
      seen := seen[origin := peerSeen + {eventId}];
      order := order[origin := peerOrder + [eventId]];
      accepted := true;
    }

    method RemovePeer(origin: string)
      modifies this
      ensures State() == DedupRemove(old(State()), origin)
    {
      seen := seen - {origin};
      order := order - {origin};
      highWater := highWater - {origin};
    }
  }

  /** Generation-stamped peer table. */
  class S2sManager {
    const serverId: string
    var eventCounter: nat
    var connGen: nat
    var peers: map<string, nat>
    var peerNames: map<string, string>
    const dedup: DedupSet

    constructor (serverId: string, startCounter: nat)
      ensures this.serverId == serverId && eventCounter == startCounter && connGen == 0
      ensures peers == map[] && peerNames == map[] && fresh(dedup) && dedup.State() == Dedup(map[], map[], map[])
    {
      this.serverId := serverId;
      eventCounter := startCounter;
      connGen := 0;
      peers := map[];
      peerNames := map[];
      dedup := new DedupSet();
    }

    /** `next_event_id`: the current counter, then the counter is bumped. */
    method NextEventId() returns (id: string)
      modifies this
      ensures id == EventId(serverId, old(eventCounter)) && eventCounter == old(eventCounter) + 1
      ensures peers == old(peers) && connGen == old(connGen)
    {
      var counter := eventCounter;
      eventCounter := eventCounter + 1;
      id := EventId(serverId, counter);
    }

    /** A link is established: it takes the next generation and replaces any entry for the peer. */
    method Register(peerId: string) returns (myGen: nat)
      modifies this
      ensures myGen == old(connGen) && connGen == old(connGen) + 1
      ensures peers == old(peers)[peerId := myGen] && peerNames == old(peerNames)
      ensures eventCounter == old(eventCounter)
    {
      myGen := connGen;
      connGen := connGen + 1;
      peers := peers[peerId := myGen];
    }

    /** Link teardown: the entry (and the peer's name and dedup state) goes only if it is still this generation's. */
    method Teardown(peerId: string, myGen: nat) returns (removed: bool)
      modifies this, dedup
      ensures removed <==> peerId in old(peers) && old(peers)[peerId] == myGen
      ensures peers == TeardownPeers(old(peers), peerId, myGen)
      ensures removed ==> peerNames == old(peerNames) - {peerId} && dedup.State() == DedupRemove(old(dedup.State()), peerId)
      ensures !removed ==> peerNames == old(peerNames) && dedup.State() == old(dedup.State())
      ensures connGen == old(connGen) && eventCounter == old(eventCounter)
    {
      removed := false;
      if peerId in peers {
        if peers[peerId] == myGen {
          peers := peers - {peerId};
          peerNames := peerNames - {peerId};
          dedup.RemovePeer(peerId);
          removed := true;
        }
      }
    }
  }

  function TeardownPeers(peers: map<string, nat>, peerId: string, myGen: nat): map<string, nat>
  {
    if peerId in peers && peers[peerId] == myGen then peers - {peerId} else peers
  }

  /** Every generation handed out is below the generation counter. */
  predicate GensBelow(peers: map<string, nat>, connGen: nat)
  {
    forall p | p in peers :: peers[p] < connGen
  }

  /** A replacement registered after this connection survives this connection's teardown. */
  lemma ReplacementSurvivesTeardown(peers: map<string, nat>, connGen: nat, peerId: string, myGen: nat)
    requires GensBelow(peers, connGen) && myGen < connGen
    ensures var replaced := peers[peerId := connGen];
      var after := TeardownPeers(replaced, peerId, myGen);
      peerId in after && after[peerId] == connGen && GensBelow(after, connGen + 1)
  {
  }

  /** The teardown of the current connection removes exactly its entry. */
  lemma OwnTeardownRemoves(peers: map<string, nat>, peerId: string, myGen: nat)
    requires peerId in peers && peers[peerId] == myGen
    ensures TeardownPeers(peers, peerId, myGen) == peers - {peerId}
    ensures forall p | p in peers && p != peerId :: p in TeardownPeers(peers, peerId, myGen)
  {
  }
}
