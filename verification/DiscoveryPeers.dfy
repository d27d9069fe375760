/**
 What the two clock maps, the member table and the two cached lists of a gossip peer say together about one other
 peer (gossip/discovery/discovery_impl.go). Read that way, the state is one table of peers, and every region of the
 source is a small change to a single row of it.
 */
module DiscoveryPeers {
  import opened GossipClock
  import opened DiscoveryNode
  import opened Options
  import opened DiscoveryRuns
  import opened DiscoveryExchange

  /** A row: alive or dead, the recorded clock and when it was seen, the cached message, and the member entry. */
  datatype Peer = Peer(alive: bool, stamp: Timestamp, said: Option<AliveMessage>, entry: NetworkMember)

  function Cached(list: seq<AliveMessage>, id: Id): Option<AliveMessage>
  {
    var i := IndexOf(list, id);
    if i == -1 then None else Some(list[i])
  }

  function Known(n: Node, id: Id): Option<Peer>
  {
    if id !in n.members then None
    else if id in n.alive then Some(Peer(true, n.alive[id], Cached(n.cacheAlive, id), n.members[id]))
    else if id in n.dead then Some(Peer(false, n.dead[id], Cached(n.cacheDead, id), n.members[id]))
    else None
  }

  /** The row of a peer just heard from. */
  function Heard(m: AliveMessage, now: int): Peer
  {
    Peer(true, Stamp(m.time, now), Some(m), NetworkMember(m.id, m.info))
  }

  /** A row after expiring `ids`. */
  function Aged(r: Option<Peer>, ids: seq<Id>, id: Id): Option<Peer>
  {
    if r.Some? && id in ids then Some(r.value.(alive := false)) else r
  }

  // ---------------------------------------------------------------- cached lists

  lemma CachedAppend(list: seq<AliveMessage>, m: AliveMessage, id: Id)
    requires Cached(list, m.id).None?
    ensures Cached(list + [m], id) == if id == m.id then Some(m) else Cached(list, id)
  {
    assert (list + [m])[..|list|] == list;
  }

  lemma CachedReplace(list: seq<AliveMessage>, m: AliveMessage, id: Id)
    requires IndexOf(list, m.id) >= 0
    ensures Cached(list[IndexOf(list, m.id) := m], id) == if id == m.id then Some(m) else Cached(list, id)
  {
    var k := IndexOf(list, m.id);
    var c, i := list[k := m], IndexOf(list, id);
    if id == m.id {
      FirstIs(c, id, k);
    } else if i >= 0 {
      FirstIs(c, id, i);
    }
  }

  /** The first index is unique. */
  lemma FirstIs(list: seq<AliveMessage>, id: Id, i: nat)
    requires i < |list| && list[i].id == id && forall k :: 0 <= k < i ==> list[k].id != id
    ensures IndexOf(list, id) == i
  {}

  lemma CachedRemove(list: seq<AliveMessage>, k: nat, id: Id)
    requires k < |list| && list[k].id != id
    ensures Cached(RemoveAt(list, k), id) == Cached(list, id)
  {
    var c, i := RemoveAt(list, k), IndexOf(list, id);
    if i >= 0 {
      FirstIs(c, id, if i < k then i else i - 1);
    }
  }

  // ---------------------------------------------------------------- regions, row by row

  lemma KnownLearnAlive(n: Node, m: AliveMessage, now: int, id: Id)
    requires Good(n) && m.id !in n.members && m.id != n.self
    ensures Known(LearnNew(n, [m], [], now), id) == if id == m.id then Some(Heard(m, now)) else Known(n, id)
  {
    LearnNewAliveOne(n, m, now);
    assert m.id !in n.alive.Keys + n.dead.Keys;
    NotCached(n.cacheAlive, n.alive, m.id);
    CachedAppend(n.cacheAlive, m, id);
  }

  lemma CachedDeadAppend(n: Node, m: AliveMessage, id: Id)
    requires Good(n) && m.id !in n.dead
    ensures Cached(n.cacheDead + [m], id) == if id == m.id then Some(m) else Cached(n.cacheDead, id)
  {
    NotCached(n.cacheDead, n.dead, m.id);
    CachedAppend(n.cacheDead, m, id);
  }

  lemma KnownLearnDead(n: Node, m: AliveMessage, now: int, id: Id)
    requires Good(n) && m.id !in n.members && id != n.self
    ensures Known(LearnNew(n, [], [m], now), id) ==
            if id == m.id then Some(Heard(m, now).(alive := false)) else Known(n, id)
  {
    LearnNewDeadOne(n, m, now);
    assert m.id !in n.alive && m.id !in n.dead;
    CachedDeadAppend(n, m, id);
  }

  /** The last message about `id` in a list. */
  function LastAbout(ms: seq<AliveMessage>, id: Id): Option<AliveMessage>
  {
    if |ms| == 0 then None
    else if ms[|ms| - 1].id == id then Some(ms[|ms| - 1])
    else LastAbout(ms[..|ms| - 1], id)
  }

  function At<T>(m: map<Id, T>, id: Id): Option<T> { if id in m then Some(m[id]) else None }

  /** A list of alive messages, none about this peer, goes to the cache whole; the last about each peer is recorded. */
  lemma {:induction false} AllAliveLearned(n: Node, ms: seq<AliveMessage>, now: int, id: Id)
    requires forall i :: 0 <= i < |ms| ==> ms[i].id != n.self
    ensures var r, last := LearnAllAlive(n, ms, now), LastAbout(ms, id);
            && r == n.(alive := r.alive, cacheAlive := n.cacheAlive + ms)
            && At(r.alive, id) == if last.Some? then Some(Stamp(last.value.time, now)) else At(n.alive, id)
  {
    if |ms| > 0 {
      AllAliveLearned(n, ms[..|ms| - 1], now, id);
      assert n.cacheAlive + ms == n.cacheAlive + ms[..|ms| - 1] + [ms[|ms| - 1]];
    } else {
      assert n.cacheAlive + ms == n.cacheAlive;
    }
  }

  lemma {:induction false} AllDeadLearned(n: Node, ms: seq<AliveMessage>, now: int, id: Id)
    requires forall i :: 0 <= i < |ms| ==> ms[i].id != n.self
    ensures var r, last := LearnAllDead(n, ms, now), LastAbout(ms, id);
            && r == n.(dead := r.dead, cacheDead := n.cacheDead + ms)
            && At(r.dead, id) == if last.Some? then Some(Stamp(last.value.time, now)) else At(n.dead, id)
  {
    if |ms| > 0 {
      AllDeadLearned(n, ms[..|ms| - 1], now, id);
      assert n.cacheDead + ms == n.cacheDead + ms[..|ms| - 1] + [ms[|ms| - 1]];
    } else {
      assert n.cacheDead + ms == n.cacheDead;
    }
  }

  /** Every sender of a list gets the member entry of its last message, and nobody else's entry changes. */
  lemma {:induction false} AllMembersSet(n: Node, ms: seq<AliveMessage>, id: Id)
    ensures var r, last := SetAllMembers(n, ms), LastAbout(ms, id);
            && r == n.(members := r.members)
            && At(r.members, id) ==
               if last.Some? then Some(NetworkMember(id, last.value.info)) else At(n.members, id)
  {
    if |ms| > 0 { AllMembersSet(n, ms[..|ms| - 1], id); }
  }

  /**
   learnNewMembers over whole lists, none of it about this peer: the caches take both lists as they are, each map
   records the last message of its list about a peer, and a dead message about a peer decides its entry.
   */
  lemma LearnNewLists(n: Node, alives: seq<AliveMessage>, deads: seq<AliveMessage>, now: int, id: Id)
    requires forall i :: 0 <= i < |alives| ==> alives[i].id != n.self
    requires forall i :: 0 <= i < |deads| ==> deads[i].id != n.self
    ensures var r, a, d := LearnNew(n, alives, deads, now), LastAbout(alives, id), LastAbout(deads, id);
            && r.self == n.self && r.cacheAlive == n.cacheAlive + alives && r.cacheDead == n.cacheDead + deads
            && At(r.alive, id) == (if a.Some? then Some(Stamp(a.value.time, now)) else At(n.alive, id))
            && At(r.dead, id) == (if d.Some? then Some(Stamp(d.value.time, now)) else At(n.dead, id))
            && At(r.members, id) ==
               if d.Some? then Some(NetworkMember(id, d.value.info))
               else if a.Some? then Some(NetworkMember(id, a.value.info)) else At(n.members, id)
  {
    AllAliveLearned(n, alives, now, id);
    var n1 := LearnAllAlive(n, alives, now);
    AllDeadLearned(n1, deads, now, id);
    var n2 := LearnAllDead(n1, deads, now);
    AllMembersSet(n2, alives, id);
    AllMembersSet(SetAllMembers(n2, alives), deads, id);
  }

  /** A peer that expired since it was looked up only gets its member entry updated. */
  lemma KnownLearnExisting(n: Node, m: AliveMessage, now: int, id: Id)
    requires Good(n) && m.id in n.members && m.id != n.self
    ensures Known(LearnExisting(n, m, now), id) ==
            if id != m.id then Known(n, id)
            else if m.id in n.alive then Some(Heard(m, now))
            else Some(Known(n, id).value.(entry := NetworkMember(m.id, m.info)))
  {
    assert m.id in n.alive.Keys + n.dead.Keys;
    if m.id in n.alive {
      assert Listed(n.cacheAlive, m.id);
      CachedReplace(n.cacheAlive, m, id);
    }
  }

  lemma CachedResurrect(n: Node, m: AliveMessage, now: int, id: Id)
    requires Good(n) && m.id in n.dead
    ensures var r := Resurrect(n, m, now);
            && Cached(r.cacheAlive, id) == (if id == m.id then Some(m) else Cached(n.cacheAlive, id))
            && (id != m.id ==> Cached(r.cacheDead, id) == Cached(n.cacheDead, id))
  {
    NotCached(n.cacheAlive, n.alive, m.id);
    CachedAppend(n.cacheAlive, m, id);
    assert Listed(n.cacheDead, m.id);
    if id != m.id { CachedRemove(n.cacheDead, IndexOf(n.cacheDead, m.id), id); }
  }

  lemma KnownResurrect(n: Node, m: AliveMessage, now: int, id: Id)
    requires Good(n) && m.id in n.dead
    ensures Known(Resurrect(n, m, now), id) == if id == m.id then Some(Heard(m, now)) else Known(n, id)
  {
    CachedResurrect(n, m, now, id);
  }

  /** The cached message of an expired peer moves to the other list as it is. */
  lemma CachedExpireOne(n: Node, x: Id, id: Id)
    requires Good(n) && x in n.alive
    ensures var r := ExpireOne(n, x);
            && Cached(r.cacheDead, id) == (if id == x then Cached(n.cacheAlive, x) else Cached(n.cacheDead, id))
            && (id != x ==> Cached(r.cacheAlive, id) == Cached(n.cacheAlive, id))
  {
    assert Listed(n.cacheAlive, x);
    var i := IndexOf(n.cacheAlive, x);
    CachedDeadAppend(n, n.cacheAlive[i], id);
    if id != x { CachedRemove(n.cacheAlive, i, id); }
  }

  lemma KnownExpireOne(n: Node, x: Id, id: Id)
    requires Good(n)
    ensures Known(ExpireOne(n, x), id) == Aged(Known(n, id), [x], id)
  {
    if x in n.alive { CachedExpireOne(n, x, id); }
  }

  /** Expiry turns the rows of the listed peers dead and changes nothing else about anybody. */
  lemma {:induction false} KnownExpire(n: Node, ids: seq<Id>, id: Id)
    requires Good(n)
    ensures Known(Expire(n, ids), id) == Aged(Known(n, id), ids, id)
  {
    if |ids| > 0 {
      var init, x := ids[..|ids| - 1], ids[|ids| - 1];
      KnownExpire(n, init, id);
      ExpireKeeps(n, init);
      KnownExpireOne(Expire(n, init), x, id);
      assert ids == init + [x];
    }
  }

  /** Whether a message is news about its sender. */
  predicate News(r: Option<Peer>, m: AliveMessage) { r.None? || Before(r.value.stamp, m.time) }

  /**
   Handling an alive message: if it is authentic, not this peer's own and news, its sender's row becomes exactly what
   the message says, alive and seen now; every other row, and in every other case all rows, stay as they are.
   */
  lemma KnownHandle(n: Node, m: AliveMessage, now: int, id: Id)
    requires Good(n)
    ensures Known(HandleAtomically(n, m, now), id) ==
            if m.authentic && m.id != n.self && id == m.id && News(Known(n, id), m) then Some(Heard(m, now))
            else Known(n, id)
  {
    if m.authentic && m.id != n.self {
      assert m.id in n.members <==> m.id in n.alive.Keys + n.dead.Keys;
      if m.id !in n.members {
        KnownLearnAlive(n, m, now, id);
      } else if m.id in n.dead {
        KnownResurrect(n, m, now, id);
      } else {
        KnownLearnExisting(n, m, now, id);
      }
    }
  }

  /** A dead entry of a response makes an unknown peer known as dead, and changes nothing about a known one. */
  lemma KnownDeadEntry(n: Node, m: AliveMessage, now: int, id: Id)
    requires Good(n) && id != n.self
    ensures Known(HandleDeadEntry(n, m, now), id) ==
            if m.authentic && id == m.id && Known(n, id).None? then Some(Heard(m, now).(alive := false)) else Known(n, id)
  {
    assert id in n.members <==> id in n.alive.Keys + n.dead.Keys;
    if m.id !in n.members { KnownLearnDead(n, m, now, id); }
  }

  // ---------------------------------------------------------------- the order of the lists

  /** `after` has the peers of `before` in the same places, and possibly more after them. */
  ghost predicate KeepsPlaces(before: seq<AliveMessage>, after: seq<AliveMessage>)
  {
    |before| <= |after| && forall i :: 0 <= i < |before| ==> after[i].id == before[i].id
  }

  /** Peers are listed as alive in the order in which they became so: an update stays in place, a newcomer goes last. */
  lemma HandleKeepsOrder(n: Node, m: AliveMessage, now: int)
    requires Good(n)
    ensures var r := HandleAtomically(n, m, now);
            && KeepsPlaces(n.cacheAlive, r.cacheAlive) && |r.cacheAlive| <= |n.cacheAlive| + 1
            && (|r.cacheAlive| > |n.cacheAlive| ==> r.cacheAlive[|n.cacheAlive|] == m)
  {
    LearnNewAliveOne(n, m, now);
  }

  /** Peers are listed as dead in the order in which they died: expiry only adds at the end, in the order given. */
  lemma {:induction false} ExpireKeepsOrder(n: Node, ids: seq<Id>)
    ensures n.cacheDead <= Expire(n, ids).cacheDead
  {
    if |ids| > 0 { ExpireKeepsOrder(n, ids[..|ids| - 1]); }
  }

  /** A dead entry learned from a response goes last too. */
  lemma DeadEntryKeepsOrder(n: Node, m: AliveMessage, now: int)
    ensures n.cacheDead <= HandleDeadEntry(n, m, now).cacheDead
    ensures HandleDeadEntry(n, m, now).cacheAlive == n.cacheAlive
  {
    LearnNewDeadOne(n, m, now);
  }

  // ---------------------------------------------------------------- with expiries in the gaps

  /** The sender's row after handling `m` with the three expiries in the gaps. */
  function HeardWithGaps(r: Option<Peer>, m: AliveMessage, now: int, gap1: seq<Id>, gap2: seq<Id>, gap3: seq<Id>): Option<Peer>
  {
    var id := m.id;
    if r.None? then Some(Heard(m, now).(alive := id !in gap2 && id !in gap3))
    else if !News(r, m) then Aged(Aged(Aged(r, gap1, id), gap2, id), gap3, id)
    else if !r.value.alive || id in gap1 then Some(Heard(m, now).(alive := id !in gap3))
    else if id in gap2 then Some(r.value.(alive := false))
    else if id in gap3 then Some(r.value.(alive := false, entry := NetworkMember(id, m.info)))
    else Some(Heard(m, now))
  }

  lemma GapsUnknown(n: Node, m: AliveMessage, now: int, gap1: seq<Id>, gap2: seq<Id>, gap3: seq<Id>)
    requires Good(n) && m.authentic && m.id != n.self && m.id !in n.members
    ensures Known(Interleaved(n, m, now, gap1, gap2, gap3).node, m.id) ==
            Some(Heard(m, now).(alive := m.id !in gap2 && m.id !in gap3))
  {
    UnknownShape(n, m, now, gap1, gap2, gap3);
    ExpireKeeps(n, gap1);
    var n1 := Expire(n, gap1);
    LearnNewAliveKeepsGood(n1, m, now);
    var n2 := LearnNew(n1, [m], [], now);
    KnownLearnAlive(n1, m, now, m.id);
    ExpireKeeps(n2, gap2);
    KnownExpire(n2, gap2, m.id);
    KnownExpire(Expire(n2, gap2), gap3, m.id);
  }

  lemma GapsDead(n: Node, m: AliveMessage, now: int, gap2: seq<Id>, gap3: seq<Id>)
    requires Good(n) && m.authentic && m.id in n.dead && Before(n.dead[m.id], m.time)
    ensures Known(Finish(n, m, now, gap2, gap3).node, m.id) == Some(Heard(m, now).(alive := m.id !in gap3))
  {
    FinishDeadShape(n, m, now, gap2, gap3);
    ExpireKeeps(n, gap2);
    var n2 := Expire(n, gap2);
    KnownResurrect(n2, m, now, m.id);
    ResurrectKeepsGood(n2, m, now);
    KnownExpire(Resurrect(n2, m, now), gap3, m.id);
  }

  lemma GapsAlive(n: Node, m: AliveMessage, now: int, gap2: seq<Id>, gap3: seq<Id>)
    requires Good(n) && m.authentic && m.id in n.alive && Before(n.alive[m.id], m.time)
    ensures Known(n, m.id).Some?
    ensures Known(Finish(n, m, now, gap2, gap3).node, m.id) ==
            if m.id in gap2 then Some(Known(n, m.id).value.(alive := false))
            else if m.id in gap3 then Some(Known(n, m.id).value.(alive := false, entry := NetworkMember(m.id, m.info)))
            else Some(Heard(m, now))
  {
    assert m.id in n.alive.Keys + n.dead.Keys;
    FinishAliveShape(n, m, now, gap2, gap3);
    ExpireKeeps(n, gap2);
    var n2 := Expire(n, gap2);
    ExpireKeeps(n2, gap3);
    KnownExpire(n, gap2, m.id);
    KnownExpire(n2, gap3, m.id);
    if m.id !in gap2 { KnownLearnExisting(Expire(n2, gap3), m, now, m.id); }
  }

  lemma GapsOld(n: Node, m: AliveMessage, now: int, gap1: seq<Id>, gap2: seq<Id>, gap3: seq<Id>)
    requires Good(n) && Known(n, m.id).Some? && !News(Known(n, m.id), m)
    ensures Known(Interleaved(n, m, now, gap1, gap2, gap3).node, m.id) ==
            Aged(Aged(Aged(Known(n, m.id), gap1, m.id), gap2, m.id), gap3, m.id)
  {
    RedeliveryIsInert(n, m, now, gap1, gap2, gap3);
    AgedThrice(n, gap1, gap2, gap3, m.id);
  }

  lemma AgedThrice(n: Node, gap1: seq<Id>, gap2: seq<Id>, gap3: seq<Id>, id: Id)
    requires Good(n)
    ensures Known(Expire(Expire(Expire(n, gap1), gap2), gap3), id) ==
            Aged(Aged(Aged(Known(n, id), gap1, id), gap2, id), gap3, id)
  {
    ExpireKeeps(n, gap1);
    ExpireKeeps(Expire(n, gap1), gap2);
    KnownExpire(n, gap1, id);
    KnownExpire(Expire(n, gap1), gap2, id);
    KnownExpire(Expire(Expire(n, gap1), gap2), gap3, id);
  }

  lemma OthersUnknown(n: Node, m: AliveMessage, now: int, gap1: seq<Id>, gap2: seq<Id>, gap3: seq<Id>, id: Id)
    requires Good(n) && m.authentic && m.id != n.self && m.id !in n.members && id != m.id
    ensures Known(Interleaved(n, m, now, gap1, gap2, gap3).node, id) ==
            Aged(Aged(Aged(Known(n, id), gap1, id), gap2, id), gap3, id)
  {
    UnknownShape(n, m, now, gap1, gap2, gap3);
    ExpireKeeps(n, gap1);
    var n1 := Expire(n, gap1);
    KnownExpire(n, gap1, id);
    LearnNewAliveKeepsGood(n1, m, now);
    var n2 := LearnNew(n1, [m], [], now);
    KnownLearnAlive(n1, m, now, id);
    ExpireKeeps(n2, gap2);
    KnownExpire(n2, gap2, id);
    KnownExpire(Expire(n2, gap2), gap3, id);
  }

  lemma OthersFinishDead(n: Node, m: AliveMessage, now: int, gap2: seq<Id>, gap3: seq<Id>, id: Id)
    requires Good(n) && m.authentic && m.id in n.dead && Before(n.dead[m.id], m.time) && id != m.id
    ensures Known(Finish(n, m, now, gap2, gap3).node, id) == Aged(Aged(Known(n, id), gap2, id), gap3, id)
  {
    FinishDeadShape(n, m, now, gap2, gap3);
    ExpireKeeps(n, gap2);
    var n2 := Expire(n, gap2);
    KnownExpire(n, gap2, id);
    KnownResurrect(n2, m, now, id);
    ResurrectKeepsGood(n2, m, now);
    KnownExpire(Resurrect(n2, m, now), gap3, id);
  }

  lemma OthersFinishAlive(n: Node, m: AliveMessage, now: int, gap2: seq<Id>, gap3: seq<Id>, id: Id)
    requires Good(n) && m.authentic && m.id in n.alive && Before(n.alive[m.id], m.time) && id != m.id
    ensures Known(Finish(n, m, now, gap2, gap3).node, id) == Aged(Aged(Known(n, id), gap2, id), gap3, id)
  {
    assert m.id in n.alive.Keys + n.dead.Keys;
    FinishAliveShape(n, m, now, gap2, gap3);
    ExpireKeeps(n, gap2);
    var n2 := Expire(n, gap2);
    ExpireKeeps(n2, gap3);
    KnownExpire(n, gap2, id);
    KnownExpire(n2, gap3, id);
    if m.id !in gap2 { KnownLearnExisting(Expire(n2, gap3), m, now, id); }
  }

  /** Handling a message does nothing to any row but its sender's, whatever expires meanwhile. */
  lemma OthersInterleaved(n: Node, m: AliveMessage, now: int, gap1: seq<Id>, gap2: seq<Id>, gap3: seq<Id>, id: Id)
    requires Good(n) && id != m.id
    ensures Known(Interleaved(n, m, now, gap1, gap2, gap3).node, id) ==
            Aged(Aged(Aged(Known(n, id), gap1, id), gap2, id), gap3, id)
  {
    assert m.id != n.self ==> (m.id in n.members <==> m.id in n.alive.Keys + n.dead.Keys);
    if !m.authentic || m.id == n.self || !News(Known(n, m.id), m) {
      RedeliveryIsInert(n, m, now, gap1, gap2, gap3);
      AgedThrice(n, gap1, gap2, gap3, id);
    } else if m.id !in n.members {
      OthersUnknown(n, m, now, gap1, gap2, gap3, id);
    } else {
      FirstTwoRegions(n, m, now, gap1, gap2, gap3);
      ExpireKeeps(n, gap1);
      KnownExpire(n, gap1, id);
      if m.id in n.alive && m.id !in gap1 {
        OthersFinishAlive(Expire(n, gap1), m, now, gap2, gap3, id);
      } else {
        OthersFinishDead(Expire(n, gap1), m, now, gap2, gap3, id);
      }
    }
  }

  /** The exact outcome of handling a message, for every placement of expiries between the handler's lock regions. */
  lemma KnownInterleaved(n: Node, m: AliveMessage, now: int, gap1: seq<Id>, gap2: seq<Id>, gap3: seq<Id>)
    requires Good(n) && m.authentic && m.id != n.self
    ensures Known(Interleaved(n, m, now, gap1, gap2, gap3).node, m.id) ==
            HeardWithGaps(Known(n, m.id), m, now, gap1, gap2, gap3)
  {
    assert m.id in n.members <==> m.id in n.alive.Keys + n.dead.Keys;
    if m.id !in n.members {
      GapsUnknown(n, m, now, gap1, gap2, gap3);
    } else if !News(Known(n, m.id), m) {
      GapsOld(n, m, now, gap1, gap2, gap3);
    } else {
      FirstTwoRegions(n, m, now, gap1, gap2, gap3);
      ExpireKeeps(n, gap1);
      KnownExpire(n, gap1, m.id);
      if m.id in n.alive && m.id !in gap1 {
        GapsAlive(Expire(n, gap1), m, now, gap2, gap3);
      } else {
        GapsDead(Expire(n, gap1), m, now, gap2, gap3);
      }
    }
  }
}
