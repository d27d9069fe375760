/**
 The membership state of one gossip peer and the regions it runs under its lock
 (gossip/discovery/discovery_impl.go): two maps of recorded clocks for alive and dead peers, the table of
 known members, and two cached message lists that have to agree with the maps.
 */
module DiscoveryNode {
  import opened GossipClock
  import opened Options

  /** PKI-ids and a member's endpoint with metadata; both are only stored and compared. */
  type Id(==, !new)
  type Info(==, !new)

  /** An alive message; `authentic` is the verdict of ValidateAliveMsg, a fixed property of the message. */
  datatype AliveMessage = AliveMessage(id: Id, info: Info, time: PeerTime, authentic: bool)

  datatype NetworkMember = NetworkMember(pkiId: Id, info: Info)

  datatype Node = Node(
    self: Id,
    alive: map<Id, Timestamp>,
    dead: map<Id, Timestamp>,
    members: map<Id, NetworkMember>,
    cacheAlive: seq<AliveMessage>,
    cacheDead: seq<AliveMessage>)

  function Empty(self: Id): Node { Node(self, map[], map[], map[], [], []) }

  /** The first message about `id` in a list, or -1. */
  function IndexOf(list: seq<AliveMessage>, id: Id): (i: int)
    ensures -1 <= i < |list|
    ensures i >= 0 ==> list[i].id == id && forall k :: 0 <= k < i ==> list[k].id != id
    ensures i == -1 ==> forall k :: 0 <= k < |list| ==> list[k].id != id
  {
    if |list| == 0 then -1
    else
      var i := IndexOf(list[..|list| - 1], id);
      if i >= 0 then i else if list[|list| - 1].id == id then |list| - 1 else -1
  }

  function RemoveAt(list: seq<AliveMessage>, i: int): seq<AliveMessage>
    requires -1 <= i < |list|
  {
    if i == -1 then list else list[..i] + list[i + 1..]
  }

  // ---------------------------------------------------------------- regions

  function LearnAlive(n: Node, m: AliveMessage, now: int): Node
  {
    if m.id == n.self then n
    else n.(alive := n.alive[m.id := Stamp(m.time, now)], cacheAlive := n.cacheAlive + [m])
  }

  function LearnDead(n: Node, m: AliveMessage, now: int): Node
  {
    if m.id == n.self then n
    else n.(dead := n.dead[m.id := Stamp(m.time, now)], cacheDead := n.cacheDead + [m])
  }

  function SetMember(n: Node, m: AliveMessage): Node
  {
    n.(members := n.members[m.id := NetworkMember(m.id, m.info)])
  }

  function LearnAllAlive(n: Node, ms: seq<AliveMessage>, now: int): Node
  {
    if |ms| == 0 then n else LearnAlive(LearnAllAlive(n, ms[..|ms| - 1], now), ms[|ms| - 1], now)
  }

  function LearnAllDead(n: Node, ms: seq<AliveMessage>, now: int): Node
  {
    if |ms| == 0 then n else LearnDead(LearnAllDead(n, ms[..|ms| - 1], now), ms[|ms| - 1], now)
  }

  function SetAllMembers(n: Node, ms: seq<AliveMessage>): Node
  {
    if |ms| == 0 then n else SetMember(SetAllMembers(n, ms[..|ms| - 1]), ms[|ms| - 1])
  }

  /** learnNewMembers. A message about this peer itself is not recorded, yet still enters the member table. */
  function LearnNew(n: Node, alives: seq<AliveMessage>, deads: seq<AliveMessage>, now: int): Node
  {
    SetAllMembers(SetAllMembers(LearnAllDead(LearnAllAlive(n, alives, now), deads, now), alives), deads)
  }

  /** learnExistingMembers for one message; a peer that expired meanwhile only gets its member data updated. */
  function LearnExisting(n: Node, m: AliveMessage, now: int): Node
    requires m.id in n.members
  {
    var n1 := n.(members := n.members[m.id := n.members[m.id].(info := m.info)]);
    if m.id in n.dead || m.id !in n.alive then n1
    else
      var i := IndexOf(n.cacheAlive, m.id);
      n1.(alive := n.alive[m.id := Stamp(m.time, now)],
          cacheAlive := if i == -1 then n.cacheAlive + [m] else n.cacheAlive[i := m])
  }

  /** resurrectMember. */
  function Resurrect(n: Node, m: AliveMessage, now: int): Node
  {
    n.(alive := n.alive[m.id := Stamp(m.time, now)],
       members := n.members[m.id := NetworkMember(m.id, m.info)],
       dead := n.dead - {m.id},
       cacheDead := RemoveAt(n.cacheDead, IndexOf(n.cacheDead, m.id)),
       cacheAlive := if IndexOf(n.cacheAlive, m.id) == -1 then n.cacheAlive + [m] else n.cacheAlive)
  }

  /** One iteration of expireDeadMembers. */
  function ExpireOne(n: Node, id: Id): Node
  {
    if id !in n.alive then n
    else
      var i := IndexOf(n.cacheAlive, id);
      n.(dead := n.dead[id := n.alive[id]],
         alive := n.alive - {id},
         cacheDead := if i == -1 then n.cacheDead else n.cacheDead + [n.cacheAlive[i]],
         cacheAlive := RemoveAt(n.cacheAlive, i))
  }

  /** expireDeadMembers, for any list of ids: the two goroutines that call it computed theirs without the lock. */
  function Expire(n: Node, ids: seq<Id>): Node
  {
    if |ids| == 0 then n else ExpireOne(Expire(n, ids[..|ids| - 1]), ids[|ids| - 1])
  }

  // ---------------------------------------------------------------- invariant

  /** Alive and dead peers partition the known members other than this peer; table entries carry their own key. */
  ghost predicate Partitioned(n: Node)
  {
    && n.alive.Keys !! n.dead.Keys
    && n.alive.Keys + n.dead.Keys == n.members.Keys - {n.self}
    && (forall id :: id in n.members ==> n.members[id].pkiId == id)
  }

  ghost predicate Listed(cache: seq<AliveMessage>, id: Id)
  {
    exists i :: 0 <= i < |cache| && cache[i].id == id
  }

  /** A cached list has one authentic message per recorded peer, carrying the recorded clock, and nothing else. */
  ghost predicate Agrees(cache: seq<AliveMessage>, stamps: map<Id, Timestamp>)
  {
    && (forall i, j :: 0 <= i < j < |cache| ==> cache[i].id != cache[j].id)
    && (forall i :: 0 <= i < |cache| ==>
          cache[i].authentic && cache[i].id in stamps && Clock(stamps[cache[i].id]) == cache[i].time)
    && (forall id :: id in stamps ==> Listed(cache, id))
  }

  ghost predicate Good(n: Node)
  {
    Partitioned(n) && Agrees(n.cacheAlive, n.alive) && Agrees(n.cacheDead, n.dead)
  }

  /** The clock recorded for a peer, in whichever map holds it. */
  function Recorded(n: Node, id: Id): Option<PeerTime>
  {
    if id in n.alive then Some(Clock(n.alive[id]))
    else if id in n.dead then Some(Clock(n.dead[id]))
    else None
  }

  lemma AgreesAppend(cache: seq<AliveMessage>, stamps: map<Id, Timestamp>, m: AliveMessage, t: Timestamp)
    requires Agrees(cache, stamps) && m.id !in stamps && m.authentic && Clock(t) == m.time
    ensures Agrees(cache + [m], stamps[m.id := t])
  {
    var c, st := cache + [m], stamps[m.id := t];
    forall id | id in st ensures Listed(c, id) {
      if id == m.id {
        assert c[|cache|].id == id;
      } else {
        var i :| 0 <= i < |cache| && cache[i].id == id;
        assert c[i].id == id;
      }
    }
  }

  lemma AgreesReplace(cache: seq<AliveMessage>, stamps: map<Id, Timestamp>, m: AliveMessage, t: Timestamp)
    requires Agrees(cache, stamps) && m.id in stamps && m.authentic && Clock(t) == m.time
    ensures IndexOf(cache, m.id) >= 0
    ensures Agrees(cache[IndexOf(cache, m.id) := m], stamps[m.id := t])
  {
    var k := IndexOf(cache, m.id);
    assert k >= 0;
    var c, st := cache[k := m], stamps[m.id := t];
    forall id | id in st ensures Listed(c, id) {
      var i :| 0 <= i < |cache| && cache[i].id == id;
      assert c[i].id == id;
    }
  }

  lemma RemoveAtIndex(cache: seq<AliveMessage>, k: nat, i: nat)
    requires k < |cache| && i < |cache| - 1
    ensures |RemoveAt(cache, k)| == |cache| - 1
    ensures RemoveAt(cache, k)[i] == cache[if i < k then i else i + 1]
  {}

  lemma RemoveAtLists(cache: seq<AliveMessage>, k: nat, id: Id)
    requires k < |cache| && cache[k].id != id && Listed(cache, id)
    ensures Listed(RemoveAt(cache, k), id)
  {
    var i :| 0 <= i < |cache| && cache[i].id == id;
    var j := if i < k then i else i - 1;
    RemoveAtIndex(cache, k, j);
    assert RemoveAt(cache, k)[j].id == id;
  }

  lemma AgreesRemove(cache: seq<AliveMessage>, stamps: map<Id, Timestamp>, id: Id)
    requires Agrees(cache, stamps) && id in stamps
    ensures IndexOf(cache, id) >= 0
    ensures Agrees(RemoveAt(cache, IndexOf(cache, id)), stamps - {id})
  {
    assert Listed(cache, id);
    var k := IndexOf(cache, id);
    var c, st := RemoveAt(cache, k), stamps - {id};
    forall i, j | 0 <= i < j < |c| ensures c[i].id != c[j].id {
      RemoveAtIndex(cache, k, i);
      RemoveAtIndex(cache, k, j);
    }
    forall i | 0 <= i < |c| ensures c[i].authentic && c[i].id in st && Clock(st[c[i].id]) == c[i].time {
      RemoveAtIndex(cache, k, i);
    }
    forall o | o in st ensures Listed(c, o) { RemoveAtLists(cache, k, o); }
  }

  lemma NotCached(cache: seq<AliveMessage>, stamps: map<Id, Timestamp>, id: Id)
    requires Agrees(cache, stamps) && id !in stamps
    ensures IndexOf(cache, id) == -1
  {}

  // ---------------------------------------------------------------- what each region keeps

  lemma LearnNewAliveOne(n: Node, m: AliveMessage, now: int)
    ensures LearnNew(n, [m], [], now) == SetMember(LearnAlive(n, m, now), m)
  {
    assert [m][..0] == [];
    assert LearnAllAlive(n, [m], now) == LearnAlive(n, m, now);
    assert SetAllMembers(LearnAlive(n, m, now), [m]) == SetMember(LearnAlive(n, m, now), m);
  }

  lemma LearnNewDeadOne(n: Node, m: AliveMessage, now: int)
    ensures LearnNew(n, [], [m], now) == SetMember(LearnDead(n, m, now), m)
    ensures LearnNew(n, [], [], now) == n
  {
    assert [m][..0] == [];
    assert LearnAllDead(n, [m], now) == LearnDead(n, m, now);
    assert SetAllMembers(LearnDead(n, m, now), [m]) == SetMember(LearnDead(n, m, now), m);
  }

  lemma LearnNewAliveKeepsGood(n: Node, m: AliveMessage, now: int)
    requires Good(n) && m.authentic && m.id !in n.members && m.id != n.self
    ensures Good(LearnNew(n, [m], [], now))
  {
    LearnNewAliveOne(n, m, now);
    assert m.id !in n.alive && m.id !in n.dead;
    AgreesAppend(n.cacheAlive, n.alive, m, Stamp(m.time, now));
  }

  lemma LearnNewDeadKeepsGood(n: Node, m: AliveMessage, now: int)
    requires Good(n) && m.authentic && m.id !in n.members
    ensures Good(LearnNew(n, [], [m], now))
  {
    LearnNewDeadOne(n, m, now);
    assert m.id !in n.alive && m.id !in n.dead;
    AgreesAppend(n.cacheDead, n.dead, m, Stamp(m.time, now));
  }

  lemma LearnExistingKeepsGood(n: Node, m: AliveMessage, now: int)
    requires Good(n) && m.authentic && m.id in n.members
    ensures Good(LearnExisting(n, m, now))
  {
    var r := LearnExisting(n, m, now);
    assert r.members.Keys == n.members.Keys;
    if m.id in n.alive {
      AgreesReplace(n.cacheAlive, n.alive, m, Stamp(m.time, now));
      assert r.alive.Keys == n.alive.Keys;
    }
  }

  lemma ResurrectKeepsGood(n: Node, m: AliveMessage, now: int)
    requires Good(n) && m.authentic && m.id in n.dead
    ensures Good(Resurrect(n, m, now))
  {
    NotCached(n.cacheAlive, n.alive, m.id);
    AgreesAppend(n.cacheAlive, n.alive, m, Stamp(m.time, now));
    AgreesRemove(n.cacheDead, n.dead, m.id);
    assert m.id in n.alive.Keys + n.dead.Keys;
  }

  lemma ExpireOneKeepsGood(n: Node, id: Id)
    requires Good(n)
    ensures Good(ExpireOne(n, id))
  {
    if id in n.alive {
      AgreesRemove(n.cacheAlive, n.alive, id);
      var i := IndexOf(n.cacheAlive, id);
      AgreesAppend(n.cacheDead, n.dead, n.cacheAlive[i], n.alive[id]);
    }
  }

  /** `e` is `n` with the alive peers among `ids` moved to the dead, clocks and member table untouched. */
  ghost predicate Expired(n: Node, ids: seq<Id>, e: Node)
  {
    && e.members == n.members && e.self == n.self
    && (forall id :: id in e.alive <==> id in n.alive && id !in ids)
    && (forall id :: id in e.dead <==> id in n.dead || (id in n.alive && id in ids))
    && (forall id :: id in e.alive ==> e.alive[id] == n.alive[id])
    && (forall id :: id in e.dead ==> e.dead[id] == if id in n.alive then n.alive[id] else n.dead[id])
  }

  lemma ExpireOneEffect(n: Node, ids: seq<Id>, mid: Node, id: Id)
    requires Good(n) && Expired(n, ids, mid)
    ensures Expired(n, ids + [id], ExpireOne(mid, id))
  {}

  lemma {:induction false} ExpireKeeps(n: Node, ids: seq<Id>)
    requires Good(n)
    ensures Good(Expire(n, ids)) && Expired(n, ids, Expire(n, ids))
  {
    if |ids| > 0 {
      var mid := Expire(n, ids[..|ids| - 1]);
      ExpireKeeps(n, ids[..|ids| - 1]);
      ExpireOneKeepsGood(mid, ids[|ids| - 1]);
      ExpireOneEffect(n, ids[..|ids| - 1], mid, ids[|ids| - 1]);
      assert ids == ids[..|ids| - 1] + [ids[|ids| - 1]];
    }
  }

  /** Expiry never changes the clock recorded for anyone. */
  lemma ExpireKeepsRecords(n: Node, ids: seq<Id>, id: Id)
    requires Good(n)
    ensures Recorded(Expire(n, ids), id) == Recorded(n, id)
  {}
}
