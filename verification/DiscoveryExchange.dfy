/**
 The membership request and response between two peers (gossip/discovery/discovery_impl.go). The requester sends
 the ids it knows; the response lists every alive peer but at most one dead peer, the first the requester does
 not know. Repeating the exchange still gets the requester all of the responder's dead peers.
 */
module DiscoveryExchange {
  import opened GossipClock
  import opened DiscoveryNode
  import opened Options
  import opened DiscoveryRuns
  import opened DiscoveryMax

  /** The dead entry of a response: the first cached dead peer whose id was not listed as known. */
  function FirstUnknown(cache: seq<AliveMessage>, known: set<Id>): (r: Option<AliveMessage>)
    ensures r.Some? ==> r.value in cache && r.value.id !in known
    ensures r.None? ==> forall i :: 0 <= i < |cache| ==> cache[i].id in known
  {
    if |cache| == 0 then None
    else if cache[0].id !in known then Some(cache[0])
    else FirstUnknown(cache[1..], known)
  }

  /** It is the first such peer: everything before it in the list is known. */
  lemma {:induction false} FirstUnknownIsFirst(cache: seq<AliveMessage>, known: set<Id>) returns (i: nat)
    requires FirstUnknown(cache, known).Some?
    ensures i < |cache| && cache[i] == FirstUnknown(cache, known).value && cache[i].id !in known
    ensures forall k :: 0 <= k < i ==> cache[k].id in known
  {
    if cache[0].id !in known {
      i := 0;
    } else {
      var j := FirstUnknownIsFirst(cache[1..], known);
      i := j + 1;
      forall k | 0 <= k < i ensures cache[k].id in known {
        if k > 0 { assert cache[k] == cache[1..][k - 1]; }
      }
    }
  }

  /** createMembershipResponse, with this peer's own fresh alive message. */
  function Response(n: Node, own: AliveMessage, known: set<Id>): GossipMessage
  {
    var first := FirstUnknown(n.cacheDead, known);
    MemRes(n.cacheAlive + [own], if first.Some? then [first.value] else [])
  }

  function HandleAlives(n: Node, ms: seq<AliveMessage>, now: int): Node
  {
    if |ms| == 0 then n else HandleAtomically(HandleAlives(n, ms[..|ms| - 1], now), ms[|ms| - 1], now)
  }

  /** One dead entry of a response: recorded as dead if authentic and not known. */
  function HandleDeadEntry(n: Node, m: AliveMessage, now: int): Node
  {
    if !m.authentic || m.id in n.members then n else LearnNew(n, [], [m], now)
  }

  /** Without interference the handler's two regions for a dead entry do exactly that. */
  lemma DeadRegionsRefineAtomic(n: Node, m: AliveMessage, now: int)
    ensures Handler(Handler(Host(n, [HandleDead(m)], Ready), now), now) == Host(HandleDeadEntry(n, m, now), [], Ready)
  {}

  /** What the requester does with a response. */
  function HandleResponse(n: Node, res: GossipMessage, now: int): Node
    requires res.MemRes? && |res.deads| <= 1
  {
    var n1 := HandleAlives(n, res.alives, now);
    if |res.deads| == 0 then n1 else HandleDeadEntry(n1, res.deads[0], now)
  }

  /**
   A round: the two fresh alive messages of the exchange, and anything else the requester goes through before it sends
   what it knows and between that and the response.
   */
  datatype Turn = Turn(
    before: seq<Occurrence>, between: seq<Occurrence>, requester: AliveMessage, responder: AliveMessage, now: int)

  datatype Pair = Pair(requester: Node, responder: Node)

  function Occur(n: Node, os: seq<Occurrence>): Node
  {
    if |os| == 0 then n else Apply(Occur(n, os[..|os| - 1]), os[|os| - 1])
  }

  function Round(p: Pair, t: Turn): Pair
  {
    var a := Occur(p.requester, t.before);
    var b := HandleAtomically(p.responder, t.requester, t.now);
    Pair(HandleResponse(Occur(a, t.between), Response(b, t.responder, a.members.Keys), t.now), b)
  }

  function Exchange(p: Pair, turns: seq<Turn>): Pair
  {
    if |turns| == 0 then p else Round(Exchange(p, turns[..|turns| - 1]), turns[|turns| - 1])
  }

  /** The responder's dead peers that the requester does not know. */
  function Unknown(p: Pair): set<Id>
  {
    p.responder.dead.Keys - p.requester.members.Keys
  }

  // ---------------------------------------------------------------- members are never forgotten

  lemma HandleKeepsMembers(n: Node, m: AliveMessage, now: int)
    requires Good(n)
    ensures n.members.Keys <= HandleAtomically(n, m, now).members.Keys
  {
    LearnNewAliveOne(n, m, now);
  }

  lemma {:induction false} HandleAlivesKeeps(n: Node, ms: seq<AliveMessage>, now: int)
    requires Good(n)
    ensures Good(HandleAlives(n, ms, now)) && n.members.Keys <= HandleAlives(n, ms, now).members.Keys
    ensures HandleAlives(n, ms, now).self == n.self
  {
    if |ms| > 0 {
      HandleAlivesKeeps(n, ms[..|ms| - 1], now);
      var mid := HandleAlives(n, ms[..|ms| - 1], now);
      HandleKeepsGood(mid, ms[|ms| - 1], now);
      HandleKeepsMembers(mid, ms[|ms| - 1], now);
    }
  }

  lemma {:induction false} OccurKeeps(n: Node, os: seq<Occurrence>)
    requires Good(n)
    ensures Good(Occur(n, os)) && n.members.Keys <= Occur(n, os).members.Keys && Occur(n, os).self == n.self
  {
    if |os| > 0 {
      OccurKeeps(n, os[..|os| - 1]);
      var mid := Occur(n, os[..|os| - 1]);
      match os[|os| - 1]
      case Received(m, now) =>
        HandleKeepsGood(mid, m, now);
        HandleKeepsMembers(mid, m, now);
      case Expiry(ids) => ExpireKeeps(mid, ids);
    }
  }

  /** Handling messages never adds a dead peer, so an otherwise quiet responder's dead set only shrinks. */
  lemma HandleKillsNobody(n: Node, m: AliveMessage, now: int)
    requires Good(n)
    ensures HandleAtomically(n, m, now).dead.Keys <= n.dead.Keys
  {
    LearnNewAliveOne(n, m, now);
  }

  /** Every authentic alive message of a response makes its sender known, except this peer itself. */
  lemma {:induction false} HandleAlivesLearns(n: Node, ms: seq<AliveMessage>, now: int, i: nat)
    requires Good(n) && i < |ms| && ms[i].authentic && ms[i].id != n.self
    ensures ms[i].id in HandleAlives(n, ms, now).members
    decreases |ms|
  {
    var init, last := ms[..|ms| - 1], ms[|ms| - 1];
    var mid := HandleAlives(n, init, now);
    HandleAlivesKeeps(n, init, now);
    if i < |ms| - 1 {
      HandleAlivesLearns(n, init, now, i);
      HandleKeepsMembers(mid, last, now);
    } else {
      LearnNewAliveOne(mid, last, now);
    }
  }

  lemma ResponseLearned(n: Node, b: Node, own: AliveMessage, known: set<Id>, now: int)
    requires Good(n) && Good(b) && known <= n.members.Keys
    ensures var r := HandleResponse(n, Response(b, own, known), now);
            && Good(r) && n.members.Keys <= r.members.Keys && r.self == n.self
            && (FirstUnknown(b.cacheDead, known).Some? ==> FirstUnknown(b.cacheDead, known).value.id in r.members)
  {
    var first := FirstUnknown(b.cacheDead, known);
    HandleAlivesKeeps(n, b.cacheAlive + [own], now);
    var n1 := HandleAlives(n, b.cacheAlive + [own], now);
    if first.Some? && first.value.id !in n1.members {
      LearnNewDeadKeepsGood(n1, first.value, now);
      LearnNewDeadOne(n1, first.value, now);
    }
  }

  /** Peers alive at the responder are known to the requester, or are the requester. */
  lemma ResponseTellsAlive(n: Node, b: Node, own: AliveMessage, known: set<Id>, now: int, id: Id)
    requires Good(n) && Good(b) && id in b.alive && id != n.self
    ensures id in HandleResponse(n, Response(b, own, known), now).members
  {
    var ms := b.cacheAlive + [own];
    assert Listed(b.cacheAlive, id);
    var i :| 0 <= i < |b.cacheAlive| && b.cacheAlive[i].id == id;
    assert ms[i] == b.cacheAlive[i];
    HandleAlivesKeeps(n, ms, now);
    HandleAlivesLearns(n, ms, now, i);
    var first := FirstUnknown(b.cacheDead, known);
    if first.Some? { LearnNewDeadOne(HandleAlives(n, ms, now), first.value, now); }
  }

  /** A dead peer that the responder hears from again is announced as alive in the same round. */
  lemma RoundTellsRevived(p: Pair, t: Turn, id: Id)
    requires Good(p.requester) && Good(p.responder)
    requires id in p.responder.dead && id !in Round(p, t).responder.dead && id != p.requester.self
    ensures id in Round(p, t).requester.members
  {
    var a := Occur(p.requester, t.before);
    var b := HandleAtomically(p.responder, t.requester, t.now);
    OccurKeeps(p.requester, t.before);
    OccurKeeps(a, t.between);
    HandleKeepsGood(p.responder, t.requester, t.now);
    HandleKeepsMembers(p.responder, t.requester, t.now);
    assert id in p.responder.alive.Keys + p.responder.dead.Keys && id in b.members.Keys - {b.self};
    ResponseTellsAlive(Occur(a, t.between), b, t.responder, a.members.Keys, t.now, id);
  }

  /**
   Each round keeps both peers consistent and, as long as something is unknown, teaches the requester at least
   one more of the responder's dead peers. The requester's own id may be that peer: it is not recorded as dead,
   but it enters the member table, so it is listed as known next time and cannot block the others.
   */
  lemma RoundProgress(p: Pair, t: Turn)
    requires Good(p.requester) && Good(p.responder)
    ensures Good(Round(p, t).requester) && Good(Round(p, t).responder)
    ensures Round(p, t).responder.dead.Keys <= p.responder.dead.Keys
    ensures p.requester.members.Keys <= Round(p, t).requester.members.Keys
    ensures Round(p, t).requester.self == p.requester.self
    ensures Unknown(Round(p, t)) <= Unknown(p)
    ensures Unknown(p) != {} ==> |Unknown(Round(p, t))| < |Unknown(p)|
  {
    var a := Occur(p.requester, t.before);
    var b := HandleAtomically(p.responder, t.requester, t.now);
    OccurKeeps(p.requester, t.before);
    OccurKeeps(a, t.between);
    HandleKeepsGood(p.responder, t.requester, t.now);
    HandleKillsNobody(p.responder, t.requester, t.now);
    ResponseLearned(Occur(a, t.between), b, t.responder, a.members.Keys, t.now);
    var u, v := Unknown(p), Unknown(Round(p, t));
    assert v <= u;
    var first := FirstUnknown(b.cacheDead, a.members.Keys);
    if u != {} {
      if first.Some? {
        assert first.value.id in b.dead;
        assert first.value.id in u - v;
      } else {
        forall id | id in b.dead ensures id in a.members { assert Listed(b.cacheDead, id); }
        assert v == {};
      }
      StrictlyFewer(v, u);
    }
  }

  lemma StrictlyFewer(v: set<Id>, u: set<Id>)
    requires v < u
    ensures |v| < |u|
  {
    assert u == v + (u - v) && v !! (u - v);
  }

  lemma {:induction false} ExchangeProgress(p: Pair, turns: seq<Turn>)
    requires Good(p.requester) && Good(p.responder)
    ensures Good(Exchange(p, turns).requester) && Good(Exchange(p, turns).responder)
    ensures Unknown(Exchange(p, turns)) == {} || |Unknown(Exchange(p, turns))| + |turns| <= |Unknown(p)|
  {
    if |turns| > 0 {
      ExchangeProgress(p, turns[..|turns| - 1]);
      RoundProgress(Exchange(p, turns[..|turns| - 1]), turns[|turns| - 1]);
    }
  }

  /** Whoever was dead at the responder at the start is still dead there, known to the requester, or the requester. */
  lemma {:induction false} DeadStaysOrGetsKnown(p: Pair, turns: seq<Turn>, id: Id)
    requires Good(p.requester) && Good(p.responder) && id in p.responder.dead && id != p.requester.self
    ensures var e := Exchange(p, turns);
            e.requester.self == p.requester.self && (id in e.responder.dead || id in e.requester.members)
  {
    if |turns| > 0 {
      var before, t := Exchange(p, turns[..|turns| - 1]), turns[|turns| - 1];
      ExchangeProgress(p, turns[..|turns| - 1]);
      DeadStaysOrGetsKnown(p, turns[..|turns| - 1], id);
      RoundProgress(before, t);
      if id in before.responder.dead && id !in Round(before, t).responder.dead { RoundTellsRevived(before, t, id); }
    }
  }

  lemma SubsetSize(v: set<Id>, u: set<Id>)
    requires v <= u
    ensures |v| <= |u|
  {
    assert u == v + (u - v) && v !! (u - v);
  }

  /**
   After as many rounds as the responder has dead peers, the requester knows all of them, and all that the
   responder has as dead by then, whatever else the requester received or expired between rounds.
   */
  lemma DeadPeersGetKnown(p: Pair, turns: seq<Turn>)
    requires Good(p.requester) && Good(p.responder)
    requires |turns| >= |p.responder.dead.Keys|
    ensures Exchange(p, turns).responder.dead.Keys <= Exchange(p, turns).requester.members.Keys
    ensures p.responder.dead.Keys - {p.requester.self} <= Exchange(p, turns).requester.members.Keys
  {
    ExchangeProgress(p, turns);
    SubsetSize(Unknown(p), p.responder.dead.Keys);
    var e := Exchange(p, turns);
    assert |Unknown(e)| == 0 ==> Unknown(e) == {};
    assert Unknown(e) == {};
    forall id | id in e.responder.dead.Keys ensures id in e.requester.members.Keys { assert id !in Unknown(e); }
    forall id | id in p.responder.dead.Keys - {p.requester.self} ensures id in e.requester.members.Keys {
      DeadStaysOrGetsKnown(p, turns, id);
    }
  }
}
