/**
 What a peer ends up recording about the others, when each alive message is handled without interference and
 expiries fall between messages (gossip/discovery/discovery_impl.go). The recorded clock of a peer is the
 lexicographic maximum of everything authentic received from it, so it depends neither on the order of delivery
 nor on where the expiries fall.
 */
module DiscoveryMax {
  import opened GossipClock
  import opened DiscoveryNode
  import opened Options
  import opened DiscoveryRuns

  datatype Occurrence = Received(m: AliveMessage, now: int) | Expiry(ids: seq<Id>)

  function Apply(n: Node, o: Occurrence): Node
  {
    match o
    case Received(m, now) => HandleAtomically(n, m, now)
    case Expiry(ids) => Expire(n, ids)
  }

  function History(self: Id, os: seq<Occurrence>): Node
  {
    if |os| == 0 then Empty(self) else Apply(History(self, os[..|os| - 1]), os[|os| - 1])
  }

  /** The clocks authentically received from `id`. */
  ghost function ReceivedFrom(os: seq<Occurrence>, id: Id): set<PeerTime>
  {
    set i | 0 <= i < |os| && os[i].Received? && os[i].m.authentic && os[i].m.id == id :: os[i].m.time
  }

  /** `r` is the greatest element of `times`, or None when there is none. */
  ghost predicate IsMaximum(r: Option<PeerTime>, times: set<PeerTime>)
  {
    match r
    case None => times == {}
    case Some(p) => p in times && forall q :: q in times ==> AtMost(q, p)
  }

  lemma MaximumIsUnique(r: Option<PeerTime>, s: Option<PeerTime>, times: set<PeerTime>)
    requires IsMaximum(r, times) && IsMaximum(s, times)
    ensures r == s
  {}

  lemma HandleKeepsGood(n: Node, m: AliveMessage, now: int)
    requires Good(n)
    ensures Good(HandleAtomically(n, m, now)) && HandleAtomically(n, m, now).self == n.self
  {
    if m.authentic && m.id != n.self {
      if m.id !in n.members {
        LearnNewAliveKeepsGood(n, m, now);
        LearnNewAliveOne(n, m, now);
      } else if m.id in n.dead {
        ResurrectKeepsGood(n, m, now);
      } else {
        LearnExistingKeepsGood(n, m, now);
      }
    }
  }

  /** Handling a message raises its sender's record to the newer of the two clocks and touches no other record. */
  lemma HandleRecords(n: Node, m: AliveMessage, now: int, id: Id)
    requires Good(n) && id != n.self
    ensures Recorded(HandleAtomically(n, m, now), id) ==
      if m.authentic && m.id == id then Some(Newer(Recorded(n, id), m.time)) else Recorded(n, id)
  {
    if m.authentic && m.id != n.self {
      LearnNewAliveOne(n, m, now);
      assert m.id in n.members <==> m.id in n.alive.Keys + n.dead.Keys;
    }
  }

  lemma {:induction false} HistoryKeepsGood(self: Id, os: seq<Occurrence>)
    ensures Good(History(self, os)) && History(self, os).self == self
  {
    if |os| > 0 {
      HistoryKeepsGood(self, os[..|os| - 1]);
      var before := History(self, os[..|os| - 1]);
      match os[|os| - 1]
      case Received(m, now) => HandleKeepsGood(before, m, now);
      case Expiry(ids) => ExpireKeeps(before, ids);
    }
  }

  lemma ReceivedFromAppend(os: seq<Occurrence>, o: Occurrence, id: Id)
    ensures ReceivedFrom(os + [o], id) ==
      ReceivedFrom(os, id) + (if o.Received? && o.m.authentic && o.m.id == id then {o.m.time} else {})
  {
    var all := os + [o];
    forall t | t in ReceivedFrom(os, id) ensures t in ReceivedFrom(all, id) {
      var i :| 0 <= i < |os| && os[i].Received? && os[i].m.authentic && os[i].m.id == id && os[i].m.time == t;
      assert all[i] == os[i];
    }
    if o.Received? && o.m.authentic && o.m.id == id { assert all[|os|] == o; }
  }

  /** For every sequence of messages and expiries, the recorded clock is the maximum received. */
  lemma {:induction false} RecordIsMaximum(self: Id, os: seq<Occurrence>, id: Id)
    requires id != self
    ensures IsMaximum(Recorded(History(self, os), id), ReceivedFrom(os, id))
  {
    if |os| > 0 {
      var init, o := os[..|os| - 1], os[|os| - 1];
      RecordIsMaximum(self, init, id);
      HistoryKeepsGood(self, init);
      ReceivedFromAppend(init, o, id);
      assert os == init + [o];
      match o
      case Received(m, now) => HandleRecords(History(self, init), m, now, id);
      case Expiry(ids) => ExpireKeepsRecords(History(self, init), ids, id);
    }
  }

  /** Delivery order, redelivery and the placement of expiries do not matter to what is recorded. */
  lemma OrderDoesNotMatter(self: Id, os: seq<Occurrence>, other: seq<Occurrence>, id: Id)
    requires id != self
    requires ReceivedFrom(os, id) == ReceivedFrom(other, id)
    ensures Recorded(History(self, os), id) == Recorded(History(self, other), id)
  {
    RecordIsMaximum(self, os, id);
    RecordIsMaximum(self, other, id);
    MaximumIsUnique(Recorded(History(self, os), id), Recorded(History(self, other), id), ReceivedFrom(os, id));
  }
}
