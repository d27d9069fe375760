/**
 The discovery object (gossip/discovery/discovery_impl.go): maps and cached lists updated in place under one
 lock. Each method is a region of the source and is proved equal to the corresponding function of the model.
 */
module DiscoveryService {
  import opened GossipClock
  import opened DiscoveryNode
  import opened Options
  import opened DiscoveryRuns
  import opened DiscoveryExchange
  import opened DiscoveryPeers

  /** The first index of a message about `id`, or -1. */
  method IndexInSlice(list: seq<AliveMessage>, id: Id) returns (i: int)
    ensures i == IndexOf(list, id)
  {
    i := 0;
    while i < |list|
      invariant 0 <= i <= |list|
      invariant forall k :: 0 <= k < i ==> list[k].id != id
    {
      if list[i].id == id { return; }
      i := i + 1;
    }
    i := -1;
  }

  ghost predicate Distinct<T(!new)>(s: seq<T>)
  {
    forall i, j :: 0 <= i < j < |s| ==> s[i] != s[j]
  }

  /** learnExistingMembers over a list. */
  function LearnAllExisting(n: Node, ms: seq<AliveMessage>, now: int): (r: Node)
    requires forall i :: 0 <= i < |ms| ==> ms[i].id in n.members
    ensures r.members.Keys == n.members.Keys
  {
    if |ms| == 0 then n
    else LearnExisting(LearnAllExisting(n, ms[..|ms| - 1], now), ms[|ms| - 1], now)
  }

  lemma {:induction false} LearnAllExistingKeeps(n: Node, ms: seq<AliveMessage>, now: int)
    requires Good(n) && forall i :: 0 <= i < |ms| ==> ms[i].id in n.members && ms[i].authentic && ms[i].id != n.self
    ensures Good(LearnAllExisting(n, ms, now)) && LearnAllExisting(n, ms, now).self == n.self
    ensures LearnAllExisting(n, ms, now).alive.Keys == n.alive.Keys
  {
    if |ms| > 0 {
      LearnAllExistingKeeps(n, ms[..|ms| - 1], now);
      LearnExistingKeepsGood(LearnAllExisting(n, ms[..|ms| - 1], now), ms[|ms| - 1], now);
    }
  }

  /** Over a list, the row of each peer becomes what the last message about it says, if the peer is alive. */
  lemma {:induction false} LearnAllExistingRows(n: Node, ms: seq<AliveMessage>, now: int, i: nat)
    requires Good(n) && forall k :: 0 <= k < |ms| ==> ms[k].id in n.members && ms[k].authentic && ms[k].id != n.self
    requires i < |ms| && ms[i].id in n.alive && forall k :: i < k < |ms| ==> ms[k].id != ms[i].id
    ensures Known(LearnAllExisting(n, ms, now), ms[i].id) == Some(Heard(ms[i], now))
    decreases |ms|
  {
    var init, last := ms[..|ms| - 1], ms[|ms| - 1];
    var mid := LearnAllExisting(n, init, now);
    LearnAllExistingKeeps(n, init, now);
    if i < |ms| - 1 { LearnAllExistingRows(n, init, now, i); }
    KnownLearnExisting(mid, last, now, ms[i].id);
  }

  /** `ms` has exactly one entry, that of the member table, for each peer of `ids` that was alive. */
  ghost predicate Closes(n: Node, ids: seq<Id>, ms: seq<NetworkMember>)
  {
    && Distinct(ms)
    && (forall m :: m in ms ==> m.pkiId in n.alive && m.pkiId in ids && m.pkiId in n.members && m == n.members[m.pkiId])
    && (forall id :: id in n.alive && id in ids ==> id in n.members && n.members[id] in ms)
  }

  lemma ClosesNext(n: Node, ids: seq<Id>, ms: seq<NetworkMember>, id: Id)
    requires Good(n) && Closes(n, ids, ms)
    ensures id in n.alive ==> id in n.members
    ensures Closes(n, ids + [id], if id in n.alive && id !in ids then ms + [n.members[id]] else ms)
  {}

  class GossipDiscovery {
    const pkiId: Id
    const incTime: u64
    const info: Info
    var seqNum: u64
    var aliveLastTS: map<Id, Timestamp>
    var deadLastTS: map<Id, Timestamp>
    var id2Member: map<Id, NetworkMember>
    var cachedAlive: seq<AliveMessage>
    var cachedDead: seq<AliveMessage>
    var toDie: bool

    function View(): Node
      reads this
    {
      Node(pkiId, aliveLastTS, deadLastTS, id2Member, cachedAlive, cachedDead)
    }

    ghost predicate Valid()
      reads this
    {
      Good(View())
    }

    constructor (pkiId: Id, incTime: u64, info: Info)
      ensures Valid() && View() == Empty(pkiId) && this.incTime == incTime && seqNum == 0 && !toDie
    {
      this.pkiId, this.incTime, this.info, seqNum, toDie := pkiId, incTime, info, 0, false;
      aliveLastTS, deadLastTS, id2Member, cachedAlive, cachedDead := map[], map[], map[], [], [];
    }

    /** This peer's next alive message; the sequence number wraps at 64 bits. */
    method CreateAliveMessage(authentic: bool) returns (m: AliveMessage)
      modifies this`seqNum
      ensures m.id == pkiId && m.time == PeerTime(incTime, seqNum) && m.authentic == authentic
      ensures old(seqNum) < TWO_64 - 1 ==> Less(PeerTime(incTime, old(seqNum)), m.time)
      ensures seqNum == if old(seqNum) == TWO_64 - 1 then 0 else old(seqNum) + 1
    {
      seqNum := (seqNum + 1) % TWO_64;
      m := AliveMessage(pkiId, info, PeerTime(incTime, seqNum), authentic);
    }

    method LearnNewMembers(alives: seq<AliveMessage>, deads: seq<AliveMessage>, now: int)
      modifies this`aliveLastTS, this`deadLastTS, this`id2Member, this`cachedAlive, this`cachedDead
      ensures View() == LearnNew(old(View()), alives, deads, now)
    {
      for i := 0 to |alives|
        invariant View() == LearnAllAlive(old(View()), alives[..i], now)
      {
        assert alives[..i + 1][..i] == alives[..i];
        var am := alives[i];
        if am.id != pkiId {
          aliveLastTS := aliveLastTS[am.id := Stamp(am.time, now)];
          cachedAlive := cachedAlive + [am];
        }
      }
      assert alives[..|alives|] == alives;
      ghost var afterAlive := View();
      for i := 0 to |deads|
        invariant View() == LearnAllDead(afterAlive, deads[..i], now)
      {
        assert deads[..i + 1][..i] == deads[..i];
        var dm := deads[i];
        if dm.id != pkiId {
          deadLastTS := deadLastTS[dm.id := Stamp(dm.time, now)];
          cachedDead := cachedDead + [dm];
        }
      }
      assert deads[..|deads|] == deads;
      UpdateMembers(alives);
      UpdateMembers(deads);
    }

    method UpdateMembers(ms: seq<AliveMessage>)
      modifies this`id2Member
      ensures View() == SetAllMembers(old(View()), ms)
    {
      for i := 0 to |ms|
        invariant View() == SetAllMembers(old(View()), ms[..i])
      {
        assert ms[..i + 1][..i] == ms[..i];
        id2Member := id2Member[ms[i].id := NetworkMember(ms[i].id, ms[i].info)];
      }
      assert ms[..|ms|] == ms;
    }

    /** Every message must be about a known member: the source dereferences the table entry. */
    method LearnExistingMembers(ms: seq<AliveMessage>, now: int)
      requires forall i :: 0 <= i < |ms| ==> ms[i].id in id2Member
      modifies this`aliveLastTS, this`id2Member, this`cachedAlive
      ensures View() == LearnAllExisting(old(View()), ms, now)
    {
      for i := 0 to |ms|
        invariant View() == LearnAllExisting(old(View()), ms[..i], now)
      {
        assert ms[..i + 1][..i] == ms[..i];
        var am := ms[i];
        id2Member := id2Member[am.id := id2Member[am.id].(info := am.info)];
        if am.id !in deadLastTS && am.id in aliveLastTS {
          aliveLastTS := aliveLastTS[am.id := Stamp(am.time, now)];
          var k := IndexInSlice(cachedAlive, am.id);
          cachedAlive := if k == -1 then cachedAlive + [am] else cachedAlive[k := am];
        }
      }
      assert ms[..|ms|] == ms;
    }

    method ResurrectMember(am: AliveMessage, now: int)
      modifies this`aliveLastTS, this`deadLastTS, this`id2Member, this`cachedAlive, this`cachedDead
      ensures View() == Resurrect(old(View()), am, now)
    {
      aliveLastTS := aliveLastTS[am.id := Stamp(am.time, now)];
      id2Member := id2Member[am.id := NetworkMember(am.id, am.info)];
      deadLastTS := deadLastTS - {am.id};
      var i := IndexInSlice(cachedDead, am.id);
      if i != -1 {
        cachedDead := cachedDead[..i] + cachedDead[i + 1..];
      }
      var k := IndexInSlice(cachedAlive, am.id);
      if k == -1 {
        cachedAlive := cachedAlive + [am];
      }
    }

    /** Moves one peer from alive to dead, if it is alive. */
    method ExpireMember(id: Id)
      modifies this`aliveLastTS, this`deadLastTS, this`cachedAlive, this`cachedDead
      ensures View() == ExpireOne(old(View()), id)
    {
      if id !in aliveLastTS { return; }
      deadLastTS := deadLastTS[id := aliveLastTS[id]];
      aliveLastTS := aliveLastTS - {id};
      var i := IndexInSlice(cachedAlive, id);
      if i != -1 {
        cachedDead := cachedDead + [cachedAlive[i]];
        cachedAlive := cachedAlive[..i] + cachedAlive[i + 1..];
      }
    }

    /** Returns the members whose connections are to be closed; each is found in the member table. */
    method ExpireDeadMembers(dead: seq<Id>) returns (toClose: seq<NetworkMember>)
      requires Valid()
      modifies this`aliveLastTS, this`deadLastTS, this`cachedAlive, this`cachedDead
      ensures Valid() && View() == Expire(old(View()), dead)
      ensures Closes(old(View()), dead, toClose)
    {
      toClose := [];
      for j := 0 to |dead|
        invariant View() == Expire(old(View()), dead[..j])
        invariant Closes(old(View()), dead[..j], toClose)
      {
        assert dead[..j + 1] == dead[..j] + [dead[j]] && dead[..j + 1][..j] == dead[..j];
        ExpireKeeps(old(View()), dead[..j]);
        ClosesNext(old(View()), dead[..j], toClose, dead[j]);
        if dead[j] in aliveLastTS { toClose := toClose + [id2Member[dead[j]]]; }
        ExpireMember(dead[j]);
      }
      assert dead[..|dead|] == dead;
      ExpireKeeps(old(View()), dead);
    }

    /** The alive peers not seen for longer than the timeout, each once, in no particular order. */
    method GetDeadMembers(now: int, timeout: int) returns (dead: seq<Id>)
      ensures Distinct(dead)
      ensures forall id :: id in dead <==> id in aliveLastTS && now - aliveLastTS[id].lastSeen > timeout
    {
      dead := [];
      var todo := aliveLastTS.Keys;
      while todo != {}
        invariant todo <= aliveLastTS.Keys && Distinct(dead)
        invariant forall id :: id in dead <==>
          id in aliveLastTS && id !in todo && now - aliveLastTS[id].lastSeen > timeout
        decreases todo
      {
        var id :| id in todo;
        todo := todo - {id};
        if now - aliveLastTS[id].lastSeen > timeout { dead := dead + [id]; }
      }
    }

    /** Every known id, each once. */
    method GetKnownPeers() returns (peers: seq<Id>)
      ensures Distinct(peers) && forall id :: id in peers <==> id in id2Member
    {
      peers := [];
      var todo := id2Member.Keys;
      while todo != {}
        invariant todo <= id2Member.Keys && Distinct(peers)
        invariant forall id :: id in peers <==> id in id2Member && id !in todo
        decreases todo
      {
        var id :| id in todo;
        todo := todo - {id};
        peers := peers + [id];
      }
    }

    /** The response to a request that listed `known`. */
    method CreateMembershipResponse(known: seq<Id>, own: AliveMessage) returns (res: GossipMessage)
      ensures res == Response(View(), own, set k | k in known)
    {
      ghost var ids := set k | k in known;
      var i := 0;
      while i < |cachedDead|
        invariant 0 <= i <= |cachedDead|
        invariant FirstUnknown(cachedDead, ids) == FirstUnknown(cachedDead[i..], ids)
      {
        var dm := cachedDead[i];
        var isKnown := false;
        var j := 0;
        while j < |known| && !isKnown
          invariant 0 <= j <= |known|
          invariant isKnown ==> dm.id in known
          invariant !isKnown ==> forall k :: 0 <= k < j ==> known[k] != dm.id
        {
          if known[j] == dm.id { isKnown := true; }
          j := j + 1;
        }
        if !isKnown {
          return MemRes(cachedAlive + [own], [dm]);
        }
        assert cachedDead[i..][1..] == cachedDead[i + 1..];
        i := i + 1;
      }
      res := MemRes(cachedAlive + [own], []);
    }

    /**
     The alive peers, each exactly once and never this peer, with what their last recorded message said; nothing once
     the service is stopping.
     */
    method GetMembership() returns (response: seq<NetworkMember>)
      requires Valid()
      ensures toDie ==> response == []
      ensures !toDie ==> |response| == |cachedAlive|
      ensures forall i :: 0 <= i < |response| && i < |cachedAlive| ==>
        response[i] == NetworkMember(cachedAlive[i].id, cachedAlive[i].info)
      ensures !toDie ==> forall id :: (exists i :: 0 <= i < |response| && response[i].pkiId == id) <==> id in aliveLastTS
      ensures forall i, j :: 0 <= i < j < |response| ==> response[i].pkiId != response[j].pkiId
      ensures forall i :: 0 <= i < |response| ==> response[i].pkiId != pkiId
    {
      response := [];
      if toDie { return; }
      for k := 0 to |cachedAlive|
        invariant |response| == k
        invariant forall i :: 0 <= i < k ==> response[i] == NetworkMember(cachedAlive[i].id, cachedAlive[i].info)
      {
        response := response + [NetworkMember(cachedAlive[k].id, cachedAlive[k].info)];
      }
      forall id | id in aliveLastTS ensures exists i :: 0 <= i < |response| && response[i].pkiId == id {
        assert Listed(cachedAlive, id);
        var i :| 0 <= i < |cachedAlive| && cachedAlive[i].id == id;
        assert response[i].pkiId == id;
      }
      forall i | 0 <= i < |response| ensures response[i].pkiId in aliveLastTS && response[i].pkiId != pkiId {
        assert cachedAlive[i].id in aliveLastTS.Keys + deadLastTS.Keys;
      }
    }

    /** handleAliveMessage on an otherwise idle service: neither panic is reached. */
    method HandleAliveMessage(m: AliveMessage, now: int)
      requires Valid()
      modifies this`aliveLastTS, this`deadLastTS, this`id2Member, this`cachedAlive, this`cachedDead
      ensures Valid() && View() == HandleAtomically(old(View()), m, now)
    {
      if !m.authentic || m.id == pkiId { return; }
      if m.id !in id2Member {
        LearnNewAliveKeepsGood(View(), m, now);
        LearnNewMembers([m], [], now);
        return;
      }
      assert m.id in aliveLastTS.Keys + deadLastTS.Keys;
      if m.id in deadLastTS {
        if Before(deadLastTS[m.id], m.time) {
          ResurrectKeepsGood(View(), m, now);
          ResurrectMember(m, now);
        }
        return;
      }
      if Before(aliveLastTS[m.id], m.time) {
        LearnExistingKeepsGood(View(), m, now);
        assert [m][..0] == [];
        LearnExistingMembers([m], now);
      }
    }
  }
}
