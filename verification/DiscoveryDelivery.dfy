/**
 A gossip message from its delivery to its last effect (gossip/discovery/discovery_impl.go): how the handler works
 through the tasks a message stands for, and what a membership response does to every row of the requester's table.
 */
module DiscoveryDelivery {
  import opened GossipClock
  import opened DiscoveryNode
  import opened Options
  import opened DiscoveryRuns
  import opened DiscoveryMax
  import opened DiscoveryExchange
  import opened DiscoveryPeers

  // ---------------------------------------------------------------- the handler works a message off

  function HandleTask(n: Node, t: Task, now: int): Node
  {
    match t
    case HandleAlive(m) => HandleAtomically(n, m, now)
    case HandleDead(m) => HandleDeadEntry(n, m, now)
  }

  function HandleTasks(n: Node, ts: seq<Task>, now: int): Node
    decreases |ts|
  {
    if |ts| == 0 then n else HandleTasks(HandleTask(n, ts[0], now), ts[1..], now)
  }

  /** `k` lock regions of the handler, undisturbed. */
  function Iterate(h: Host, k: nat, now: int): Host
    decreases k
  {
    if k == 0 then h else Iterate(Handler(h, now), k - 1, now)
  }

  lemma {:induction false} IterateAdds(h: Host, j: nat, k: nat, now: int)
    ensures Iterate(Iterate(h, j, now), k, now) == Iterate(h, j + k, now)
    decreases j
  {
    if j > 0 { IterateAdds(Handler(h, now), j - 1, k, now); }
  }

  lemma FourIterations(h: Host, now: int)
    ensures Iterate(h, 1, now) == Handler(h, now)
    ensures Iterate(h, 2, now) == Handler(Handler(h, now), now)
    ensures Iterate(h, 3, now) == Handler(Handler(Handler(h, now), now), now)
    ensures Iterate(h, 4, now) == Handler(Handler(Handler(Handler(h, now), now), now), now)
  {
    var h1 := Handler(h, now);
    var h2 := Handler(h1, now);
    var h3 := Handler(h2, now);
    assert Iterate(h3, 1, now) == Handler(h3, now) && Iterate(h2, 1, now) == h3 && Iterate(h1, 1, now) == h2;
    assert Iterate(h2, 2, now) == Handler(h3, now) && Iterate(h1, 2, now) == h3;
    assert Iterate(h1, 3, now) == Handler(h3, now);
  }

  lemma AliveTaskRuns(n: Node, m: AliveMessage, rest: seq<Task>, now: int) returns (k: nat)
    requires Good(n)
    ensures Iterate(Host(n, [HandleAlive(m)] + rest, Ready), k, now) == Host(HandleAtomically(n, m, now), rest, Ready)
  {
    var h := Host(n, [HandleAlive(m)] + rest, Ready);
    assert h.todo[1..] == rest;
    FourIterations(h, now);
    if !m.authentic || m.id == n.self {
      k := 1;
    } else if m.id !in n.members {
      k := 2;
    } else {
      ReadStampsOk(n, m);
      k := if m.id in n.dead then 3 else 4;
    }
  }

  lemma DeadTaskRuns(n: Node, m: AliveMessage, rest: seq<Task>, now: int) returns (k: nat)
    ensures Iterate(Host(n, [HandleDead(m)] + rest, Ready), k, now) == Host(HandleDeadEntry(n, m, now), rest, Ready)
  {
    var h := Host(n, [HandleDead(m)] + rest, Ready);
    assert h.todo[1..] == rest;
    FourIterations(h, now);
    LearnNewDeadOne(n, m, now);
    k := if m.authentic then 2 else 1;
  }

  lemma TaskKeepsGood(n: Node, t: Task, now: int)
    requires Good(n)
    ensures Good(HandleTask(n, t, now))
  {
    if t.HandleAlive? {
      HandleKeepsGood(n, t.msg, now);
    } else if t.msg.authentic && t.msg.id !in n.members {
      LearnNewDeadKeepsGood(n, t.msg, now);
    }
  }

  lemma {:induction false} TasksRun(n: Node, ts: seq<Task>, now: int) returns (k: nat)
    requires Good(n)
    ensures Iterate(Host(n, ts, Ready), k, now) == Host(HandleTasks(n, ts, now), [], Ready)
    decreases |ts|
  {
    if |ts| == 0 {
      k := 0;
    } else {
      assert ts == [ts[0]] + ts[1..];
      var i: nat;
      if ts[0].HandleAlive? {
        i := AliveTaskRuns(n, ts[0].msg, ts[1..], now);
      } else {
        i := DeadTaskRuns(n, ts[0].msg, ts[1..], now);
      }
      TaskKeepsGood(n, ts[0], now);
      var j := TasksRun(HandleTask(n, ts[0], now), ts[1..], now);
      IterateAdds(Host(n, ts, Ready), i, j, now);
      k := i + j;
    }
  }

  lemma {:induction false} TasksAppend(n: Node, a: seq<Task>, b: seq<Task>, now: int)
    ensures HandleTasks(n, a + b, now) == HandleTasks(HandleTasks(n, a, now), b, now)
    decreases |a|
  {
    if |a| == 0 {
      assert a + b == b;
    } else {
      assert (a + b)[1..] == a[1..] + b;
      TasksAppend(HandleTask(n, a[0], now), a[1..], b, now);
    }
  }

  lemma {:induction false} AliveTasks(n: Node, ms: seq<AliveMessage>, now: int)
    ensures HandleTasks(n, seq(|ms|, i requires 0 <= i < |ms| => HandleAlive(ms[i])), now) == HandleAlives(n, ms, now)
    decreases |ms|
  {
    var ts := seq(|ms|, i requires 0 <= i < |ms| => HandleAlive(ms[i]));
    if |ms| > 0 {
      var init := ms[..|ms| - 1];
      var tinit := seq(|init|, i requires 0 <= i < |init| => HandleAlive(init[i]));
      AliveTasks(n, init, now);
      assert ts == tinit + [HandleAlive(ms[|ms| - 1])];
      TasksAppend(n, tinit, [HandleAlive(ms[|ms| - 1])], now);
    }
  }

  /** What a delivered message amounts to: a request counts as the requester's alive message. */
  function Effect(n: Node, message: GossipMessage, now: int): Node
    requires message.MemRes? ==> |message.deads| <= 1
  {
    match message
    case AliveMsg(m) => HandleAtomically(n, m, now)
    case MemReq(m, _) => HandleAtomically(n, m, now)
    case MemRes(_, _) => HandleResponse(n, message, now)
    case OtherMsg => n
  }

  lemma TasksAreEffect(n: Node, message: GossipMessage, now: int)
    requires message.MemRes? ==> |message.deads| <= 1
    ensures HandleTasks(n, Tasks(message), now) == Effect(n, message, now)
  {
    if message.MemRes? {
      var MemRes(alives, deads) := message;
      var a := seq(|alives|, i requires 0 <= i < |alives| => HandleAlive(alives[i]));
      var d := seq(|deads|, i requires 0 <= i < |deads| => HandleDead(deads[i]));
      AliveTasks(n, alives, now);
      TasksAppend(n, a, d, now);
      assert |deads| == 1 ==> d == [HandleDead(deads[0])] && d[1..] == [];
    } else {
      assert Tasks(message) != [] ==> Tasks(message)[1..] == [];
    }
  }

  /** Left alone, the handler works a delivered message off completely, with exactly its effect, and is ready again. */
  lemma DeliveryTakesEffect(n: Node, message: GossipMessage, now: int) returns (k: nat)
    requires Good(n) && (message.MemRes? ==> |message.deads| <= 1)
    ensures Iterate(Next(Host(n, [], Ready), Deliver(message)), k, now) == Host(Effect(n, message, now), [], Ready)
  {
    assert [] + Tasks(message) == Tasks(message);
    k := TasksRun(n, Tasks(message), now);
    TasksAreEffect(n, message, now);
  }

  // ---------------------------------------------------------------- what a response does, row by row

  /** The row of `id` after hearing a message that may be about it. */
  function HearOne(r: Option<Peer>, m: AliveMessage, now: int): Option<Peer>
  {
    if m.authentic && News(r, m) then Some(Heard(m, now)) else r
  }

  /** A list of alive messages with no two about the same peer touches each row at most once. */
  lemma {:induction false} KnownAlivesOther(n: Node, ms: seq<AliveMessage>, now: int, id: Id)
    requires Good(n) && forall i :: 0 <= i < |ms| ==> ms[i].id != id
    ensures Known(HandleAlives(n, ms, now), id) == Known(n, id)
  {
    if |ms| > 0 {
      var init := ms[..|ms| - 1];
      KnownAlivesOther(n, init, now, id);
      HandleAlivesKeeps(n, init, now);
      KnownHandle(HandleAlives(n, init, now), ms[|ms| - 1], now, id);
    }
  }

  ghost predicate DistinctSenders(ms: seq<AliveMessage>)
  {
    forall i, j :: 0 <= i < j < |ms| ==> ms[i].id != ms[j].id
  }

  lemma {:induction false} KnownAlivesListed(n: Node, ms: seq<AliveMessage>, now: int, i: nat)
    requires Good(n) && DistinctSenders(ms) && i < |ms| && ms[i].id != n.self
    ensures Known(HandleAlives(n, ms, now), ms[i].id) == HearOne(Known(n, ms[i].id), ms[i], now)
  {
    var init, last := ms[..|ms| - 1], ms[|ms| - 1];
    HandleAlivesKeeps(n, init, now);
    KnownHandle(HandleAlives(n, init, now), last, now, ms[i].id);
    if i < |ms| - 1 {
      KnownAlivesListed(n, init, now, i);
    } else {
      KnownAlivesOther(n, init, now, last.id);
    }
  }

  /** What the responder says about `id`, in a response with its own message and the dead entry `first`. */
  function Told(b: Node, own: AliveMessage, first: Option<AliveMessage>, id: Id): Option<(bool, AliveMessage)>
  {
    if id == own.id then Some((true, own))
    else if id in b.alive && IndexOf(b.cacheAlive, id) >= 0 then Some((true, b.cacheAlive[IndexOf(b.cacheAlive, id)]))
    else if first.Some? && first.value.id == id then Some((false, first.value))
    else None
  }

  lemma OwnIsDistinct(b: Node, own: AliveMessage)
    requires Good(b) && own.id == b.self
    ensures DistinctSenders(b.cacheAlive + [own])
    ensures forall i :: 0 <= i < |b.cacheAlive| ==> b.cacheAlive[i].id in b.alive && b.cacheAlive[i].id != own.id
  {
    forall i | 0 <= i < |b.cacheAlive| ensures b.cacheAlive[i].id in b.alive && b.cacheAlive[i].id != own.id {
      assert b.cacheAlive[i].id in b.alive.Keys + b.dead.Keys;
    }
  }

  /** The alive part of a response: the responder itself and each of its alive peers are heard from, nobody else. */
  lemma KnownAlivePart(n: Node, b: Node, own: AliveMessage, now: int, id: Id)
    requires Good(n) && Good(b) && own.id == b.self && id != n.self
    ensures Known(HandleAlives(n, b.cacheAlive + [own], now), id) ==
            AfterTold(Known(n, id), Told(b, own, None, id), now)
  {
    var ms := b.cacheAlive + [own];
    OwnIsDistinct(b, own);
    if id == own.id {
      assert ms[|b.cacheAlive|] == own;
      KnownAlivesListed(n, ms, now, |b.cacheAlive|);
    } else if id in b.alive {
      assert Listed(b.cacheAlive, id);
      var i := IndexOf(b.cacheAlive, id);
      assert ms[i] == b.cacheAlive[i];
      KnownAlivesListed(n, ms, now, i);
    } else {
      forall i | 0 <= i < |ms| ensures ms[i].id != id { assert i < |b.cacheAlive| ==> ms[i] == b.cacheAlive[i]; }
      KnownAlivesOther(n, ms, now, id);
    }
  }

  /** The dead entry of a response is about a peer that is neither alive at the responder nor the responder. */
  lemma FirstIsDead(b: Node, known: set<Id>)
    requires Good(b)
    ensures var first := FirstUnknown(b.cacheDead, known);
            first.Some? ==> first.value.authentic && first.value.id !in b.alive && first.value.id != b.self
  {
    var first := FirstUnknown(b.cacheDead, known);
    if first.Some? {
      var i := FirstUnknownIsFirst(b.cacheDead, known);
      assert first.value.id in b.dead;
      assert first.value.id in b.alive.Keys + b.dead.Keys;
    }
  }

  /** A row after what was told about it. */
  function AfterTold(r: Option<Peer>, told: Option<(bool, AliveMessage)>, now: int): Option<Peer>
  {
    if told.None? then r
    else if told.value.0 then HearOne(r, told.value.1, now)
    else if r.None? then Some(Heard(told.value.1, now).(alive := false))
    else r
  }

  lemma KnownDeadPart(n: Node, r: Option<Peer>, b: Node, own: AliveMessage, m: AliveMessage, now: int, id: Id)
    requires Good(n) && id != n.self && Known(n, id) == AfterTold(r, Told(b, own, None, id), now)
    requires m.authentic && m.id !in b.alive && m.id != own.id
    ensures Known(HandleDeadEntry(n, m, now), id) == AfterTold(r, Told(b, own, Some(m), id), now)
  {
    KnownDeadEntry(n, m, now, id);
  }

  /**
   The exact effect of a response on the requester's table. The responder, by its own fresh message, and every peer
   alive at the responder are heard from; the first dead peer that was not listed as known becomes known as dead if it
   still is not known; nobody else's row changes.
   */
  lemma KnownResponse(n: Node, b: Node, own: AliveMessage, known: set<Id>, now: int, id: Id)
    requires Good(n) && Good(b) && own.id == b.self && id != n.self
    ensures Known(HandleResponse(n, Response(b, own, known), now), id) ==
            AfterTold(Known(n, id), Told(b, own, FirstUnknown(b.cacheDead, known), id), now)
  {
    var ms, first := b.cacheAlive + [own], FirstUnknown(b.cacheDead, known);
    var n1 := HandleAlives(n, ms, now);
    KnownAlivePart(n, b, own, now, id);
    if first.Some? {
      HandleAlivesKeeps(n, ms, now);
      FirstIsDead(b, known);
      KnownDeadPart(n1, Known(n, id), b, own, first.value, now, id);
    }
  }

  /** So the peer that answered is known afterwards, as alive unless it was known better, with the newer clock. */
  lemma ResponderGetsKnown(n: Node, b: Node, own: AliveMessage, known: set<Id>, now: int)
    requires Good(n) && Good(b) && own.id == b.self && own.authentic && own.id != n.self
    ensures var r := HandleResponse(n, Response(b, own, known), now);
            && own.id in r.members
            && Recorded(r, own.id) == Some(Newer(Recorded(n, own.id), own.time))
            && (News(Known(n, own.id), own) ==> Known(r, own.id) == Some(Heard(own, now)))
  {
    KnownResponse(n, b, own, known, now, own.id);
    assert own.id in n.members <==> own.id in n.alive.Keys + n.dead.Keys;
  }
}
