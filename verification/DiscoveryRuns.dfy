/**
 Interleavings of the membership protocol on one peer (gossip/discovery/discovery_impl.go). One goroutine
 handles messages, dropping and retaking the lock between reading the state and acting on it; two others expire
 members at any moment. Each step below is one lock region, and a run is any sequence of steps.
 */
module DiscoveryRuns {
  import opened GossipClock
  import opened DiscoveryNode
  import opened Options

  datatype GossipMessage =
    | AliveMsg(alive: AliveMessage)
    | MemReq(selfInformation: AliveMessage, known: set<Id>)
    | MemRes(alives: seq<AliveMessage>, deads: seq<AliveMessage>)
    | OtherMsg

  /** A message the handler still has to go through, as an alive message or as a dead entry of a response. */
  datatype Task = HandleAlive(msg: AliveMessage) | HandleDead(msg: AliveMessage)

  datatype PanicReason = NeitherAliveNorDead | BothAliveAndDead | NilMember

  /** What the message goroutine carries from one lock region to the next: values it read, possibly stale by now. */
  datatype Pc =
    | Ready
    | ReadKnown(m: AliveMessage, known: bool)
    | ReadStamps(m: AliveMessage, lastAlive: Option<Timestamp>, lastDead: Option<Timestamp>)
    | Reread(m: AliveMessage, lastAlive: Option<Timestamp>)
    | ReadDeadKnown(m: AliveMessage, known: bool)
    | Panicked(reason: PanicReason)

  datatype Host = Host(node: Node, todo: seq<Task>, pc: Pc)

  datatype Event =
    | Deliver(message: GossipMessage)
    | HandlerStep(now: int)
    | ExpireStep(ids: seq<Id>)

  function Lookup(stamps: map<Id, Timestamp>, id: Id): Option<Timestamp>
  {
    if id in stamps then Some(stamps[id]) else None
  }

  /** handleMsgFromComm: the messages a gossip message makes the handler go through, in order. */
  function Tasks(message: GossipMessage): seq<Task>
  {
    match message
    case AliveMsg(m) => [HandleAlive(m)]
    case MemReq(m, _) => [HandleAlive(m)]
    case MemRes(alives, deads) =>
      seq(|alives|, i requires 0 <= i < |alives| => HandleAlive(alives[i])) +
      seq(|deads|, i requires 0 <= i < |deads| => HandleDead(deads[i]))
    case OtherMsg => []
  }

  /** The first region for the next message: drop it, or read whether its sender is known. */
  function Begin(h: Host): Host
    requires |h.todo| > 0
  {
    var rest := h.(todo := h.todo[1..]);
    match h.todo[0]
    case HandleAlive(m) =>
      if !m.authentic || m.id == h.node.self then rest
      else rest.(pc := ReadKnown(m, m.id in h.node.members))
    case HandleDead(m) =>
      if !m.authentic then rest
      else rest.(pc := ReadDeadKnown(m, m.id in h.node.members))
  }

  /** After the two clock maps were read: panic, resurrect, ignore, or go back for the alive clock. */
  function OnStamps(h: Host, m: AliveMessage, lastAlive: Option<Timestamp>, lastDead: Option<Timestamp>, now: int): Host
  {
    if lastAlive.None? && lastDead.None? then h.(pc := Panicked(NeitherAliveNorDead))
    else if lastAlive.Some? && lastDead.Some? then h.(pc := Panicked(BothAliveAndDead))
    else if lastDead.Some? then
      if Before(lastDead.value, m.time) then h.(node := Resurrect(h.node, m, now), pc := Ready)
      else h.(pc := Ready)
    else h.(pc := Reread(m, Lookup(h.node.alive, m.id)))
  }

  function OnReread(h: Host, m: AliveMessage, lastAlive: Option<Timestamp>, now: int): Host
  {
    if lastAlive.None? || !Before(lastAlive.value, m.time) then h.(pc := Ready)
    else if m.id !in h.node.members then h.(pc := Panicked(NilMember))
    else h.(node := LearnExisting(h.node, m, now), pc := Ready)
  }

  function Handler(h: Host, now: int): Host
  {
    match h.pc
    case Ready => if |h.todo| == 0 then h else Begin(h)
    case ReadKnown(m, known) =>
      if !known then h.(node := LearnNew(h.node, [m], [], now), pc := Ready)
      else h.(pc := ReadStamps(m, Lookup(h.node.alive, m.id), Lookup(h.node.dead, m.id)))
    case ReadStamps(m, lastAlive, lastDead) => OnStamps(h, m, lastAlive, lastDead, now)
    case Reread(m, lastAlive) => OnReread(h, m, lastAlive, now)
    case ReadDeadKnown(m, known) =>
      h.(node := LearnNew(h.node, [], if known then [] else [m], now), pc := Ready)
    case Panicked(_) => h
  }

  function Next(h: Host, e: Event): Host
  {
    match e
    case Deliver(message) => h.(todo := h.todo + Tasks(message))
    case HandlerStep(now) => Handler(h, now)
    case ExpireStep(ids) => h.(node := Expire(h.node, ids))
  }

  function Run(h: Host, events: seq<Event>): Host
  {
    if |events| == 0 then h else Next(Run(h, events[..|events| - 1]), events[|events| - 1])
  }

  function Start(self: Id): Host { Host(Empty(self), [], Ready) }

  // ---------------------------------------------------------------- invariant

  /** The clock `t` the handler read for a peer is still what one of the two maps records for it. */
  ghost predicate StillRecorded(n: Node, id: Id, t: Timestamp)
  {
    (id in n.alive && n.alive[id] == t) || (id in n.dead && n.dead[id] == t)
  }

  /** What stays true of the values the handler carries, whatever expires in between. */
  ghost predicate PcOk(n: Node, pc: Pc)
  {
    match pc
    case Ready => true
    case ReadKnown(m, known) => m.authentic && m.id != n.self && (known <==> m.id in n.members)
    case ReadStamps(m, a, d) =>
      && m.authentic && m.id != n.self && m.id in n.members
      && (a.Some? <==> d.None?)
      && (a.Some? ==> StillRecorded(n, m.id, a.value))
      && (d.Some? ==> m.id in n.dead && n.dead[m.id] == d.value)
    case Reread(m, a) =>
      && m.authentic && m.id != n.self && m.id in n.members
      && (a.Some? ==> StillRecorded(n, m.id, a.value))
    case ReadDeadKnown(m, known) => m.authentic && (known <==> m.id in n.members)
    case Panicked(_) => false
  }

  ghost predicate Inv(h: Host) { Good(h.node) && PcOk(h.node, h.pc) }

  lemma ReadStampsOk(n: Node, m: AliveMessage)
    requires Good(n) && m.authentic && m.id in n.members && m.id != n.self
    ensures PcOk(n, ReadStamps(m, Lookup(n.alive, m.id), Lookup(n.dead, m.id)))
  {}

  lemma KnownKeepsInv(h: Host, now: int)
    requires Inv(h) && h.pc.ReadKnown?
    ensures Inv(Handler(h, now))
  {
    if h.pc.known { ReadStampsOk(h.node, h.pc.m); } else { LearnNewAliveKeepsGood(h.node, h.pc.m, now); }
  }

  lemma StampsKeepInv(h: Host, now: int)
    requires Inv(h) && h.pc.ReadStamps?
    ensures Inv(Handler(h, now))
  {
    if h.pc.lastDead.Some? { ResurrectKeepsGood(h.node, h.pc.m, now); }
  }

  lemma RereadKeepsInv(h: Host, now: int)
    requires Inv(h) && h.pc.Reread?
    ensures Inv(Handler(h, now))
  {
    LearnExistingKeepsGood(h.node, h.pc.m, now);
  }

  lemma DeadKnownKeepsInv(h: Host, now: int)
    requires Inv(h) && h.pc.ReadDeadKnown?
    ensures Inv(Handler(h, now))
  {
    LearnNewDeadOne(h.node, h.pc.m, now);
    if !h.pc.known { LearnNewDeadKeepsGood(h.node, h.pc.m, now); }
  }

  lemma HandlerKeepsInv(h: Host, now: int)
    requires Inv(h)
    ensures Inv(Handler(h, now))
  {
    match h.pc
    case Ready =>
    case ReadKnown(_, _) => KnownKeepsInv(h, now);
    case ReadStamps(_, _, _) => StampsKeepInv(h, now);
    case Reread(_, _) => RereadKeepsInv(h, now);
    case ReadDeadKnown(_, _) => DeadKnownKeepsInv(h, now);
  }

  lemma ExpireKeepsInv(h: Host, ids: seq<Id>)
    requires Inv(h)
    ensures Inv(h.(node := Expire(h.node, ids)))
  {
    ExpireKeeps(h.node, ids);
  }

  lemma NextKeepsInv(h: Host, e: Event)
    requires Inv(h)
    ensures Inv(Next(h, e))
  {
    match e
    case Deliver(_) =>
    case HandlerStep(now) => HandlerKeepsInv(h, now);
    case ExpireStep(ids) => ExpireKeepsInv(h, ids);
  }

  lemma {:induction false} RunKeepsInv(h: Host, events: seq<Event>)
    requires Inv(h)
    ensures Inv(Run(h, events))
  {
    if |events| > 0 {
      RunKeepsInv(h, events[..|events| - 1]);
      NextKeepsInv(Run(h, events[..|events| - 1]), events[|events| - 1]);
    }
  }

  lemma StartInv(self: Id)
    ensures Inv(Start(self))
  {}

  /**
   In every interleaving of the handler's lock regions with deliveries and expiries, neither panic and no
   missing member is ever reached, and alive and dead peers partition the known members other than this peer.
   */
  lemma NeverPanics(self: Id, events: seq<Event>)
    ensures !Run(Start(self), events).pc.Panicked?
    ensures Partitioned(Run(Start(self), events).node)
  {
    StartInv(self);
    RunKeepsInv(Start(self), events);
  }

  /** In the same runs the cached lists agree with the clock maps: same peers, each once, same clocks. */
  lemma CachesAgree(self: Id, events: seq<Event>)
    ensures var n := Run(Start(self), events).node;
            Agrees(n.cacheAlive, n.alive) && Agrees(n.cacheDead, n.dead)
  {
    StartInv(self);
    RunKeepsInv(Start(self), events);
  }

  // ---------------------------------------------------------------- clocks only move forward

  /** From `n` to `o` no recorded clock goes back, and a dead peer is alive only on a strictly newer clock. */
  ghost predicate Advances(n: Node, o: Node)
  {
    && o.self == n.self && n.members.Keys <= o.members.Keys
    && (forall id :: Recorded(n, id).Some? ==>
          Recorded(o, id).Some? && AtMost(Recorded(n, id).value, Recorded(o, id).value))
    && (forall id :: id in n.dead && id in o.alive ==> Less(Clock(n.dead[id]), Clock(o.alive[id])))
  }

  lemma LearnNewAdvances(n: Node, m: AliveMessage, now: int)
    requires Good(n) && m.id !in n.members
    ensures Advances(n, LearnNew(n, [m], [], now)) && Advances(n, LearnNew(n, [], [m], now))
  {
    LearnNewAliveOne(n, m, now);
    LearnNewDeadOne(n, m, now);
    assert m.id !in n.alive && m.id !in n.dead;
  }

  lemma ResurrectAdvances(n: Node, m: AliveMessage, now: int)
    requires Good(n) && m.id in n.dead && Before(n.dead[m.id], m.time)
    ensures Advances(n, Resurrect(n, m, now))
  {}

  lemma LearnExistingAdvances(n: Node, m: AliveMessage, now: int, t: Timestamp)
    requires Good(n) && m.id in n.members && StillRecorded(n, m.id, t) && Before(t, m.time)
    ensures Advances(n, LearnExisting(n, m, now))
  {}

  lemma HandlerAdvances(h: Host, now: int)
    requires Inv(h)
    ensures Advances(h.node, Handler(h, now).node)
  {
    match h.pc
    case Ready =>
    case ReadKnown(m, known) => if !known { LearnNewAdvances(h.node, m, now); }
    case ReadStamps(m, a, d) => if d.Some? && Before(d.value, m.time) { ResurrectAdvances(h.node, m, now); }
    case Reread(m, a) => if a.Some? && Before(a.value, m.time) { LearnExistingAdvances(h.node, m, now, a.value); }
    case ReadDeadKnown(m, known) =>
      LearnNewDeadOne(h.node, m, now);
      if !known { LearnNewAdvances(h.node, m, now); }
  }

  lemma NextAdvances(h: Host, e: Event)
    requires Inv(h)
    ensures Advances(h.node, Next(h, e).node)
  {
    match e
    case Deliver(_) =>
    case HandlerStep(now) => HandlerAdvances(h, now);
    case ExpireStep(ids) => ExpireKeeps(h.node, ids);
  }

  /** Over every interleaved run a peer's recorded clock never decreases and never disappears. */
  lemma {:induction false} ClocksNeverGoBack(h: Host, events: seq<Event>, id: Id)
    requires Inv(h) && Recorded(h.node, id).Some?
    ensures Recorded(Run(h, events).node, id).Some?
    ensures AtMost(Recorded(h.node, id).value, Recorded(Run(h, events).node, id).value)
  {
    if |events| > 0 {
      var before := Run(h, events[..|events| - 1]);
      RunKeepsInv(h, events[..|events| - 1]);
      ClocksNeverGoBack(h, events[..|events| - 1], id);
      NextAdvances(before, events[|events| - 1]);
    }
  }

  /** A dead peer becomes alive in one step only on a message strictly newer than its record. */
  lemma ResurrectedOnlyByNewer(self: Id, events: seq<Event>, e: Event, id: Id)
    requires id in Run(Start(self), events).node.dead
    requires id in Next(Run(Start(self), events), e).node.alive
    ensures Less(Clock(Run(Start(self), events).node.dead[id]), Clock(Next(Run(Start(self), events), e).node.alive[id]))
  {
    StartInv(self);
    RunKeepsInv(Start(self), events);
    NextAdvances(Run(Start(self), events), e);
  }

  /** The message being handled, if any. */
  function Current(h: Host): Option<AliveMessage>
  {
    match h.pc
    case ReadKnown(m, _) => Some(m)
    case ReadStamps(m, _, _) => Some(m)
    case Reread(m, _) => Some(m)
    case ReadDeadKnown(m, _) => Some(m)
    case _ => None
  }

  /** Redelivery is idempotent: no handler step for a message not newer than its sender's record changes anything. */
  lemma OldMessageIsInert(self: Id, events: seq<Event>, now: int)
    requires var h := Run(Start(self), events);
             && Current(h).Some? && Recorded(h.node, Current(h).value.id).Some?
             && AtMost(Current(h).value.time, Recorded(h.node, Current(h).value.id).value)
    ensures Handler(Run(Start(self), events), now).node == Run(Start(self), events).node
  {
    StartInv(self);
    RunKeepsInv(Start(self), events);
    var h := Run(Start(self), events);
    LearnNewDeadOne(h.node, Current(h).value, now);
  }

  // ---------------------------------------------------------------- one message, with and without interference

  /** handleAliveMessage when nothing runs in between. */
  function HandleAtomically(n: Node, m: AliveMessage, now: int): Node
  {
    if !m.authentic || m.id == n.self then n
    else if m.id !in n.members then LearnNew(n, [m], [], now)
    else if m.id in n.dead then (if Before(n.dead[m.id], m.time) then Resurrect(n, m, now) else n)
    else if m.id in n.alive && Before(n.alive[m.id], m.time) then LearnExisting(n, m, now)
    else n
  }

  /** The handler's four regions for one alive message, with an arbitrary expiry in each of the three gaps. */
  function Interleaved(n: Node, m: AliveMessage, now: int, gap1: seq<Id>, gap2: seq<Id>, gap3: seq<Id>): Host
  {
    var h1 := Handler(Host(n, [HandleAlive(m)], Ready), now);
    var h2 := Handler(Next(h1, ExpireStep(gap1)), now);
    var h3 := Handler(Next(h2, ExpireStep(gap2)), now);
    Handler(Next(h3, ExpireStep(gap3)), now)
  }

  /** Without interference the four regions do exactly what the atomic description says. */
  lemma RegionsRefineAtomic(n: Node, m: AliveMessage, now: int)
    requires Good(n)
    ensures Interleaved(n, m, now, [], [], []) == Host(HandleAtomically(n, m, now), [], Ready)
  {}

  /** The newer of what is recorded and what arrives. */
  function Newer(r: Option<PeerTime>, p: PeerTime): PeerTime
  {
    if r.Some? && !Less(r.value, p) then r.value else p
  }

  /**
   An update is lost exactly when the sender is alive when its clocks are read, the message is newer than the
   record, and the sender expires before the message is written. The guard is over the state and the expiries,
   and the record is the newer of the two clocks in every other case.
   */
  predicate UpdateRaces(n: Node, m: AliveMessage, gap1: seq<Id>, gap2: seq<Id>, gap3: seq<Id>)
  {
    && m.id in n.alive && Before(n.alive[m.id], m.time)
    && m.id !in gap1 && (m.id in gap2 || m.id in gap3)
  }

  /** The last two regions, from what the second one read, with the two expiries around them. */
  function Finish(n: Node, m: AliveMessage, now: int, gap2: seq<Id>, gap3: seq<Id>): Host
  {
    var h2 := Host(n, [], ReadStamps(m, Lookup(n.alive, m.id), Lookup(n.dead, m.id)));
    Handler(Next(Handler(Next(h2, ExpireStep(gap2)), now), ExpireStep(gap3)), now)
  }

  lemma FirstTwoRegions(n: Node, m: AliveMessage, now: int, gap1: seq<Id>, gap2: seq<Id>, gap3: seq<Id>)
    requires Good(n) && m.authentic && m.id != n.self && m.id in n.members
    ensures Interleaved(n, m, now, gap1, gap2, gap3) == Finish(Expire(n, gap1), m, now, gap2, gap3)
  {}

  lemma FinishDeadShape(n: Node, m: AliveMessage, now: int, gap2: seq<Id>, gap3: seq<Id>)
    requires m.id in n.dead && m.id !in n.alive
    ensures var n2 := Expire(n, gap2);
            Finish(n, m, now, gap2, gap3) ==
            Host(Expire(if Before(n.dead[m.id], m.time) then Resurrect(n2, m, now) else n2, gap3), [], Ready)
  {}

  lemma FinishDead(n: Node, m: AliveMessage, now: int, gap2: seq<Id>, gap3: seq<Id>)
    requires Good(n) && m.authentic && m.id in n.dead
    ensures Recorded(Finish(n, m, now, gap2, gap3).node, m.id) == Some(Newer(Recorded(n, m.id), m.time))
  {
    FinishDeadShape(n, m, now, gap2, gap3);
    ExpireKeeps(n, gap2);
    var n2 := Expire(n, gap2);
    ResurrectKeepsGood(n2, m, now);
    ExpireKeepsRecords(if Before(n.dead[m.id], m.time) then Resurrect(n2, m, now) else n2, gap3, m.id);
  }

  lemma FinishAliveShape(n: Node, m: AliveMessage, now: int, gap2: seq<Id>, gap3: seq<Id>)
    requires m.id in n.alive && m.id !in n.dead
    ensures var n2 := Expire(n, gap2);
            var lastAlive := Lookup(n2.alive, m.id);
            Finish(n, m, now, gap2, gap3) ==
            OnReread(Host(Expire(n2, gap3), [], Reread(m, lastAlive)), m, lastAlive, now)
  {}

  lemma RereadRecords(n: Node, m: AliveMessage, now: int, gap3: seq<Id>)
    requires Good(n) && m.authentic && m.id in n.members && Recorded(n, m.id).Some?
    ensures var lastAlive := Lookup(n.alive, m.id);
            Recorded(OnReread(Host(Expire(n, gap3), [], Reread(m, lastAlive)), m, lastAlive, now).node, m.id) ==
            if m.id !in n.alive || m.id in gap3 then Recorded(n, m.id) else Some(Newer(Recorded(n, m.id), m.time))
  {
    ExpireKeeps(n, gap3);
  }

  lemma FinishAlive(n: Node, m: AliveMessage, now: int, gap2: seq<Id>, gap3: seq<Id>)
    requires Good(n) && m.authentic && m.id in n.alive && m.id in n.members
    ensures Recorded(Finish(n, m, now, gap2, gap3).node, m.id) ==
      if m.id in gap2 || m.id in gap3 then Recorded(n, m.id) else Some(Newer(Recorded(n, m.id), m.time))
  {
    FinishAliveShape(n, m, now, gap2, gap3);
    ExpireKeeps(n, gap2);
    RereadRecords(Expire(n, gap2), m, now, gap3);
  }

  lemma UnknownShape(n: Node, m: AliveMessage, now: int, gap1: seq<Id>, gap2: seq<Id>, gap3: seq<Id>)
    requires Good(n) && m.authentic && m.id != n.self && m.id !in n.members
    ensures Interleaved(n, m, now, gap1, gap2, gap3) ==
            Host(Expire(Expire(LearnNew(Expire(n, gap1), [m], [], now), gap2), gap3), [], Ready)
  {
    assert [HandleAlive(m)][1..] == [];
  }

  lemma UnknownIsRecorded(n: Node, m: AliveMessage, now: int, gap1: seq<Id>, gap2: seq<Id>, gap3: seq<Id>)
    requires Good(n) && m.authentic && m.id != n.self && m.id !in n.members
    ensures Recorded(Interleaved(n, m, now, gap1, gap2, gap3).node, m.id) == Some(m.time)
  {
    UnknownShape(n, m, now, gap1, gap2, gap3);
    ExpireKeeps(n, gap1);
    var n1 := Expire(n, gap1);
    LearnNewAliveKeepsGood(n1, m, now);
    LearnNewAliveOne(n1, m, now);
    var n2 := LearnNew(n1, [m], [], now);
    ExpireKeeps(n2, gap2);
    ExpireKeepsRecords(n2, gap2, m.id);
    ExpireKeepsRecords(Expire(n2, gap2), gap3, m.id);
  }

  lemma KnownLostExactly(n: Node, m: AliveMessage, now: int, gap1: seq<Id>, gap2: seq<Id>, gap3: seq<Id>)
    requires Good(n) && m.authentic && m.id != n.self && m.id in n.members
    ensures (Recorded(Interleaved(n, m, now, gap1, gap2, gap3).node, m.id) == Some(Newer(Recorded(n, m.id), m.time)))
            <==> !UpdateRaces(n, m, gap1, gap2, gap3)
  {
    assert m.id in n.alive.Keys + n.dead.Keys;
    FirstTwoRegions(n, m, now, gap1, gap2, gap3);
    ExpireKeeps(n, gap1);
    if m.id in n.alive && m.id !in gap1 {
      FinishAlive(Expire(n, gap1), m, now, gap2, gap3);
    } else {
      FinishDead(Expire(n, gap1), m, now, gap2, gap3);
    }
  }

  /** A message is lost in handling if and only if the race above happens. */
  lemma LostExactlyInRace(n: Node, m: AliveMessage, now: int, gap1: seq<Id>, gap2: seq<Id>, gap3: seq<Id>)
    requires Good(n) && m.authentic && m.id != n.self
    ensures (Recorded(Interleaved(n, m, now, gap1, gap2, gap3).node, m.id) == Some(Newer(Recorded(n, m.id), m.time)))
            <==> !UpdateRaces(n, m, gap1, gap2, gap3)
  {
    if m.id in n.members {
      KnownLostExactly(n, m, now, gap1, gap2, gap3);
    } else {
      assert m.id !in n.alive.Keys + n.dead.Keys;
      UnknownIsRecorded(n, m, now, gap1, gap2, gap3);
    }
  }

  /**
   Redelivery as a whole: handling a message that is not newer than its sender's record, that is not authentic or
   that is this peer's own ends, whatever expires in between, in exactly what those expiries alone give.
   */
  lemma RedeliveryIsInert(n: Node, m: AliveMessage, now: int, gap1: seq<Id>, gap2: seq<Id>, gap3: seq<Id>)
    requires Good(n)
    requires m.authentic && m.id != n.self ==>
      Recorded(n, m.id).Some? && AtMost(m.time, Recorded(n, m.id).value)
    ensures Interleaved(n, m, now, gap1, gap2, gap3) == Host(Expire(Expire(Expire(n, gap1), gap2), gap3), [], Ready)
  {
    assert [HandleAlive(m)][1..] == [];
    if m.authentic && m.id != n.self {
      assert m.id in n.alive.Keys + n.dead.Keys;
      FirstTwoRegions(n, m, now, gap1, gap2, gap3);
      ExpireKeeps(n, gap1);
      ExpireKeepsRecords(n, gap1, m.id);
      OldIsDropped(Expire(n, gap1), m, now, gap2, gap3);
    }
  }

  lemma OldIsDropped(n: Node, m: AliveMessage, now: int, gap2: seq<Id>, gap3: seq<Id>)
    requires Good(n) && Recorded(n, m.id).Some? && AtMost(m.time, Recorded(n, m.id).value)
    ensures Finish(n, m, now, gap2, gap3) == Host(Expire(Expire(n, gap2), gap3), [], Ready)
  {
    ExpireKeepsRecords(n, gap2, m.id);
    if m.id in n.alive {
      FinishAliveShape(n, m, now, gap2, gap3);
    } else {
      FinishDeadShape(n, m, now, gap2, gap3);
    }
  }

  /** A run of the race: a peer known alive at clock (1, 1) sends (1, 2), expires mid-handling, and stays at (1, 1). */
  lemma LostUpdateExample(self: Id, peer: Id, info: Info)
    requires peer != self
    ensures var first := AliveMessage(peer, info, PeerTime(1, 1), true);
            var second := AliveMessage(peer, info, PeerTime(1, 2), true);
            var n := LearnNew(Empty(self), [first], [], 0);
            && Good(n) && Less(first.time, second.time)
            && Recorded(Interleaved(n, second, 1, [], [peer], []).node, peer) == Some(first.time)
  {
    var first := AliveMessage(peer, info, PeerTime(1, 1), true);
    var second := AliveMessage(peer, info, PeerTime(1, 2), true);
    LearnNewAliveKeepsGood(Empty(self), first, 0);
    LearnNewAliveOne(Empty(self), first, 0);
    var n := LearnNew(Empty(self), [first], [], 0);
    FirstTwoRegions(n, second, 1, [], [peer], []);
    FinishAlive(n, second, 1, [peer], []);
  }
}
