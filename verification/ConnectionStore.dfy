/**
 The connection store (gossip/comm/conn.go): getConnection checks the map, creates a connection outside the
 store's lock, and checks again before storing it, while incoming connections and closings change the map. Each
 step below is one lock region or one blocking call; any number of calls interleave. Peer ids are known when a
 connection is asked for, and the store is not shutting down.
 */
module ConnectionStore {
  import opened Options

  type Pki(==, !new)

  datatype Conn = Conn(pki: Pki, stopped: bool)

  /** Where a getConnection call is. `lock` is the destination lock object it found or made. */
  datatype Pc =
    | Waiting(pki: Pki, lock: nat)                         // blocked on the destination lock
    | Checking(pki: Pki, lock: nat)                        // holds it, about to look for a connection
    | Found(pki: Pki, lock: nat, found: nat)               // found one, about to unlock and return it
    | Creating(pki: Pki, lock: nat)                        // found none, in createConnection
    | Created(pki: Pki, lock: nat, made: Option<nat>)      // created one or failed, about to unlock
    | Storing(pki: Pki, made: Option<nat>)                 // unlocked, before the second check
    | Returned(pki: Pki, conn: Option<nat>)

  datatype Store = Store(
    conns: map<nat, Conn>, nextConn: nat, pki2Conn: map<Pki, nat>,
    destinationLocks: map<Pki, nat>, nextLock: nat, calls: map<nat, Pc>)

  datatype Step =
    | Call(tid: nat, pki: Pki)
    | LockDestination(tid: nat)
    | Check(tid: nat)
    | Create(tid: nat, ok: bool)
    | UnlockDestination(tid: nat)
    | Commit(tid: nat)
    | Leave(tid: nat)
    | OnConnected(from: Pki)
    | CloseConn(peer: Pki)
    | CloseByPKIid(peer: Pki)

  predicate HoldsLock(pc: Pc) { pc.Checking? || pc.Found? || pc.Creating? || pc.Created? }

  predicate UsesLock(pc: Pc) { pc.Waiting? || HoldsLock(pc) }

  /** The connection a call has created and not yet stored or closed. */
  function InFlight(pc: Pc): Option<nat>
  {
    if pc.Created? || pc.Storing? then pc.made else None
  }

  predicate LockFree(s: Store, lock: nat)
  {
    forall t :: t in s.calls ==> !(HoldsLock(s.calls[t]) && s.calls[t].lock == lock)
  }

  function CloseIn(conns: map<nat, Conn>, c: nat): map<nat, Conn>
    requires c in conns
  {
    conns[c := conns[c].(stopped := true)]
  }

  ghost predicate MapOk(s: Store)
  {
    forall p :: p in s.pki2Conn ==> s.pki2Conn[p] in s.conns
  }

  /** The last region of getConnection: drop the destination lock, and keep the connection that is there. */
  function Store2(s: Store, t: nat): Store
    requires MapOk(s) && t in s.calls && s.calls[t].Storing?
    requires s.calls[t].made.Some? ==> s.calls[t].made.value in s.conns
  {
    var Storing(pki, made) := s.calls[t];
    var s1 := s.(destinationLocks := s.destinationLocks - {pki});
    if pki in s.pki2Conn then
      s1.(conns := if made.Some? then CloseIn(s.conns, made.value) else s.conns,
          calls := s.calls[t := Returned(pki, Some(s.pki2Conn[pki]))])
    else if made.None? then s1.(calls := s.calls[t := Returned(pki, None)])
    else s1.(pki2Conn := s.pki2Conn[s.conns[made.value].pki := made.value], calls := s.calls[t := Returned(pki, made)])
  }

  /** onConnected with registerConn: an existing connection of the peer is closed and replaced. */
  function Accept(s: Store, pki: Pki): Store
    requires MapOk(s)
  {
    var conns := if pki in s.pki2Conn then CloseIn(s.conns, s.pki2Conn[pki]) else s.conns;
    s.(conns := conns[s.nextConn := Conn(pki, false)], nextConn := s.nextConn + 1,
       pki2Conn := s.pki2Conn[pki := s.nextConn])
  }

  /** closeConn deletes under the connection's own id, closeByPKIid under the id it was given. */
  function Close(s: Store, pki: Pki, byConn: bool): Store
    requires MapOk(s)
  {
    if pki !in s.pki2Conn then s
    else
      var c := s.pki2Conn[pki];
      s.(conns := CloseIn(s.conns, c), pki2Conn := s.pki2Conn - {if byConn then s.conns[c].pki else pki})
  }

  /** Every connection the map or a call refers to exists. */
  ghost predicate PointersOk(s: Store)
  {
    MapOk(s) && forall t :: t in s.calls && InFlight(s.calls[t]).Some? ==> InFlight(s.calls[t]).value in s.conns
  }

  function NextCall(s: Store, t: nat, step: Step): Store
    requires PointersOk(s) && t in s.calls
  {
    var pc := s.calls[t];
    match step
    case LockDestination(_) =>
      if pc.Waiting? && LockFree(s, pc.lock) then s.(calls := s.calls[t := Checking(pc.pki, pc.lock)]) else s
    case Check(_) =>
      if !pc.Checking? then s
      else if pc.pki in s.pki2Conn then s.(calls := s.calls[t := Found(pc.pki, pc.lock, s.pki2Conn[pc.pki])])
      else s.(calls := s.calls[t := Creating(pc.pki, pc.lock)])
    case Create(_, ok) =>
      if !pc.Creating? then s
      else if ok then
        s.(conns := s.conns[s.nextConn := Conn(pc.pki, false)], nextConn := s.nextConn + 1,
           calls := s.calls[t := Created(pc.pki, pc.lock, Some(s.nextConn))])
      else s.(calls := s.calls[t := Created(pc.pki, pc.lock, None)])
    case UnlockDestination(_) =>
      if pc.Found? then s.(calls := s.calls[t := Returned(pc.pki, Some(pc.found))])
      else if pc.Created? then s.(calls := s.calls[t := Storing(pc.pki, pc.made)])
      else s
    case Commit(_) => if pc.Storing? then Store2(s, t) else s
    case Leave(_) => if pc.Returned? then s.(calls := s.calls - {t}) else s
    case _ => s
  }

  /** The region that finds or makes the destination lock. */
  function Begin(s: Store, t: nat, pki: Pki): Store
  {
    if t in s.calls then s
    else if pki in s.destinationLocks then s.(calls := s.calls[t := Waiting(pki, s.destinationLocks[pki])])
    else s.(destinationLocks := s.destinationLocks[pki := s.nextLock], nextLock := s.nextLock + 1,
            calls := s.calls[t := Waiting(pki, s.nextLock)])
  }

  function Next(s: Store, step: Step): Store
    requires PointersOk(s)
  {
    match step
    case Call(t, pki) => Begin(s, t, pki)
    case OnConnected(pki) => Accept(s, pki)
    case CloseConn(pki) => Close(s, pki, true)
    case CloseByPKIid(pki) => Close(s, pki, false)
    case _ => if step.tid in s.calls then NextCall(s, step.tid, step) else s
  }

  // ---------------------------------------------------------------- invariant

  /** A connection is in the map, under its own id. */
  predicate Stored(s: Store, c: nat)
    requires c in s.conns
  {
    s.conns[c].pki in s.pki2Conn && s.pki2Conn[s.conns[c].pki] == c
  }

  ghost predicate Flying(s: Store, c: nat)
  {
    exists t :: t in s.calls && InFlight(s.calls[t]) == Some(c)
  }

  /** Each entry is keyed by its connection's id, and that connection is not stopped. */
  ghost predicate EntriesLive(s: Store)
  {
    forall p :: p in s.pki2Conn ==>
      s.pki2Conn[p] in s.conns && s.conns[s.pki2Conn[p]].pki == p && !s.conns[s.pki2Conn[p]].stopped
  }

  /** A connection in flight belongs to one call, is for that call's peer, is not stopped and not in the map. */
  ghost predicate FlightsOk(s: Store)
  {
    && (forall t :: t in s.calls && InFlight(s.calls[t]).Some? ==>
          var c := InFlight(s.calls[t]).value;
          c in s.conns && s.conns[c] == Conn(s.calls[t].pki, false)
          && !Stored(s, c))
    && (forall t, u :: t in s.calls && u in s.calls && InFlight(s.calls[t]).Some? && t != u
          ==> InFlight(s.calls[t]) != InFlight(s.calls[u]))
  }

  /** Every connection ever created is stored, in flight, or stopped. */
  ghost predicate NoneAbandoned(s: Store)
  {
    forall c :: c in s.conns ==>
      c < s.nextConn && (s.conns[c].stopped || Flying(s, c) || Stored(s, c))
  }

  /** A call returns a connection to the peer it asked for. */
  ghost predicate ResultsOk(s: Store)
  {
    forall t :: t in s.calls ==>
      && (s.calls[t].Returned? && s.calls[t].conn.Some? ==>
            s.calls[t].conn.value in s.conns && s.conns[s.calls[t].conn.value].pki == s.calls[t].pki)
      && (s.calls[t].Found? ==> s.calls[t].found in s.conns && s.conns[s.calls[t].found].pki == s.calls[t].pki)
  }

  /** A destination lock is held by one call at a time, and lock objects are used for one peer only. */
  ghost predicate LocksOk(s: Store)
  {
    && (forall t, u :: t in s.calls && u in s.calls && HoldsLock(s.calls[t]) && HoldsLock(s.calls[u]) && t != u
          ==> s.calls[t].lock != s.calls[u].lock)
    && (forall t :: t in s.calls && UsesLock(s.calls[t]) ==> s.calls[t].lock < s.nextLock)
    && (forall p :: p in s.destinationLocks ==> s.destinationLocks[p] < s.nextLock)
  }

  ghost predicate Inv(s: Store)
  {
    EntriesLive(s) && FlightsOk(s) && NoneAbandoned(s) && ResultsOk(s) && LocksOk(s)
  }

  const Start := Store(map[], 0, map[], map[], 0, map[])

  // ---------------------------------------------------------------- each step keeps it

  ghost predicate ConnsOk(s: Store) { EntriesLive(s) && FlightsOk(s) && NoneAbandoned(s) }

  lemma StillFlying(s: Store, n: Store, c: nat, t: nat)
    requires Flying(s, c) && t in s.calls && InFlight(s.calls[t]) != Some(c)
    requires forall u :: u in s.calls && u != t ==> u in n.calls && n.calls[u] == s.calls[u]
    ensures Flying(n, c)
  {}

  /** Moving one call to a place where the same connection, if any, is in flight. */
  lemma MoveKeepsConns(s: Store, t: nat, pc: Pc)
    requires ConnsOk(s)
    requires t in s.calls ==> InFlight(s.calls[t]) == InFlight(pc) && s.calls[t].pki == pc.pki
    requires t !in s.calls ==> InFlight(pc).None?
    ensures ConnsOk(s.(calls := s.calls[t := pc]))
  {
    var n := s.(calls := s.calls[t := pc]);
    forall c | c in s.conns && Flying(s, c) ensures Flying(n, c) {
      var u :| u in s.calls && InFlight(s.calls[u]) == Some(c);
      assert u in n.calls && InFlight(n.calls[u]) == Some(c);
    }
  }

  /** What a place must satisfy, given the connections and locks, for a call to move there. */
  ghost predicate PlaceOk(s: Store, t: nat, pc: Pc)
  {
    && (pc.Returned? && pc.conn.Some? ==> pc.conn.value in s.conns && s.conns[pc.conn.value].pki == pc.pki)
    && (pc.Found? ==> pc.found in s.conns && s.conns[pc.found].pki == pc.pki)
    && (UsesLock(pc) ==> pc.lock < s.nextLock)
    && (HoldsLock(pc) ==>
          LockFree(s, pc.lock) || (t in s.calls && HoldsLock(s.calls[t]) && s.calls[t].lock == pc.lock))
  }

  lemma MoveKeepsLocks(s: Store, t: nat, pc: Pc)
    requires ResultsOk(s) && LocksOk(s) && PlaceOk(s, t, pc)
    ensures ResultsOk(s.(calls := s.calls[t := pc])) && LocksOk(s.(calls := s.calls[t := pc]))
  {}

  lemma MoveKeepsInv(s: Store, t: nat, pc: Pc)
    requires Inv(s) && PlaceOk(s, t, pc)
    requires t in s.calls ==> InFlight(s.calls[t]) == InFlight(pc) && s.calls[t].pki == pc.pki
    requires t !in s.calls ==> InFlight(pc).None?
    ensures Inv(s.(calls := s.calls[t := pc]))
  {
    MoveKeepsConns(s, t, pc);
    MoveKeepsLocks(s, t, pc);
  }

  lemma LeaveKeepsInv(s: Store, t: nat)
    requires Inv(s) && t in s.calls && s.calls[t].Returned?
    ensures Inv(s.(calls := s.calls - {t}))
  {
    var n := s.(calls := s.calls - {t});
    forall c | c in s.conns && Flying(s, c) ensures Flying(n, c) { StillFlying(s, n, c, t); }
  }

  /** Destination locks may be added, with fresh objects, and dropped, without touching anything else. */
  lemma LockTableKeepsInv(s: Store, n: Store)
    requires Inv(s) && n == s.(destinationLocks := n.destinationLocks, nextLock := n.nextLock)
    requires s.nextLock <= n.nextLock
    requires forall p :: p in n.destinationLocks ==> n.destinationLocks[p] < n.nextLock
    ensures Inv(n)
  {}

  lemma CallKeepsInv(s: Store, t: nat, pki: Pki)
    requires Inv(s) && t !in s.calls
    ensures Inv(Begin(s, t, pki))
  {
    if pki in s.destinationLocks {
      MoveKeepsInv(s, t, Waiting(pki, s.destinationLocks[pki]));
    } else {
      var s1 := s.(destinationLocks := s.destinationLocks[pki := s.nextLock], nextLock := s.nextLock + 1);
      LockTableKeepsInv(s, s1);
      MoveKeepsInv(s1, t, Waiting(pki, s.nextLock));
    }
  }

  lemma QuietKeepsInv(s: Store, t: nat, step: Step)
    requires Inv(s) && t in s.calls && !step.Commit? && !(step.Create? && step.ok)
    ensures Inv(NextCall(s, t, step))
  {
    var pc := s.calls[t];
    match step
    case LockDestination(_) =>
      if pc.Waiting? && LockFree(s, pc.lock) { MoveKeepsInv(s, t, Checking(pc.pki, pc.lock)); }
    case Check(_) =>
      if pc.Checking? {
        if pc.pki in s.pki2Conn { MoveKeepsInv(s, t, Found(pc.pki, pc.lock, s.pki2Conn[pc.pki])); }
        else { MoveKeepsInv(s, t, Creating(pc.pki, pc.lock)); }
      }
    case Create(_, _) => if pc.Creating? { MoveKeepsInv(s, t, Created(pc.pki, pc.lock, None)); }
    case UnlockDestination(_) =>
      if pc.Found? { MoveKeepsInv(s, t, Returned(pc.pki, Some(pc.found))); }
      else if pc.Created? { MoveKeepsInv(s, t, Storing(pc.pki, pc.made)); }
    case Leave(_) => if pc.Returned? { LeaveKeepsInv(s, t); }
    case _ =>
  }

  lemma CreateKeepsConns(s: Store, t: nat)
    requires Inv(s) && t in s.calls && s.calls[t].Creating?
    ensures ConnsOk(NextCall(s, t, Create(t, true)))
  {
    var n := NextCall(s, t, Create(t, true));
    assert InFlight(n.calls[t]) == Some(s.nextConn);
    assert s.nextConn !in s.conns;
    forall c | c in s.conns && Flying(s, c) ensures Flying(n, c) { StillFlying(s, n, c, t); }
    assert FlightsOk(n);
  }

  lemma CreateKeepsInv(s: Store, t: nat)
    requires Inv(s) && t in s.calls && s.calls[t].Creating?
    ensures Inv(NextCall(s, t, Create(t, true)))
  {
    CreateKeepsConns(s, t);
    var pc := s.calls[t];
    var s1 := s.(conns := s.conns[s.nextConn := Conn(pc.pki, false)], nextConn := s.nextConn + 1);
    assert s.nextConn !in s.conns;
    assert ResultsOk(s1) && LocksOk(s1);
    MoveKeepsLocks(s1, t, Created(pc.pki, pc.lock, Some(s.nextConn)));
  }

  /** Dropping the destination lock, which every commit starts with. */
  function Unregister(s: Store, pki: Pki): Store { s.(destinationLocks := s.destinationLocks - {pki}) }

  /** The commit closes its own connection because another one is there by now. */
  lemma CommitSurplus(s: Store, t: nat)
    requires Inv(s) && t in s.calls && s.calls[t].Storing? && s.calls[t].made.Some? && s.calls[t].pki in s.pki2Conn
    ensures ConnsOk(Store2(s, t))
  {
    var n, made := Store2(s, t), s.calls[t].made.value;
    assert InFlight(s.calls[t]) == Some(made);
    forall c | c in s.conns && Flying(s, c) && c != made ensures Flying(n, c) { StillFlying(s, n, c, t); }
    assert EntriesLive(n);
    assert FlightsOk(n);
  }

  /** The commit stores its connection. */
  lemma CommitStores(s: Store, t: nat)
    requires Inv(s) && t in s.calls && s.calls[t].Storing? && s.calls[t].made.Some? && s.calls[t].pki !in s.pki2Conn
    ensures ConnsOk(Store2(s, t))
  {
    var n, made := Store2(s, t), s.calls[t].made.value;
    assert InFlight(s.calls[t]) == Some(made);
    forall c | c in s.conns && Flying(s, c) && c != made ensures Flying(n, c) { StillFlying(s, n, c, t); }
    assert EntriesLive(n);
    assert FlightsOk(n);
  }

  /** Closing and storing connections keeps what calls have found or returned. */
  lemma SamePeersKeepResults(s: Store, conns: map<nat, Conn>, pki2Conn: map<Pki, nat>)
    requires ResultsOk(s) && LocksOk(s)
    requires forall c :: c in s.conns ==> c in conns && conns[c].pki == s.conns[c].pki
    ensures ResultsOk(s.(conns := conns, pki2Conn := pki2Conn)) && LocksOk(s.(conns := conns, pki2Conn := pki2Conn))
  {}

  /** A call returns while connections are closed or stored and destination locks dropped. */
  lemma ReturnKeepsLocks(s: Store, n: Store, t: nat)
    requires ResultsOk(s) && LocksOk(s) && t in n.calls && n.calls[t].Returned? && PlaceOk(n, t, n.calls[t])
    requires n.calls == s.calls[t := n.calls[t]] && n.nextLock == s.nextLock
    requires forall c :: c in s.conns ==> c in n.conns && n.conns[c].pki == s.conns[c].pki
    requires forall p :: p in n.destinationLocks ==> p in s.destinationLocks && n.destinationLocks[p] == s.destinationLocks[p]
    ensures ResultsOk(n) && LocksOk(n)
  {}

  lemma CommitNothing(s: Store, t: nat)
    requires Inv(s) && t in s.calls && s.calls[t].Storing? && s.calls[t].made.None?
    ensures Inv(Store2(s, t))
  {
    var pki, n := s.calls[t].pki, Store2(s, t);
    LockTableKeepsInv(s, Unregister(s, pki));
    MoveKeepsInv(Unregister(s, pki), t, n.calls[t]);
  }

  lemma CommitKeepsInv(s: Store, t: nat)
    requires Inv(s) && t in s.calls && s.calls[t].Storing?
    ensures Inv(Store2(s, t))
  {
    if s.calls[t].made.None? {
      CommitNothing(s, t);
    } else {
      if s.calls[t].pki in s.pki2Conn { CommitSurplus(s, t); } else { CommitStores(s, t); }
      ReturnKeepsLocks(s, Store2(s, t), t);
    }
  }

  lemma AcceptKeepsConns(s: Store, pki: Pki)
    requires Inv(s)
    ensures ConnsOk(Accept(s, pki))
  {
    var n := Accept(s, pki);
    assert s.nextConn !in s.conns;
    assert EntriesLive(n);
    assert FlightsOk(n);
    forall c | c in s.conns && Flying(s, c) ensures Flying(n, c) {
      var u :| u in s.calls && InFlight(s.calls[u]) == Some(c);
      assert u in n.calls && InFlight(n.calls[u]) == Some(c);
    }
  }

  lemma AcceptKeepsInv(s: Store, pki: Pki)
    requires Inv(s)
    ensures Inv(Accept(s, pki))
  {
    AcceptKeepsConns(s, pki);
    assert s.nextConn !in s.conns;
  }

  lemma CloseKeepsConns(s: Store, pki: Pki, byConn: bool)
    requires Inv(s)
    ensures ConnsOk(Close(s, pki, byConn))
  {
    var n := Close(s, pki, byConn);
    assert EntriesLive(n);
    assert FlightsOk(n);
    forall c | c in s.conns && Flying(s, c) ensures Flying(n, c) {
      var u :| u in s.calls && InFlight(s.calls[u]) == Some(c);
      assert u in n.calls && InFlight(n.calls[u]) == Some(c);
    }
  }

  lemma CloseKeepsInv(s: Store, pki: Pki, byConn: bool)
    requires Inv(s)
    ensures Inv(Close(s, pki, byConn))
  {
    CloseKeepsConns(s, pki, byConn);
    SamePeersKeepResults(s, Close(s, pki, byConn).conns, Close(s, pki, byConn).pki2Conn);
  }

  lemma NextKeepsInv(s: Store, step: Step)
    requires Inv(s)
    ensures Inv(Next(s, step))
  {
    match step
    case Call(t, pki) => if t !in s.calls { CallKeepsInv(s, t, pki); }
    case OnConnected(pki) => AcceptKeepsInv(s, pki);
    case CloseConn(pki) => CloseKeepsInv(s, pki, true);
    case CloseByPKIid(pki) => CloseKeepsInv(s, pki, false);
    case Create(t, ok) =>
      if t in s.calls {
        if ok && s.calls[t].Creating? { CreateKeepsInv(s, t); } else { QuietKeepsInv(s, t, Create(t, false)); }
      }
    case Commit(t) => if t in s.calls && s.calls[t].Storing? { CommitKeepsInv(s, t); }
    case _ => if step.tid in s.calls { QuietKeepsInv(s, step.tid, step); }
  }

  // ---------------------------------------------------------------- every run

  /** The store after any interleaving of steps; a dangling pointer would end the run. */
  ghost function RunFrom(s: Store, steps: seq<Step>): Store
  {
    if |steps| == 0 then s
    else
      var before := RunFrom(s, steps[..|steps| - 1]);
      if PointersOk(before) then Next(before, steps[|steps| - 1]) else before
  }

  ghost function Run(steps: seq<Step>): Store { RunFrom(Start, steps) }

  lemma {:induction false} RunFromKeepsInv(s: Store, steps: seq<Step>)
    requires Inv(s)
    ensures Inv(RunFrom(s, steps)) && PointersOk(RunFrom(s, steps))
  {
    if |steps| > 0 {
      RunFromKeepsInv(s, steps[..|steps| - 1]);
      NextKeepsInv(RunFrom(s, steps[..|steps| - 1]), steps[|steps| - 1]);
    }
  }

  lemma RunKeepsInv(steps: seq<Step>)
    ensures Inv(Run(steps)) && PointersOk(Run(steps))
  {
    RunFromKeepsInv(Start, steps);
  }

  /** In every run each entry of the map is keyed by its connection's id and that connection is not stopped. */
  lemma EntriesKeyedAndLive(steps: seq<Step>, p: Pki)
    requires p in Run(steps).pki2Conn
    ensures var s := Run(steps);
            s.pki2Conn[p] in s.conns && s.conns[s.pki2Conn[p]] == Conn(p, false)
  {
    RunKeepsInv(steps);
  }

  /**
   In every run every connection ever created is in exactly one of three places: in the map under its own id, in
   flight in exactly one getConnection call, or closed.
   */
  lemma NoConnectionAbandoned(steps: seq<Step>, c: nat)
    requires c in Run(steps).conns
    ensures var s := Run(steps);
            && (s.conns[c].stopped || Flying(s, c) || Stored(s, c))
            && !(s.conns[c].stopped && Flying(s, c)) && !(s.conns[c].stopped && Stored(s, c))
            && !(Flying(s, c) && Stored(s, c))
            && (forall t, u :: t in s.calls && u in s.calls && InFlight(s.calls[t]) == Some(c) == InFlight(s.calls[u])
                  ==> t == u)
  {
    RunKeepsInv(steps);
  }

  /** What getConnection returns is a connection to the peer that was asked for. */
  lemma ReturnsRightPeer(steps: seq<Step>, t: nat)
    requires t in Run(steps).calls && Run(steps).calls[t].Returned? && Run(steps).calls[t].conn.Some?
    ensures var s := Run(steps);
            s.calls[t].conn.value in s.conns && s.conns[s.calls[t].conn.value].pki == s.calls[t].pki
  {
    RunKeepsInv(steps);
  }

  // ---------------------------------------------------------------- the objects

  class PeerConnection {
    const pkiID: Pki
    var stopFlag: bool

    constructor (pkiID: Pki)
      ensures this.pkiID == pkiID && !stopFlag
    {
      this.pkiID, stopFlag := pkiID, false;
    }

    method Close()
      modifies this
      ensures stopFlag
    {
      stopFlag := true;
    }
  }

  /** The store as an object; getConnection is given here without interference. */
  class ConnStore {
    var pki2Conn: map<Pki, PeerConnection>
    var destinationLocks: set<Pki>

    ghost predicate Valid()
      reads this, pki2Conn.Values
    {
      forall p :: p in pki2Conn ==> pki2Conn[p].pkiID == p && !pki2Conn[p].stopFlag
    }

    constructor ()
      ensures Valid() && pki2Conn == map[] && destinationLocks == {}
    {
      pki2Conn, destinationLocks := map[], {};
    }

    /** An incoming connection replaces the peer's current one, which is closed; no other entry changes. */
    method OnConnected(pkiID: Pki) returns (conn: PeerConnection)
      requires Valid()
      modifies this`pki2Conn, if pkiID in pki2Conn then {pki2Conn[pkiID]} else {}
      ensures Valid() && fresh(conn) && conn.pkiID == pkiID
      ensures pki2Conn == old(pki2Conn)[pkiID := conn]
      ensures pkiID in old(pki2Conn) ==> old(pki2Conn[pkiID]).stopFlag
    {
      if pkiID in pki2Conn { pki2Conn[pkiID].Close(); }
      conn := new PeerConnection(pkiID);
      pki2Conn := pki2Conn[pkiID := conn];
    }

    /** closeConn looks a connection up under the peer's id and deletes it under its own: the same entry. */
    method CloseConn(pkiID: Pki)
      requires Valid()
      modifies this`pki2Conn, if pkiID in pki2Conn then {pki2Conn[pkiID]} else {}
      ensures Valid() && pki2Conn == old(pki2Conn) - {pkiID}
      ensures pkiID in old(pki2Conn) ==> old(pki2Conn[pkiID]).stopFlag
    {
      if pkiID in pki2Conn {
        var conn := pki2Conn[pkiID];
        conn.Close();
        pki2Conn := pki2Conn - {conn.pkiID};
      }
    }

    /** The existing connection if there is one, else a new one if the factory made one, stored under its id. */
    method GetConnection(pkiID: Pki, connects: bool) returns (conn: PeerConnection?)
      requires Valid()
      modifies this
      ensures Valid()
      ensures pkiID in old(pki2Conn) ==> conn == old(pki2Conn)[pkiID] && pki2Conn == old(pki2Conn)
      ensures pkiID !in old(pki2Conn) && connects ==>
        conn != null && fresh(conn) && conn.pkiID == pkiID && pki2Conn == old(pki2Conn)[pkiID := conn]
      ensures pkiID !in old(pki2Conn) && !connects ==> conn == null && pki2Conn == old(pki2Conn)
      ensures destinationLocks == if pkiID in old(pki2Conn) then old(destinationLocks) + {pkiID}
                                  else old(destinationLocks) - {pkiID}
    {
      destinationLocks := destinationLocks + {pkiID};
      if pkiID in pki2Conn { return pki2Conn[pkiID]; }
      var created: PeerConnection? := null;
      if connects { created := new PeerConnection(pkiID); }
      destinationLocks := destinationLocks - {pkiID};
      if created == null { return null; }
      pki2Conn := pki2Conn[created.pkiID := created];
      conn := created;
    }
  }
}
