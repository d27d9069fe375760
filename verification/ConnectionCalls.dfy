/**
 What the operations of the connection store return and leave behind (gossip/comm/conn.go): each step of a
 getConnection call, the outcome of a call over whole runs, and incoming and closed connections.
 */
module ConnectionCalls {
  import opened ConnectionStore
  import opened Options

  // ---------------------------------------------------------------- a call that finds a connection

  /** A call that looks for a stored connection returns exactly that one, and nothing else changes. */
  lemma FoundIsReturned(s: Store, t: nat) returns (s1: Store, n: Store)
    requires PointersOk(s) && t in s.calls && s.calls[t].Checking? && s.calls[t].pki in s.pki2Conn
    ensures Goes(s, Check(t), s1) && Goes(s1, UnlockDestination(t), n)
    ensures n == s.(calls := s.calls[t := Returned(s.calls[t].pki, Some(s.pki2Conn[s.calls[t].pki]))])
  {
    s1 := Next(s, Check(t));
    n := Next(s1, UnlockDestination(t));
  }

  /** A commit returns what the map holds for the peer afterwards; its own connection is stored or closed. */
  lemma CommitReturnsStored(s: Store, t: nat)
    requires Inv(s) && t in s.calls && s.calls[t].Storing?
    ensures var Storing(pki, made) := s.calls[t];
            var n := Next(s, Commit(t));
            && t in n.calls && n.calls[t].Returned? && n.calls[t].pki == pki
            && n.calls[t].conn == (if pki in n.pki2Conn then Some(n.pki2Conn[pki]) else None)
            && (pki in s.pki2Conn ==> n.pki2Conn == s.pki2Conn && (made.Some? ==> n.conns[made.value].stopped))
            && (pki !in s.pki2Conn && made.Some? ==> n.pki2Conn == s.pki2Conn[pki := made.value] && n.conns == s.conns)
            && (n.calls[t].conn.None? <==> pki !in s.pki2Conn && made.None?)
            && pki !in n.destinationLocks
  {
    var n := Next(s, Commit(t));
    if s.calls[t].made.Some? { assert InFlight(s.calls[t]) == s.calls[t].made; }
  }

  // ---------------------------------------------------------------- a call on its own

  ghost predicate Goes(s: Store, step: Step, n: Store) { PointersOk(s) && n == Next(s, step) && PointersOk(n) }

  /** Call `t` can start, nothing is stored for the peer, and its destination lock, if there is one, is free. */
  ghost predicate Unused(s: Store, t: nat, pki: Pki)
  {
    && t !in s.calls && pki !in s.pki2Conn
    && (pki in s.destinationLocks ==> LockFree(s, s.destinationLocks[pki]))
  }

  lemma CallBegins(s: Store, t: nat, pki: Pki) returns (lock: nat, n: Store)
    requires PointersOk(s) && LocksOk(s) && Unused(s, t, pki)
    ensures Goes(s, Call(t, pki), n) && LockFree(n, lock)
    ensures n == s.(calls := s.calls[t := Waiting(pki, lock)], destinationLocks := n.destinationLocks, nextLock := n.nextLock)
  {
    n := Next(s, Call(t, pki));
    lock := n.calls[t].lock;
  }

  lemma CallMoves(s: Store, t: nat, pki: Pki, lock: nat) returns (s1: Store, n: Store)
    requires PointersOk(s) && t in s.calls && s.calls[t] == Waiting(pki, lock) && LockFree(s, lock) && pki !in s.pki2Conn
    ensures Goes(s, LockDestination(t), s1) && Goes(s1, Check(t), n)
    ensures n == s.(calls := s.calls[t := Creating(pki, lock)])
  {
    s1 := Next(s, LockDestination(t));
    n := Next(s1, Check(t));
  }

  lemma CallCreates(s: Store, t: nat, pki: Pki, lock: nat, ok: bool) returns (s1: Store, n: Store)
    requires PointersOk(s) && t in s.calls && s.calls[t] == Creating(pki, lock)
    ensures Goes(s, Create(t, ok), s1) && Goes(s1, UnlockDestination(t), n)
    ensures n.calls == s.calls[t := Storing(pki, if ok then Some(s.nextConn) else None)]
    ensures n.conns == (if ok then s.conns[s.nextConn := Conn(pki, false)] else s.conns) && n.pki2Conn == s.pki2Conn
  {
    s1 := Next(s, Create(t, ok));
    n := Next(s1, UnlockDestination(t));
  }

  lemma CallCommits(s: Store, t: nat, pki: Pki, made: Option<nat>) returns (n: Store)
    requires PointersOk(s) && t in s.calls && s.calls[t] == Storing(pki, made) && pki !in s.pki2Conn
    requires made.Some? ==> made.value in s.conns && s.conns[made.value].pki == pki
    ensures Goes(s, Commit(t), n) && pki !in n.destinationLocks
    ensures n.calls == s.calls[t := Returned(pki, made)] && n.conns == s.conns
    ensures n.pki2Conn == if made.Some? then s.pki2Conn[pki := made.value] else s.pki2Conn
  {
    n := Next(s, Commit(t));
  }

  /** Undisturbed, a call for a peer without a connection gets to connect, holding the peer's lock. */
  lemma CallConnects(s: Store, t: nat, pki: Pki) returns (lock: nat, s1: Store, s2: Store, n: Store)
    requires PointersOk(s) && LocksOk(s) && Unused(s, t, pki)
    ensures Goes(s, Call(t, pki), s1) && Goes(s1, LockDestination(t), s2) && Goes(s2, Check(t), n)
    ensures n.calls == s.calls[t := Creating(pki, lock)] && n.pki2Conn == s.pki2Conn && n.conns == s.conns
  {
    lock, s1 := CallBegins(s, t, pki);
    s2, n := CallMoves(s1, t, pki, lock);
  }

  /**
   And it ends: with a new, live connection that it returns and that is then the stored one, or with nothing if it
   could not connect; its destination lock is dropped either way.
   */
  lemma CallFinishes(s: Store, t: nat, pki: Pki, lock: nat, ok: bool) returns (s1: Store, s2: Store, n: Store)
    requires PointersOk(s) && t in s.calls && s.calls[t] == Creating(pki, lock) && pki !in s.pki2Conn
    ensures Goes(s, Create(t, ok), s1) && Goes(s1, UnlockDestination(t), s2) && Goes(s2, Commit(t), n)
    ensures n.calls == s.calls[t := Returned(pki, if ok then Some(s.nextConn) else None)] && pki !in n.destinationLocks
    ensures n.pki2Conn == if ok then s.pki2Conn[pki := s.nextConn] else s.pki2Conn
    ensures n.conns == if ok then s.conns[s.nextConn := Conn(pki, false)] else s.conns
  {
    s1, s2 := CallCreates(s, t, pki, lock, ok);
    n := CallCommits(s2, t, pki, if ok then Some(s.nextConn) else None);
  }

  /** A call that has returned is gone, and only it. */
  lemma LeavingIsAll(s: Store, t: nat)
    requires PointersOk(s) && t in s.calls && s.calls[t].Returned?
    ensures Next(s, Leave(t)) == s.(calls := s.calls - {t})
  {}

  /** A call that waits takes its lock when nobody holds it, whatever is stored meanwhile. */
  lemma FreeLockIsTaken(s: Store, t: nat)
    requires PointersOk(s) && t in s.calls && s.calls[t].Waiting? && LockFree(s, s.calls[t].lock)
    ensures Next(s, LockDestination(t)) == s.(calls := s.calls[t := Checking(s.calls[t].pki, s.calls[t].lock)])
  {}

  /** A call blocked on a lock that somebody holds stays where it is. */
  lemma HeldLockBlocks(s: Store, t: nat, v: nat)
    requires PointersOk(s) && t in s.calls && s.calls[t].Waiting?
    requires v in s.calls && HoldsLock(s.calls[v]) && s.calls[v].lock == s.calls[t].lock
    ensures Next(s, LockDestination(t)) == s
  {}

  // ---------------------------------------------------------------- when a call returns nothing

  ghost predicate ReturnedNothing(s: Store, t: nat, pki: Pki) { t in s.calls && s.calls[t] == Returned(pki, None) }

  lemma NothingComesFromCommit(s: Store, step: Step, t: nat, pki: Pki)
    requires PointersOk(s) && ReturnedNothing(Next(s, step), t, pki) && !ReturnedNothing(s, t, pki)
    ensures step == Commit(t) && t in s.calls && s.calls[t] == Storing(pki, None) && pki !in s.pki2Conn
  {}

  lemma StoringNothingComesFromFailure(s: Store, step: Step, t: nat, pki: Pki)
    requires PointersOk(s) && t in Next(s, step).calls && Next(s, step).calls[t] == Storing(pki, None)
    requires !(t in s.calls && s.calls[t] == Storing(pki, None))
    ensures t in s.calls && s.calls[t].Created? && s.calls[t].pki == pki && s.calls[t].made.None?
  {}

  lemma FailureComesFromCreate(s: Store, step: Step, t: nat, pki: Pki)
    requires PointersOk(s) && t in Next(s, step).calls && Next(s, step).calls[t].Created?
    requires Next(s, step).calls[t].pki == pki && Next(s, step).calls[t].made.None?
    requires !(t in s.calls && s.calls[t].Created? && s.calls[t].pki == pki && s.calls[t].made.None?)
    ensures step == Create(t, false) && t in s.calls && s.calls[t].Creating? && s.calls[t].pki == pki
  {}

  /** At step `i` of the run the attempt of call `t` to connect to `pki` fails. */
  ghost predicate FailsAt(steps: seq<Step>, i: nat, t: nat, pki: Pki)
  {
    && i < |steps| && steps[i] == Create(t, false)
    && var s := Run(steps[..i]); t in s.calls && s.calls[t].Creating? && s.calls[t].pki == pki
  }

  ghost predicate Failed(pc: Pc, pki: Pki)
  {
    (pc.Created? || pc.Storing?) && pc.pki == pki && pc.made.None?
  }

  lemma {:induction false} FailedHasCause(steps: seq<Step>, t: nat, pki: Pki) returns (i: nat)
    requires t in Run(steps).calls && Failed(Run(steps).calls[t], pki)
    ensures FailsAt(steps, i, t, pki)
  {
    var init, step := steps[..|steps| - 1], steps[|steps| - 1];
    RunKeepsInv(init);
    var s := Run(init);
    if t in s.calls && Failed(s.calls[t], pki) {
      i := FailedHasCause(init, t, pki);
      assert init[..i] == steps[..i];
    } else {
      i := |steps| - 1;
      if Run(steps).calls[t].Created? {
        FailureComesFromCreate(s, step, t, pki);
      } else {
        StoringNothingComesFromFailure(s, step, t, pki);
      }
    }
  }

  /** In every run a call returns nothing only if its own attempt failed and, when it committed, nothing was stored. */
  lemma {:induction false} NothingHasCause(steps: seq<Step>, t: nat, pki: Pki) returns (i: nat, j: nat)
    requires ReturnedNothing(Run(steps), t, pki)
    ensures FailsAt(steps, i, t, pki) && i < j < |steps| && steps[j] == Commit(t)
    ensures pki !in Run(steps[..j]).pki2Conn
  {
    var init, step := steps[..|steps| - 1], steps[|steps| - 1];
    RunKeepsInv(init);
    if ReturnedNothing(Run(init), t, pki) {
      i, j := NothingHasCause(init, t, pki);
      assert init[..i] == steps[..i] && init[..j] == steps[..j];
    } else {
      NothingComesFromCommit(Run(init), step, t, pki);
      i := FailedHasCause(init, t, pki);
      j := |steps| - 1;
      assert init[..i] == steps[..i];
    }
  }

  // ---------------------------------------------------------------- incoming and closed connections

  /** An incoming connection is stored, live, in place of the peer's current one, which is closed. */
  lemma IncomingIsStored(s: Store, pki: Pki)
    requires Inv(s)
    ensures var n := Next(s, OnConnected(pki));
            && n.pki2Conn == s.pki2Conn[pki := s.nextConn] && s.nextConn !in s.conns
            && n.conns.Keys == s.conns.Keys + {s.nextConn} && n.conns[s.nextConn] == Conn(pki, false)
            && (forall c :: c in s.conns ==>
                  n.conns[c] == if pki in s.pki2Conn && s.pki2Conn[pki] == c then Conn(pki, true) else s.conns[c])
            && n.calls == s.calls && n.destinationLocks == s.destinationLocks
  {}

  /** Closing by peer or by id closes exactly the peer's connection and takes it out of the map; calls go on. */
  lemma ClosedIsRemoved(s: Store, pki: Pki)
    requires Inv(s)
    ensures Next(s, CloseConn(pki)) == Next(s, CloseByPKIid(pki))
    ensures var n := Next(s, CloseConn(pki));
            && n.pki2Conn == s.pki2Conn - {pki} && n.conns.Keys == s.conns.Keys
            && (forall c :: c in s.conns ==>
                  n.conns[c] == if pki in s.pki2Conn && s.pki2Conn[pki] == c then Conn(pki, true) else s.conns[c])
            && n.calls == s.calls && n.destinationLocks == s.destinationLocks
  {
    assert pki !in s.pki2Conn ==> s.pki2Conn - {pki} == s.pki2Conn;
  }
}
