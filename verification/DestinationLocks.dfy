/**
 What the destination locks of the connection store give and do not give (gossip/comm/conn.go). They are there to
 keep two calls from connecting to one peer at once. A call that commits drops the peer's lock from the table even
 when other calls still queue on it; those are then exposed, because the next call makes a new lock.
 */
module DestinationLocks {
  import opened ConnectionStore
  import opened Options

  /** A call that can still come to create a connection. */
  predicate MayConnect(pc: Pc) { pc.Waiting? || pc.Checking? || pc.Creating? }

  /** Call `t` may connect under a lock that is not the one registered for its peer any more. */
  predicate Exposed(s: Store, t: nat)
  {
    && t in s.calls && MayConnect(s.calls[t])
    && (s.calls[t].pki !in s.destinationLocks || s.destinationLocks[s.calls[t].pki] != s.calls[t].lock)
  }

  ghost predicate Protected(s: Store, pki: Pki)
  {
    forall t :: t in s.calls && s.calls[t].pki == pki ==> !Exposed(s, t)
  }

  /** Two calls are connecting to `pki` at once. */
  ghost predicate Overlap(s: Store, pki: Pki)
  {
    exists t, u :: t != u && Connecting(s, t, pki) && Connecting(s, u, pki)
  }

  predicate Connecting(s: Store, t: nat, pki: Pki) { t in s.calls && s.calls[t].Creating? && s.calls[t].pki == pki }

  lemma ProtectedNoOverlap(s: Store, pki: Pki)
    requires LocksOk(s) && Protected(s, pki)
    ensures !Overlap(s, pki)
  {
    forall t, u | Connecting(s, t, pki) && Connecting(s, u, pki) ensures t == u {
      assert !Exposed(s, t) && !Exposed(s, u);
    }
  }

  /** The step commits a call for `pki` while another call may still connect to it. */
  ghost predicate RiskyCommit(s: Store, step: Step, pki: Pki)
  {
    && step.Commit? && step.tid in s.calls && s.calls[step.tid].Storing? && s.calls[step.tid].pki == pki
    && exists u :: u in s.calls && MayConnect(s.calls[u]) && s.calls[u].pki == pki
  }

  lemma CommitProtection(s: Store, n: Store, t: nat, pki: Pki)
    requires Protected(s, pki) && t in s.calls && s.calls[t].Storing?
    requires n.destinationLocks == s.destinationLocks - {s.calls[t].pki}
    requires t in n.calls && n.calls[t].Returned? && n.calls == s.calls[t := n.calls[t]]
    ensures !Protected(n, pki) <==> RiskyCommit(s, Commit(t), pki)
  {
    if RiskyCommit(s, Commit(t), pki) {
      var u :| u in s.calls && MayConnect(s.calls[u]) && s.calls[u].pki == pki;
      assert n.calls[u] == s.calls[u] && Exposed(n, u);
    } else {
      forall u | u in n.calls && n.calls[u].pki == pki ensures !Exposed(n, u) {
        if u != t { assert !Exposed(s, u); }
      }
    }
  }

  lemma QuietProtection(s: Store, t: nat, step: Step, pki: Pki)
    requires PointersOk(s) && Protected(s, pki) && t in s.calls && !(step.Commit? && s.calls[t].Storing?)
    ensures Protected(NextCall(s, t, step), pki)
  {
    var n := NextCall(s, t, step);
    assert n.destinationLocks == s.destinationLocks;
    forall u | u in n.calls && n.calls[u].pki == pki ensures !Exposed(n, u) { assert !Exposed(s, u); }
  }

  lemma BeginProtection(s: Store, t: nat, pki: Pki, p: Pki)
    requires Protected(s, pki)
    ensures Protected(Begin(s, t, p), pki)
  {}

  /** The protection is lost at exactly one kind of step, a commit while another call may still connect. */
  lemma ProtectionLostExactly(s: Store, step: Step, pki: Pki)
    requires PointersOk(s) && Protected(s, pki)
    ensures !Protected(Next(s, step), pki) <==> RiskyCommit(s, step, pki)
  {
    match step
    case Call(t, p) => BeginProtection(s, t, pki, p);
    case OnConnected(_) => assert forall u :: Exposed(Next(s, step), u) == Exposed(s, u);
    case CloseConn(_) => assert forall u :: Exposed(Next(s, step), u) == Exposed(s, u);
    case CloseByPKIid(_) => assert forall u :: Exposed(Next(s, step), u) == Exposed(s, u);
    case Commit(t) =>
      if t in s.calls && s.calls[t].Storing? { CommitProtection(s, Store2(s, t), t, pki); }
    case _ =>
      if step.tid in s.calls { QuietProtection(s, step.tid, step, pki); }
  }

  // ---------------------------------------------------------------- over runs

  /** No step of `steps`, taken from `s` on, is a risky commit for `pki`. */
  ghost predicate Calm(s: Store, steps: seq<Step>, pki: Pki)
  {
    forall i :: 0 <= i < |steps| ==> !RiskyCommit(RunFrom(s, steps[..i]), steps[i], pki)
  }

  lemma {:induction false} CalmStaysProtected(s: Store, steps: seq<Step>, pki: Pki)
    requires Inv(s) && Protected(s, pki) && Calm(s, steps, pki)
    ensures Protected(RunFrom(s, steps), pki)
  {
    if |steps| > 0 {
      var init := steps[..|steps| - 1];
      forall i | 0 <= i < |init| ensures !RiskyCommit(RunFrom(s, init[..i]), init[i], pki) {
        assert init[..i] == steps[..i];
      }
      CalmStaysProtected(s, init, pki);
      RunFromKeepsInv(s, init);
      ProtectionLostExactly(RunFrom(s, init), steps[|steps| - 1], pki);
    }
  }

  /** In every run without a risky commit for a peer, at most one call at a time is connecting to it. */
  lemma OneConnectsAtATime(steps: seq<Step>, pki: Pki)
    requires Calm(Start, steps, pki)
    ensures !Overlap(Run(steps), pki)
  {
    CalmStaysProtected(Start, steps, pki);
    RunKeepsInv(steps);
    ProtectedNoOverlap(Run(steps), pki);
  }

  // ---------------------------------------------------------------- from a risky commit to an overlap

  ghost predicate NoCommits(steps: seq<Step>) { forall i :: 0 <= i < |steps| ==> !steps[i].Commit? }

  lemma Advance(s: Store, steps: seq<Step>, step: Step)
    requires Inv(s)
    ensures Inv(RunFrom(s, steps)) && PointersOk(RunFrom(s, steps))
    ensures RunFrom(s, steps + [step]) == Next(RunFrom(s, steps), step)
  {
    RunFromKeepsInv(s, steps);
    assert (steps + [step])[..|steps|] == steps;
  }

  /** One more step that commits nothing. */
  lemma Continue(s: Store, steps: seq<Step>, step: Step) returns (more: seq<Step>, n: Store)
    requires Inv(s) && NoCommits(steps) && !step.Commit?
    ensures PointersOk(RunFrom(s, steps)) && n == Next(RunFrom(s, steps), step)
    ensures NoCommits(more) && RunFrom(s, more) == n
  {
    more := steps + [step];
    Advance(s, steps, step);
    n := RunFrom(s, more);
  }

  lemma {:induction false} FreshCall(tids: set<nat>) returns (w: nat)
    ensures forall t :: t in tids ==> t < w
  {
    if tids == {} {
      w := 0;
    } else {
      var t :| t in tids;
      var v := FreshCall(tids - {t});
      w := if v <= t then t + 1 else v;
      assert forall x :: x in tids ==> x == t || x in tids - {t};
    }
  }

  /** Nothing is stored for `pki`, and `w` is connecting to it under a lock that `u` does not use. */
  predicate HalfWay(c: Store, pki: Pki, w: nat, u: nat)
  {
    && pki !in c.pki2Conn && Connecting(c, w, pki) && u in c.calls && u != w
    && MayConnect(c.calls[u]) && c.calls[u].pki == pki && c.calls[u].lock != c.calls[w].lock
  }

  lemma Unstore(s: Store, pki: Pki) returns (more: seq<Step>)
    requires Inv(s)
    ensures NoCommits(more) && pki !in RunFrom(s, more).pki2Conn
    ensures RunFrom(s, more).calls == s.calls && RunFrom(s, more).destinationLocks == s.destinationLocks
    ensures RunFrom(s, more).nextLock == s.nextLock
  {
    var n: Store;
    more, n := Continue(s, [], CloseByPKIid(pki));
  }

  lemma NewcomerArrives(s: Store, pki: Pki) returns (more: seq<Step>, w: nat)
    requires Inv(s) && pki !in s.destinationLocks
    ensures NoCommits(more) && w !in s.calls && pki !in RunFrom(s, more).pki2Conn
    ensures RunFrom(s, more).calls == s.calls[w := Waiting(pki, s.nextLock)]
  {
    w := FreshCall(s.calls.Keys);
    more := Unstore(s, pki);
    var n: Store;
    more, n := Continue(s, more, Call(w, pki));
  }

  lemma NewLockFree(s: Store, c: Store, pki: Pki, w: nat)
    requires LocksOk(s) && c.calls == s.calls[w := Waiting(pki, s.nextLock)]
    ensures LockFree(c, s.nextLock)
  {}

  /** With no lock registered, a new call makes its own and gets to connect. */
  lemma NewcomerConnects(s: Store, pki: Pki, u: nat) returns (more: seq<Step>, w: nat)
    requires Inv(s) && pki !in s.destinationLocks
    requires u in s.calls && MayConnect(s.calls[u]) && s.calls[u].pki == pki
    ensures NoCommits(more) && HalfWay(RunFrom(s, more), pki, w, u)
  {
    more, w := NewcomerArrives(s, pki);
    NewLockFree(s, RunFrom(s, more), pki, w);
    var n: Store;
    more, n := Continue(s, more, LockDestination(w));
    more, n := Continue(s, more, Check(w));
    assert s.calls[u].lock < s.nextLock;
  }

  /** `c` and `d` differ in the call `v` only, as far as locks and stored connections go. */
  ghost predicate OnlyMoves(c: Store, d: Store, v: nat)
  {
    v in c.calls && v in d.calls && d.calls == c.calls[v := d.calls[v]] && d.pki2Conn == c.pki2Conn
  }

  lemma UnlockReleases(s: Store, steps: seq<Step>, v: nat) returns (more: seq<Step>)
    requires Inv(s) && NoCommits(steps) && v in RunFrom(s, steps).calls
    requires RunFrom(s, steps).calls[v].Found? || RunFrom(s, steps).calls[v].Created?
    ensures NoCommits(more) && OnlyMoves(RunFrom(s, steps), RunFrom(s, more), v)
    ensures !UsesLock(RunFrom(s, more).calls[v])
  {
    var n: Store;
    more, n := Continue(s, steps, UnlockDestination(v));
  }

  lemma CreatingReleases(s: Store, steps: seq<Step>, v: nat) returns (more: seq<Step>)
    requires Inv(s) && NoCommits(steps) && v in RunFrom(s, steps).calls && RunFrom(s, steps).calls[v].Creating?
    ensures NoCommits(more) && OnlyMoves(RunFrom(s, steps), RunFrom(s, more), v)
    ensures !UsesLock(RunFrom(s, more).calls[v])
  {
    var n: Store;
    more, n := Continue(s, steps, Create(v, false));
    more := UnlockReleases(s, more, v);
  }

  /** Whoever holds a lock can be brought to release it. */
  lemma HolderReleases(s: Store, steps: seq<Step>, v: nat) returns (more: seq<Step>)
    requires Inv(s) && NoCommits(steps)
    requires v in RunFrom(s, steps).calls && HoldsLock(RunFrom(s, steps).calls[v])
    ensures NoCommits(more) && OnlyMoves(RunFrom(s, steps), RunFrom(s, more), v)
    ensures !UsesLock(RunFrom(s, more).calls[v])
  {
    var pc := RunFrom(s, steps).calls[v];
    if pc.Found? || pc.Created? {
      more := UnlockReleases(s, steps, v);
    } else if pc.Creating? {
      more := CreatingReleases(s, steps, v);
    } else {
      var n: Store;
      more, n := Continue(s, steps, Check(v));
      if n.calls[v].Found? {
        more := UnlockReleases(s, more, v);
      } else {
        more := CreatingReleases(s, more, v);
      }
    }
  }

  lemma CheckingConnects(s: Store, steps: seq<Step>, pki: Pki, w: nat, u: nat) returns (more: seq<Step>)
    requires Inv(s) && NoCommits(steps) && HalfWay(RunFrom(s, steps), pki, w, u)
    requires RunFrom(s, steps).calls[u].Checking?
    ensures NoCommits(more) && Overlap(RunFrom(s, more), pki)
  {
    var n: Store;
    more, n := Continue(s, steps, Check(u));
    assert Connecting(n, w, pki) && Connecting(n, u, pki);
  }

  lemma WaitingConnects(s: Store, steps: seq<Step>, pki: Pki, w: nat, u: nat) returns (more: seq<Step>)
    requires Inv(s) && NoCommits(steps) && HalfWay(RunFrom(s, steps), pki, w, u)
    requires RunFrom(s, steps).calls[u].Waiting? && LockFree(RunFrom(s, steps), RunFrom(s, steps).calls[u].lock)
    ensures NoCommits(more) && Overlap(RunFrom(s, more), pki)
  {
    var n: Store;
    more, n := Continue(s, steps, LockDestination(u));
    assert HalfWay(n, pki, w, u);
    more := CheckingConnects(s, more, pki, w, u);
  }

  lemma ExposedConnects(s: Store, steps: seq<Step>, pki: Pki, w: nat, u: nat) returns (more: seq<Step>)
    requires Inv(s) && NoCommits(steps) && HalfWay(RunFrom(s, steps), pki, w, u)
    ensures NoCommits(more) && Overlap(RunFrom(s, more), pki)
  {
    var c := RunFrom(s, steps);
    var lock := c.calls[u].lock;
    if c.calls[u].Creating? {
      more := steps;
      assert Connecting(c, w, pki) && Connecting(c, u, pki);
    } else if c.calls[u].Checking? {
      more := CheckingConnects(s, steps, pki, w, u);
    } else if LockFree(c, lock) {
      more := WaitingConnects(s, steps, pki, w, u);
    } else {
      var v :| v in c.calls && HoldsLock(c.calls[v]) && c.calls[v].lock == lock;
      more := HolderReleases(s, steps, v);
      RunFromKeepsInv(s, steps);
      HolderGone(c, RunFrom(s, more), v, lock);
      more := WaitingConnects(s, more, pki, w, u);
    }
  }

  lemma HolderGone(c: Store, d: Store, v: nat, lock: nat)
    requires LocksOk(c) && OnlyMoves(c, d, v) && !UsesLock(d.calls[v])
    requires HoldsLock(c.calls[v]) && c.calls[v].lock == lock
    ensures LockFree(d, lock)
  {}

  lemma NoCommitsCalm(s: Store, steps: seq<Step>, pki: Pki)
    requires NoCommits(steps)
    ensures Calm(s, steps, pki)
  {}

  lemma RiskyCommitOverlaps(s: Store, step: Step, pki: Pki) returns (more: seq<Step>)
    requires Inv(s) && RiskyCommit(s, step, pki)
    ensures Calm(Next(s, step), more, pki) && Overlap(RunFrom(Next(s, step), more), pki)
  {
    var u :| u in s.calls && MayConnect(s.calls[u]) && s.calls[u].pki == pki;
    NextKeepsInv(s, step);
    var n := Next(s, step);
    assert n.calls[u] == s.calls[u] && pki !in n.destinationLocks;
    var w: nat;
    more, w := NewcomerConnects(n, pki, u);
    more := ExposedConnects(n, more, pki, w, u);
    NoCommitsCalm(n, more, pki);
  }

  /**
   The exact condition. From any reachable state in which a peer is protected, a step makes it possible for two calls
   to connect to that peer at once, with no further risky commit, if and only if the step is a risky commit.
   */
  lemma OverlapExactly(steps: seq<Step>, step: Step, pki: Pki)
    requires Protected(Run(steps), pki)
    ensures var n := Run(steps + [step]);
            RiskyCommit(Run(steps), step, pki) <==> exists more :: Calm(n, more, pki) && Overlap(RunFrom(n, more), pki)
  {
    Advance(Start, steps, step);
    var s, n := Run(steps), Run(steps + [step]);
    NextKeepsInv(s, step);
    if RiskyCommit(s, step, pki) {
      var more := RiskyCommitOverlaps(s, step, pki);
      assert Calm(n, more, pki);
    } else {
      ProtectionLostExactly(s, step, pki);
      forall more | Calm(n, more, pki) ensures !Overlap(RunFrom(n, more), pki) {
        CalmStaysProtected(n, more, pki);
        RunFromKeepsInv(n, more);
        ProtectedNoOverlap(RunFrom(n, more), pki);
      }
    }
  }

  // ---------------------------------------------------------------- a concrete run

  /** A store with no connection in it. */
  function Bare(locks: map<Pki, nat>, nextLock: nat, calls: map<nat, Pc>): Store
  {
    Store(map[], 0, map[], locks, nextLock, calls)
  }

  lemma {:induction false} Extend(l: seq<Step>, step: Step, s: Store, n: Store)
    requires Run(l) == s && PointersOk(s) && Next(s, step) == n
    ensures Run(l + [step]) == n
  {
    assert (l + [step])[..|l|] == l;
  }

  /** The first call fails to connect while a second one waits for the same destination lock. */
  lemma OverlapFirst(p: Pki)
    ensures Run([Call(0, p)] + [LockDestination(0)] + [Check(0)] + [Create(0, false)]) ==
            Bare(map[p := 0], 1, map[0 := Created(p, 0, None)])
  {
    assert [] + [Call(0, p)] == [Call(0, p)];
    Extend([], Call(0, p), Start, Bare(map[p := 0], 1, map[0 := Waiting(p, 0)]));
    Extend([Call(0, p)], LockDestination(0),
      Bare(map[p := 0], 1, map[0 := Waiting(p, 0)]), Bare(map[p := 0], 1, map[0 := Checking(p, 0)]));
    Extend([Call(0, p)] + [LockDestination(0)], Check(0),
      Bare(map[p := 0], 1, map[0 := Checking(p, 0)]), Bare(map[p := 0], 1, map[0 := Creating(p, 0)]));
    Extend([Call(0, p)] + [LockDestination(0)] + [Check(0)], Create(0, false),
      Bare(map[p := 0], 1, map[0 := Creating(p, 0)]), Bare(map[p := 0], 1, map[0 := Created(p, 0, None)]));
  }

  /** It unlocks, and the second call starts connecting. */
  lemma OverlapSecond(p: Pki, l: seq<Step>)
    requires Run(l) == Bare(map[p := 0], 1, map[0 := Created(p, 0, None)])
    ensures Run(l + [Call(1, p)] + [UnlockDestination(0)]) ==
            Bare(map[p := 0], 1, map[0 := Storing(p, None), 1 := Waiting(p, 0)])
  {
    var s1 := Bare(map[p := 0], 1, map[0 := Created(p, 0, None), 1 := Waiting(p, 0)]);
    Extend(l, Call(1, p), Run(l), s1);
    var s2 := Bare(map[p := 0], 1, map[0 := Storing(p, None), 1 := Waiting(p, 0)]);
    Extend(l + [Call(1, p)], UnlockDestination(0), s1, s2);
  }

  lemma OverlapConnects(p: Pki, l: seq<Step>)
    requires Run(l) == Bare(map[p := 0], 1, map[0 := Storing(p, None), 1 := Waiting(p, 0)])
    ensures Run(l + [LockDestination(1)] + [Check(1)]) ==
            Bare(map[p := 0], 1, map[0 := Storing(p, None), 1 := Creating(p, 0)])
  {
    var s1 := Bare(map[p := 0], 1, map[0 := Storing(p, None), 1 := Checking(p, 0)]);
    Extend(l, LockDestination(1), Run(l), s1);
    var s2 := Bare(map[p := 0], 1, map[0 := Storing(p, None), 1 := Creating(p, 0)]);
    Extend(l + [LockDestination(1)], Check(1), s1, s2);
  }

  /** The first call's commit drops the registered lock, so a third call makes a new one. */
  lemma OverlapThird(p: Pki, l: seq<Step>)
    requires Run(l) == Bare(map[p := 0], 1, map[0 := Storing(p, None), 1 := Creating(p, 0)])
    ensures Run(l + [Commit(0)] + [Call(2, p)]) ==
            Bare(map[p := 1], 2, map[0 := Returned(p, None), 1 := Creating(p, 0), 2 := Waiting(p, 1)])
  {
    assert map[p := 0] - {p} == map[];
    var s1 := Bare(map[], 1, map[0 := Returned(p, None), 1 := Creating(p, 0)]);
    Extend(l, Commit(0), Run(l), s1);
    var s2 := Bare(map[p := 1], 2, map[0 := Returned(p, None), 1 := Creating(p, 0), 2 := Waiting(p, 1)]);
    Extend(l + [Commit(0)], Call(2, p), s1, s2);
  }

  lemma OverlapFourth(p: Pki, l: seq<Step>)
    requires Run(l) == Bare(map[p := 1], 2, map[0 := Returned(p, None), 1 := Creating(p, 0), 2 := Waiting(p, 1)])
    ensures Run(l + [LockDestination(2)] + [Check(2)]).calls ==
            map[0 := Returned(p, None), 1 := Creating(p, 0), 2 := Creating(p, 1)]
  {
    var s1 := Bare(map[p := 1], 2, map[0 := Returned(p, None), 1 := Creating(p, 0), 2 := Checking(p, 1)]);
    Extend(l, LockDestination(2), Run(l), s1);
    Advance(Start, l + [LockDestination(2)], Check(2));
  }

  /**
   The destination lock does not prevent concurrent establishment: there is a run in which a failed attempt commits
   while a second call is connecting under its lock, and a third call connects to the same peer under a new one.
   */
  lemma OverlapHappens(p: Pki) returns (steps: seq<Step>)
    ensures var s := Run(steps);
            && 1 in s.calls && s.calls[1].Creating? && 2 in s.calls && s.calls[2].Creating?
            && s.calls[1].pki == s.calls[2].pki == p
  {
    OverlapFirst(p);
    var l := [Call(0, p)] + [LockDestination(0)] + [Check(0)] + [Create(0, false)];
    OverlapSecond(p, l);
    OverlapConnects(p, l + [Call(1, p)] + [UnlockDestination(0)]);
    var m := l + [Call(1, p)] + [UnlockDestination(0)] + [LockDestination(1)] + [Check(1)];
    OverlapThird(p, m);
    OverlapFourth(p, m + [Commit(0)] + [Call(2, p)]);
    steps := m + [Commit(0)] + [Call(2, p)] + [LockDestination(2)] + [Check(2)];
  }
}
