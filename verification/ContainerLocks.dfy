/**
 The per-container locks of the VM controller (core/container/controller.go).

 A lock object is created when the first thread asks for a container, counts the threads that
 wait for it or hold it, and leaves the map with the last of them. A waiting thread keeps its own
 pointer to the object while the map may change under it, and unlocking looks the object up again
 by container id. `Table` is the state guarded by the global mutex, `System` adds any number of
 threads running lockContainer, the request, and unlockContainer.
 */
module ContainerLocks {

  /** Container ids, compared for equality only. */
  type Id(==, !new)

  /** refCountedLock: the counter and whether its mutex is taken. */
  datatype LockObject = LockObject(refCount: int, locked: bool)

  /** The map from container ids to lock objects, and every object ever created (`R` is a pointer). */
  datatype Table<R> = Table(locks: map<Id, R>, objects: map<R, LockObject>) {
    predicate WellFormed() {
      forall id :: id in locks ==> locks[id] in objects
    }
  }

  datatype Released<R> =
    | Released(table: Table<R>)
    | NoLockToUnlock
    | RefCountPanic
    | UnlockOfUnlockedMutex

  /** lockContainer up to the release of the global mutex: find or create the object and count this thread in. */
  function Enter<R(==)>(t: Table<R>, id: Id, made: R): (r: (Table<R>, R))
    requires t.WellFormed()
    ensures r.0.locks == t.locks[id := r.1] && r.1 in r.0.objects && r.0.WellFormed()
    ensures r.0.objects[r.1].refCount == (if id in t.locks then t.objects[t.locks[id]].refCount else 0) + 1
  {
    if id !in t.locks then
      (Table(t.locks[id := made], t.objects[made := LockObject(1, false)]), made)
    else
      var ref := t.locks[id];
      (t.(objects := t.objects[ref := t.objects[ref].(refCount := t.objects[ref].refCount + 1)]), ref)
  }

  /** unlockContainer: look the object up by id, unlock it, count this thread out, drop the object at zero. */
  function Leave<R(==)>(t: Table<R>, id: Id): Released<R>
    requires t.WellFormed()
  {
    if id !in t.locks then NoLockToUnlock
    else
      var ref := t.locks[id];
      var obj := t.objects[ref];
      if obj.refCount <= 0 then RefCountPanic
      else if !obj.locked then UnlockOfUnlockedMutex
      else
        var t1 := t.(objects := t.objects[ref := LockObject(obj.refCount - 1, false)]);
        Released(if obj.refCount - 1 == 0 then t1.(locks := t1.locks - {id}) else t1)
  }

  // ---------------------------------------------------------------- threads

  /** Where a thread is: blocked on the object it found, between lock and unlock, or stopped by a fault. */
  datatype Pc =
    | Waiting(id: Id, ref: nat)
    | Inside(id: Id, ref: nat)
    | Faulted

  /** Threads outside any lockContainer/unlockContainer pair are not in `pcs`. */
  datatype System = System(table: Table<nat>, next: nat, pcs: map<nat, Pc>)

  datatype Step = Arrive(tid: nat, id: Id) | Acquire(tid: nat) | Depart(tid: nat)

  predicate CanAcquire(s: System, tid: nat)
  {
    && tid in s.pcs && s.pcs[tid].Waiting?
    && s.pcs[tid].ref in s.table.objects && !s.table.objects[s.pcs[tid].ref].locked
  }

  predicate CanDepart(s: System, tid: nat)
  {
    tid in s.pcs && s.pcs[tid].Inside?
  }

  /** One atomic region of one thread; a step that is not enabled leaves the system alone. */
  function Next(s: System, step: Step): System
    requires s.table.WellFormed()
  {
    match step
    case Arrive(tid, id) =>
      if tid in s.pcs then s
      else
        var (table, ref) := Enter(s.table, id, s.next);
        System(table, s.next + 1, s.pcs[tid := Waiting(id, ref)])
    case Acquire(tid) =>
      if CanAcquire(s, tid) then
        var pc := s.pcs[tid];
        var obj := s.table.objects[pc.ref];
        s.(table := s.table.(objects := s.table.objects[pc.ref := obj.(locked := true)]),
           pcs := s.pcs[tid := Inside(pc.id, pc.ref)])
      else s
    case Depart(tid) =>
      if CanDepart(s, tid) then
        match Leave(s.table, s.pcs[tid].id)
        case Released(table) => s.(table := table, pcs := s.pcs - {tid})
        case _ => s.(pcs := s.pcs[tid := Faulted])
      else s
  }

  const Start := System(Table(map[], map[]), 0, map[])

  /** Threads that wait on or hold the object `ref`. */
  function Users(s: System, ref: nat): set<nat>
  {
    set tid | tid in s.pcs && !s.pcs[tid].Faulted? && s.pcs[tid].ref == ref
  }

  // ---------------------------------------------------------------- invariant

  /** The map points at distinct, known objects; fresh pointers are not in use yet. */
  ghost predicate TableOk(s: System)
  {
    && s.table.WellFormed()
    && (forall r :: r in s.table.objects ==> r < s.next)
    && (forall a, b :: a in s.table.locks && b in s.table.locks && s.table.locks[a] == s.table.locks[b] ==> a == b)
  }

  /** No thread has faulted, and each one's object is still the one registered for its id. */
  ghost predicate NoStaleObject(s: System)
  {
    forall tid :: tid in s.pcs ==>
      !s.pcs[tid].Faulted? && s.pcs[tid].id in s.table.locks && s.table.locks[s.pcs[tid].id] == s.pcs[tid].ref
  }

  /** Every registered object counts exactly the threads that wait on or hold it, and has at least one. */
  ghost predicate CountsExact(s: System)
    requires s.table.WellFormed()
  {
    forall id :: id in s.table.locks ==>
      s.table.objects[s.table.locks[id]].refCount == |Users(s, s.table.locks[id])| > 0
  }

  /** An object's mutex is taken exactly when some thread is inside, and by one thread only. */
  ghost predicate OneHolder(s: System)
    requires s.table.WellFormed()
  {
    && (forall tid :: tid in s.pcs && s.pcs[tid].Inside? ==>
          s.pcs[tid].ref in s.table.objects && s.table.objects[s.pcs[tid].ref].locked)
    && (forall id :: id in s.table.locks && s.table.objects[s.table.locks[id]].locked ==>
          exists tid :: tid in s.pcs && s.pcs[tid] == Inside(id, s.table.locks[id]))
    && (forall a, b :: a in s.pcs && b in s.pcs && s.pcs[a].Inside? && s.pcs[b].Inside? && s.pcs[a].ref == s.pcs[b].ref
          ==> a == b)
  }

  ghost predicate Inv(s: System)
  {
    TableOk(s) && NoStaleObject(s) && CountsExact(s) && OneHolder(s)
  }

  lemma ArriveUsers(s: System, tid: nat, id: Id, ref: nat)
    requires TableOk(s) && tid !in s.pcs
    ensures var n := Next(s, Arrive(tid, id));
            Users(n, ref) == if n.table.locks[id] == ref then Users(s, ref) + {tid} else Users(s, ref)
  {}

  lemma ArriveKeepsCounts(s: System, tid: nat, id: Id)
    requires Inv(s) && tid !in s.pcs
    ensures CountsExact(Next(s, Arrive(tid, id)))
  {
    var n := Next(s, Arrive(tid, id));
    forall k | k in n.table.locks
      ensures n.table.objects[n.table.locks[k]].refCount == |Users(n, n.table.locks[k])| > 0
    {
      ArriveUsers(s, tid, id, n.table.locks[k]);
      if k == id && id !in s.table.locks {
        assert Users(s, s.next) == {};
      }
    }
  }

  lemma ArriveKeepsHolder(s: System, tid: nat, id: Id)
    requires Inv(s) && tid !in s.pcs
    ensures OneHolder(Next(s, Arrive(tid, id)))
  {
    var n := Next(s, Arrive(tid, id));
    forall k | k in n.table.locks && n.table.objects[n.table.locks[k]].locked
      ensures exists u :: u in n.pcs && n.pcs[u] == Inside(k, n.table.locks[k])
    {
      var u :| u in s.pcs && s.pcs[u] == Inside(k, s.table.locks[k]);
      assert u in n.pcs && n.pcs[u] == s.pcs[u];
    }
  }

  lemma ArriveKeepsInv(s: System, tid: nat, id: Id)
    requires Inv(s) && tid !in s.pcs
    ensures Inv(Next(s, Arrive(tid, id)))
  {
    ArriveKeepsCounts(s, tid, id);
    ArriveKeepsHolder(s, tid, id);
  }

  lemma AcquireUsers(s: System, tid: nat, ref: nat)
    requires TableOk(s) && CanAcquire(s, tid)
    ensures Users(Next(s, Acquire(tid)), ref) == Users(s, ref)
  {}

  lemma AcquireKeepsHolder(s: System, tid: nat)
    requires Inv(s) && CanAcquire(s, tid)
    ensures Next(s, Acquire(tid)).table.WellFormed() && OneHolder(Next(s, Acquire(tid)))
  {
    var n, ref := Next(s, Acquire(tid)), s.pcs[tid].ref;
    assert n.pcs[tid] == Inside(s.pcs[tid].id, ref);
    forall k | k in n.table.locks && n.table.objects[n.table.locks[k]].locked
      ensures exists u :: u in n.pcs && n.pcs[u] == Inside(k, n.table.locks[k])
    {
      if k != s.pcs[tid].id {
        var u :| u in s.pcs && s.pcs[u] == Inside(k, s.table.locks[k]);
        assert n.pcs[u] == s.pcs[u];
      }
    }
    forall u | u in n.pcs && n.pcs[u].Inside? && u != tid ensures n.pcs[u].ref != ref && n.pcs[u] == s.pcs[u] {}
  }

  lemma AcquireKeepsInv(s: System, tid: nat)
    requires Inv(s) && CanAcquire(s, tid)
    ensures Inv(Next(s, Acquire(tid)))
  {
    AcquireKeepsHolder(s, tid);
    var n := Next(s, Acquire(tid));
    assert n.table.locks == s.table.locks;
    forall k | k in n.table.locks
      ensures n.table.objects[n.table.locks[k]].refCount == |Users(n, n.table.locks[k])| > 0
    {
      AcquireUsers(s, tid, n.table.locks[k]);
    }
  }

  /** A thread inside finds its own object in the map, counted and locked. */
  lemma DepartReleases(s: System, tid: nat)
    requires Inv(s) && CanDepart(s, tid)
    ensures Leave(s.table, s.pcs[tid].id).Released?
  {}

  /** Unlocking from inside succeeds and leaves the object free, counting the threads that remain, if any. */
  lemma DepartCountsOut(s: System, tid: nat)
    requires Inv(s) && CanDepart(s, tid)
    ensures var id, ref, l := s.pcs[tid].id, s.pcs[tid].ref, Leave(s.table, s.pcs[tid].id);
            && l.Released? && s.table.locks[id] == ref
            && l.table.objects == s.table.objects[ref := LockObject(|Users(s, ref) - {tid}|, false)]
            && l.table.locks == if Users(s, ref) == {tid} then s.table.locks - {id} else s.table.locks
  {
    var ref := s.pcs[tid].ref;
    assert tid in Users(s, ref);
    assert |Users(s, ref) - {tid}| == |Users(s, ref)| - 1;
    assert Users(s, ref) == {tid} <==> Users(s, ref) - {tid} == {};
  }

  lemma DepartUsers(s: System, tid: nat, ref: nat)
    requires Inv(s) && CanDepart(s, tid)
    ensures Users(Next(s, Depart(tid)), ref) == Users(s, ref) - {tid}
    ensures tid in Users(s, ref) <==> ref == s.pcs[tid].ref
  {}

  lemma DepartKeepsObjects(s: System, tid: nat)
    requires Inv(s) && CanDepart(s, tid)
    ensures TableOk(Next(s, Depart(tid))) && NoStaleObject(Next(s, Depart(tid)))
  {
    DepartReleases(s, tid);
    var n, id, ref := Next(s, Depart(tid)), s.pcs[tid].id, s.pcs[tid].ref;
    DepartUsers(s, tid, ref);
    forall u | u in n.pcs ensures n.pcs[u].id in n.table.locks && !n.pcs[u].Faulted? {
      assert n.pcs[u] == s.pcs[u];
      if s.pcs[u].id == id {
        assert u in Users(n, ref);
        assert |Users(n, ref)| == |Users(s, ref)| - 1 > 0;
      }
    }
  }

  lemma DepartKeepsCounts(s: System, tid: nat)
    requires Inv(s) && CanDepart(s, tid)
    ensures Next(s, Depart(tid)).table.WellFormed() && CountsExact(Next(s, Depart(tid)))
  {
    DepartReleases(s, tid);
    var n := Next(s, Depart(tid));
    forall k | k in n.table.locks
      ensures n.table.objects[n.table.locks[k]].refCount == |Users(n, n.table.locks[k])| > 0
    {
      DepartUsers(s, tid, n.table.locks[k]);
    }
  }

  lemma DepartKeepsHolder(s: System, tid: nat)
    requires Inv(s) && CanDepart(s, tid)
    ensures Next(s, Depart(tid)).table.WellFormed() && OneHolder(Next(s, Depart(tid)))
  {
    DepartReleases(s, tid);
    var n := Next(s, Depart(tid));
    forall k | k in n.table.locks && n.table.objects[n.table.locks[k]].locked
      ensures exists u :: u in n.pcs && n.pcs[u] == Inside(k, n.table.locks[k])
    {
      var u :| u in s.pcs && s.pcs[u] == Inside(k, s.table.locks[k]);
      assert u in n.pcs && n.pcs[u] == s.pcs[u];
    }
  }

  lemma DepartKeepsInv(s: System, tid: nat)
    requires Inv(s) && CanDepart(s, tid)
    ensures Inv(Next(s, Depart(tid)))
  {
    DepartKeepsObjects(s, tid);
    DepartKeepsCounts(s, tid);
    DepartKeepsHolder(s, tid);
  }

  lemma NextKeepsInv(s: System, step: Step)
    requires Inv(s)
    ensures Inv(Next(s, step))
  {
    match step
    case Arrive(tid, id) => if tid !in s.pcs { ArriveKeepsInv(s, tid, id); }
    case Acquire(tid) => if CanAcquire(s, tid) { AcquireKeepsInv(s, tid); }
    case Depart(tid) => if CanDepart(s, tid) { DepartKeepsInv(s, tid); }
  }

  // ---------------------------------------------------------------- every run

  /** Any interleaving of any steps of any threads. */
  function RunFrom(s: System, steps: seq<Step>): System
    requires Inv(s)
    decreases |steps|
  {
    if |steps| == 0 then s
    else
      NextKeepsInv(s, steps[0]);
      RunFrom(Next(s, steps[0]), steps[1..])
  }

  lemma {:induction false} RunKeepsInv(s: System, steps: seq<Step>)
    requires Inv(s)
    ensures Inv(RunFrom(s, steps))
    decreases |steps|
  {
    if |steps| > 0 {
      NextKeepsInv(s, steps[0]);
      RunKeepsInv(Next(s, steps[0]), steps[1..]);
    }
  }

  lemma StartInv()
    ensures Inv(Start)
  {}

  /** A run from an empty controller. */
  function Run(steps: seq<Step>): System
  {
    StartInv();
    RunFrom(Start, steps)
  }

  /** After any run from an empty controller, at most one thread per container id is between lock and unlock. */
  lemma MutualExclusion(steps: seq<Step>, a: nat, b: nat)
    requires var s := Run(steps);
             a in s.pcs && b in s.pcs && s.pcs[a].Inside? && s.pcs[b].Inside? && s.pcs[a].id == s.pcs[b].id
    ensures a == b
  {
    StartInv();
    RunKeepsInv(Start, steps);
  }

  /**
   After any run: no thread has hit the reference-count panic, the missing-lock branch or an unlock of an
   unlocked mutex; every thread's object is the one in the map; and a registered object's count is the
   number of threads waiting on it or holding it, never zero.
   */
  lemma CountsAndObjects(steps: seq<Step>)
    ensures var s := Run(steps);
            && s.table.WellFormed() && NoStaleObject(s) && CountsExact(s)
            && (s.pcs == map[] ==> s.table.locks == map[])
  {
    StartInv();
    RunKeepsInv(Start, steps);
    var s := Run(steps);
    assert s.pcs == map[] ==> forall ref :: Users(s, ref) == {};
  }

  /** A thread that arrives waits on the object registered for its container, which counts it in; nobody else moves. */
  lemma ArrivalWaits(s: System, tid: nat, id: Id)
    requires Inv(s) && tid !in s.pcs
    ensures var n := Next(s, Arrive(tid, id));
            && id in n.table.locks && n.pcs == s.pcs[tid := Waiting(id, n.table.locks[id])]
            && n.table.locks == s.table.locks[id := n.table.locks[id]]
            && (id in s.table.locks ==> n.table.locks[id] == s.table.locks[id])
            && n.table.objects[n.table.locks[id]].refCount ==
               (if id in s.table.locks then |Users(s, s.table.locks[id])| else 0) + 1
  {}

  /** A thread that can acquire gets inside, with its object locked; nobody else moves and no count changes. */
  lemma AcquireEnters(s: System, tid: nat)
    requires Inv(s) && CanAcquire(s, tid)
    ensures var n, ref := Next(s, Acquire(tid)), s.pcs[tid].ref;
            && n.pcs == s.pcs[tid := Inside(s.pcs[tid].id, ref)] && n.table.locks == s.table.locks
            && n.table.objects == s.table.objects[ref := LockObject(s.table.objects[ref].refCount, true)]
  {}

  /** Undisturbed, a thread goes in and out and leaves the map and the other threads as they were. */
  lemma PassesThrough(s: System, tid: nat, id: Id) returns (s1: System, s2: System, n: System)
    requires TableOk(s) && tid !in s.pcs && id !in s.table.locks
    ensures s1 == Next(s, Arrive(tid, id)) && CanAcquire(s1, tid) && s1.table.WellFormed()
    ensures s2 == Next(s1, Acquire(tid)) && CanDepart(s2, tid) && s2.table.WellFormed()
    ensures n == Next(s2, Depart(tid)) && n.pcs == s.pcs && n.table.locks == s.table.locks
  {
    s1 := Next(s, Arrive(tid, id));
    s2 := Next(s1, Acquire(tid));
    n := Next(s2, Depart(tid));
    assert s.table.locks[id := s1.table.locks[id]] - {id} == s.table.locks;
    assert s.pcs[tid := s2.pcs[tid]] - {tid} == s.pcs;
  }

  /** For every registered container some thread that wants it can take its next step. */
  lemma ContainerNeverStuck(s: System, id: Id) returns (tid: nat)
    requires Inv(s) && id in s.table.locks
    ensures tid in s.pcs && s.pcs[tid].id == id && (CanAcquire(s, tid) || CanDepart(s, tid))
  {
    var ref := s.table.locks[id];
    if s.table.objects[ref].locked {
      tid :| tid in s.pcs && s.pcs[tid] == Inside(id, ref);
    } else {
      assert Users(s, ref) != {};
      tid :| tid in Users(s, ref);
    }
  }

  function Waiters(s: System): set<nat>
  {
    set tid | tid in s.pcs && s.pcs[tid].Waiting?
  }

  /** Steps still to be taken by the threads that have arrived: two for a waiting one, one inside. */
  function Work(s: System): nat
  {
    |s.pcs.Keys| + |Waiters(s)|
  }

  lemma AcquireWorks(s: System, tid: nat)
    requires Inv(s) && CanAcquire(s, tid)
    ensures Work(Next(s, Acquire(tid))) == Work(s) - 1
  {
    var n := Next(s, Acquire(tid));
    assert Waiters(n) == Waiters(s) - {tid} && n.pcs.Keys == s.pcs.Keys;
  }

  lemma DepartWorks(s: System, tid: nat)
    requires Inv(s) && CanDepart(s, tid)
    ensures Work(Next(s, Depart(tid))) == Work(s) - 1
  {
    DepartReleases(s, tid);
    var n := Next(s, Depart(tid));
    assert n.pcs == s.pcs - {tid} && n.pcs.Keys == s.pcs.Keys - {tid};
    assert Waiters(n) == Waiters(s);
  }

  /** Every step of `steps` is a thread already present getting in or leaving, when its turn comes. */
  ghost predicate Productive(s: System, steps: seq<Step>)
    requires Inv(s)
    decreases |steps|
  {
    |steps| > 0 ==>
      && ((steps[0].Acquire? && CanAcquire(s, steps[0].tid)) || (steps[0].Depart? && CanDepart(s, steps[0].tid)))
      && (NextKeepsInv(s, steps[0]); Productive(Next(s, steps[0]), steps[1..]))
  }

  /** Each such step takes one off the work, so no schedule of them is longer than the work. */
  lemma {:induction false} ProductiveWorks(s: System, steps: seq<Step>)
    requires Inv(s) && Productive(s, steps)
    ensures Work(RunFrom(s, steps)) == Work(s) - |steps| && Inv(RunFrom(s, steps))
    decreases |steps|
  {
    if |steps| > 0 {
      if steps[0].Acquire? { AcquireWorks(s, steps[0].tid); } else { DepartWorks(s, steps[0].tid); }
      NextKeepsInv(s, steps[0]);
      ProductiveWorks(Next(s, steps[0]), steps[1..]);
    }
  }

  lemma NoThreadNoLock(s: System)
    requires Inv(s) && s.pcs == map[]
    ensures s.table.locks == map[]
  {
    assert forall ref :: Users(s, ref) == {};
  }

  /** Whatever the order, as many such steps as there is work leave no thread and no lock object. */
  lemma EveryScheduleDrains(s: System, steps: seq<Step>)
    requires Inv(s) && Productive(s, steps) && |steps| == Work(s)
    ensures RunFrom(s, steps).pcs == map[] && RunFrom(s, steps).table.locks == map[]
  {
    ProductiveWorks(s, steps);
    var n := RunFrom(s, steps);
    assert |n.pcs.Keys| == 0;
    assert n.pcs.Keys == {};
    assert n.pcs == map[];
    NoThreadNoLock(n);
  }

  lemma NoLockNoWork(s: System)
    requires Inv(s) && s.table.locks == map[]
    ensures Work(s) == 0
  {
    assert s.pcs == map[] by { assert forall tid :: tid !in s.pcs; }
  }

  lemma SomeWork(s: System) returns (step: Step)
    requires Inv(s) && s.table.locks != map[]
    ensures (step.Acquire? && CanAcquire(s, step.tid)) || (step.Depart? && CanDepart(s, step.tid))
    ensures Inv(Next(s, step)) && Work(Next(s, step)) == Work(s) - 1
  {
    var id :| id in s.table.locks;
    var tid := ContainerNeverStuck(s, id);
    step := if CanAcquire(s, tid) then Acquire(tid) else Depart(tid);
    if CanAcquire(s, tid) { AcquireWorks(s, tid); } else { DepartWorks(s, tid); }
    NextKeepsInv(s, step);
  }

  lemma {:induction false} Schedule(s: System) returns (steps: seq<Step>)
    requires Inv(s)
    ensures |steps| == Work(s) && Productive(s, steps)
    decreases Work(s)
  {
    if s.table.locks == map[] {
      NoLockNoWork(s);
      steps := [];
    } else {
      var step := SomeWork(s);
      var rest := Schedule(Next(s, step));
      steps := [step] + rest;
      assert steps[1..] == rest;
    }
  }

  /**
   From every state a run can reach, the threads that have arrived can all finish: exactly `Work(s)` more steps,
   each of a thread already present, lead to a state with no thread and no lock object left in the map.
   */
  lemma Drains(s: System) returns (steps: seq<Step>)
    requires Inv(s)
    ensures |steps| == Work(s) && Productive(s, steps)
    ensures RunFrom(s, steps).pcs == map[] && RunFrom(s, steps).table.locks == map[]
  {
    steps := Schedule(s);
    EveryScheduleDrains(s, steps);
  }

  // ---------------------------------------------------------------- the objects

  /** How unlockContainer ends. */
  datatype Outcome = Unlocked | NoLock | CountPanic | MutexPanic

  function OutcomeOf<R>(r: Released<R>): Outcome
  {
    match r
    case Released(_) => Unlocked
    case NoLockToUnlock => NoLock
    case RefCountPanic => CountPanic
    case UnlockOfUnlockedMutex => MutexPanic
  }

  class RefCountedLock {
    var refCount: int
    var locked: bool

    constructor ()
      ensures refCount == 1 && !locked
    {
      refCount, locked := 1, false;
    }
  }

  /** VMController with its two regions; `created` is the set of lock objects made so far. */
  class VMController {
    var containerLocks: map<Id, RefCountedLock>
    ghost var created: set<RefCountedLock>

    ghost predicate Valid()
      reads this
    {
      forall id :: id in containerLocks ==> containerLocks[id] in created
    }

    ghost function View(): (t: Table<RefCountedLock>)
      requires Valid()
      reads this, created
      ensures t.WellFormed()
    {
      Table(containerLocks, map r | r in created :: LockObject(r.refCount, r.locked))
    }

    constructor ()
      ensures Valid() && View() == Table(map[], map[])
    {
      containerLocks, created := map[], {};
    }

    /** The part of lockContainer under the global mutex; the caller then blocks on the result's mutex. */
    method EnterContainer(id: Id) returns (refLck: RefCountedLock)
      requires Valid()
      modifies this, created
      ensures Valid()
      ensures View() == Enter(old(View()), id, refLck).0 && refLck == Enter(old(View()), id, refLck).1
      ensures id !in old(containerLocks) ==> fresh(refLck)
    {
      if id !in containerLocks {
        refLck := new RefCountedLock();
        assert refLck !in created;
        containerLocks := containerLocks[id := refLck];
        created := created + {refLck};
      } else {
        refLck := containerLocks[id];
        refLck.refCount := refLck.refCount + 1;
      }
    }

    /** unlockContainer; it changes nothing when it finds no lock it can release. */
    method UnlockContainer(id: Id) returns (outcome: Outcome)
      requires Valid()
      modifies this`containerLocks, created
      ensures Valid()
      ensures outcome == OutcomeOf(Leave(old(View()), id))
      ensures View() == if outcome == Unlocked then Leave(old(View()), id).table else old(View())
    {
      if id !in containerLocks { return NoLock; }
      var refLck := containerLocks[id];
      if refLck.refCount <= 0 { return CountPanic; }
      if !refLck.locked { return MutexPanic; }
      refLck.locked := false;
      refLck.refCount := refLck.refCount - 1;
      if refLck.refCount == 0 {
        containerLocks := containerLocks - {id};
      }
      outcome := Unlocked;
    }
  }
}
