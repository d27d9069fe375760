/**
 The batching emitter of the gossip push phase (gossip/gossip/batcher.go).

 A message is added with a counter, handed to a callback once per emission, and
 dropped when its counter reaches zero. The value-level functions below are the
 regions the emitter runs under its lock; `BatchingEmitter` is the object itself.
 */
module Batcher {

  /** A buffered message and the number of emissions it still has to take part in. */
  datatype Entry<D> = Entry(data: D, left: int)

  /** One call of the callback. `first` is the position, among all messages ever added, of `msgs[0]`. */
  datatype Batch<D> = Batch(first: int, msgs: seq<D>)

  /** The buffer and the stop flag, with the history of added messages and callback calls. */
  datatype State<D> = State(buff: seq<Entry<D>>, stopped: bool, added: seq<D>, batches: seq<Batch<D>>)

  datatype Op<D> = Add(msg: D) | PeriodicEmit | Stop

  /** The messages of a buffer, in order. */
  function Data<D>(buff: seq<Entry<D>>): (r: seq<D>)
    ensures |r| == |buff| && forall i :: 0 <= i < |r| ==> r[i] == buff[i].data
  {
    seq(|buff|, i requires 0 <= i < |buff| => buff[i].data)
  }

  /** Every counter lowered by one, nothing removed. */
  function DecrementAll<D>(buff: seq<Entry<D>>): (r: seq<Entry<D>>)
    ensures |r| == |buff| && forall i :: 0 <= i < |r| ==> r[i] == Entry(buff[i].data, buff[i].left - 1)
  {
    seq(|buff|, i requires 0 <= i < |buff| => Entry(buff[i].data, buff[i].left - 1))
  }

  /** What the removal loop leaves: lowered counters, without the entries that hit zero. */
  function Decrement<D>(buff: seq<Entry<D>>): seq<Entry<D>>
  {
    if |buff| == 0 then []
    else
      var last := buff[|buff| - 1];
      Decrement(buff[..|buff| - 1]) +
      (if last.left - 1 == 0 then [] else [Entry(last.data, last.left - 1)])
  }

  function EmitStep<D>(s: State<D>): State<D>
  {
    if s.stopped || |s.buff| == 0 then s
    else s.(batches := s.batches + [Batch(|s.added| - |s.buff|, Data(s.buff))], buff := Decrement(s.buff))
  }

  /** The state right after a message is appended, before any emission. */
  function Append<D>(iterations: int, s: State<D>, msg: D): State<D>
  {
    s.(buff := s.buff + [Entry(msg, iterations)], added := s.added + [msg])
  }

  function AddStep<D>(iterations: int, burstSize: int, s: State<D>, msg: D): State<D>
  {
    var s1 := Append(iterations, s, msg);
    if |s1.buff| >= burstSize then EmitStep(s1) else s1
  }

  function Step<D>(iterations: int, burstSize: int, s: State<D>, op: Op<D>): State<D>
  {
    match op
    case Add(msg) => AddStep(iterations, burstSize, s, msg)
    case PeriodicEmit => EmitStep(s)
    case Stop => s.(stopped := true)
  }

  /** The state after any sequence of locked regions, starting from an empty emitter. */
  function Run<D>(iterations: int, burstSize: int, ops: seq<Op<D>>): State<D>
  {
    if |ops| == 0 then State([], false, [], [])
    else Step(iterations, burstSize, Run(iterations, burstSize, ops[..|ops| - 1]), ops[|ops| - 1])
  }

  /** Number of callback calls that handed over the message added in position `j`. */
  function Handed<D>(batches: seq<Batch<D>>, j: int): nat
  {
    if |batches| == 0 then 0
    else
      var last := batches[|batches| - 1];
      Handed(batches[..|batches| - 1], j) + (if last.first <= j < last.first + |last.msgs| then 1 else 0)
  }

  // ---------------------------------------------------------------- removal loop

  /** Counters are positive, at most `iterations`, and never decrease along the buffer. */
  ghost predicate Ascending<D>(iterations: int, buff: seq<Entry<D>>)
  {
    && (forall i :: 0 <= i < |buff| ==> 1 <= buff[i].left <= iterations)
    && (forall i, j :: 0 <= i < j < |buff| ==> buff[i].left <= buff[j].left)
  }

  /** Number of entries about to expire. */
  function Expiring<D>(buff: seq<Entry<D>>): nat
  {
    if |buff| == 0 then 0
    else Expiring(buff[..|buff| - 1]) + (if buff[|buff| - 1].left == 1 then 1 else 0)
  }

  /** On an ascending buffer the entries at one are a prefix. */
  lemma {:induction false} ExpiringIsPrefix<D>(iterations: int, buff: seq<Entry<D>>)
    requires Ascending(iterations, buff)
    ensures Expiring(buff) <= |buff|
    ensures forall i :: 0 <= i < |buff| ==> (buff[i].left == 1 <==> i < Expiring(buff))
  {
    if |buff| > 0 {
      var init := buff[..|buff| - 1];
      ExpiringIsPrefix(iterations, init);
      var k := Expiring(init);
      assert k < |init| ==> init[k].left <= buff[|init|].left;
    }
  }

  /** The last entry of a buffer, on top of what the removal loop does to the others. */
  lemma DecrementLast<D>(buff: seq<Entry<D>>)
    requires |buff| > 0 && (buff[|buff| - 1].left == 1 ==> Expiring(buff) == |buff|)
    requires var init := buff[..|buff| - 1];
             Expiring(init) <= |init| && Decrement(init) == DecrementAll(init)[Expiring(init)..]
    ensures Expiring(buff) <= |buff| && Decrement(buff) == DecrementAll(buff)[Expiring(buff)..]
  {
    var init, last := buff[..|buff| - 1], buff[|buff| - 1];
    var all, k, e := DecrementAll(init), Expiring(init), Entry(last.data, last.left - 1);
    if last.left != 1 {
      assert DecrementAll(buff) == all + [e];
      assert (all + [e])[k..] == all[k..] + [e];
    }
  }

  /** On an ascending buffer the removal loop lowers every counter and drops a prefix: exactly the entries at one. */
  lemma {:induction false} DecrementDropsPrefix<D>(iterations: int, buff: seq<Entry<D>>)
    requires Ascending(iterations, buff)
    ensures Expiring(buff) <= |buff|
    ensures forall i :: 0 <= i < |buff| ==> (buff[i].left == 1 <==> i < Expiring(buff))
    ensures Decrement(buff) == DecrementAll(buff)[Expiring(buff)..]
  {
    ExpiringIsPrefix(iterations, buff);
    if |buff| > 0 {
      DecrementDropsPrefix(iterations, buff[..|buff| - 1]);
      DecrementLast(buff);
    }
  }

  /** With no counter at one, nothing is removed. */
  lemma {:induction false} DecrementKeepsOthers<D>(buff: seq<Entry<D>>)
    requires forall i :: 0 <= i < |buff| ==> buff[i].left != 1
    ensures Decrement(buff) == DecrementAll(buff)
  {
    if |buff| > 0 {
      var init := buff[..|buff| - 1];
      DecrementKeepsOthers(init);
      assert DecrementAll(buff)[..|init|] == DecrementAll(init);
    }
  }

  // ---------------------------------------------------------------- conservation

  /** The buffer is the tail of everything added, and every batch is a contiguous piece of it. */
  ghost predicate Suffix<D>(s: State<D>)
  {
    && |s.buff| <= |s.added|
    && (forall i :: 0 <= i < |s.buff| ==> s.buff[i].data == s.added[|s.added| - |s.buff| + i])
    && (forall b :: 0 <= b < |s.batches| ==>
          && 0 <= s.batches[b].first
          && s.batches[b].first + |s.batches[b].msgs| <= |s.added|
          && s.batches[b].msgs == s.added[s.batches[b].first..s.batches[b].first + |s.batches[b].msgs|])
  }

  /** Emissions so far plus emissions left make `iterations` for every message ever added. */
  ghost predicate Conserved<D>(iterations: int, s: State<D>)
    requires |s.buff| <= |s.added|
  {
    var gone := |s.added| - |s.buff|;
    && (forall j :: 0 <= j < gone ==> Handed(s.batches, j) == iterations)
    && (forall j :: gone <= j < |s.added| ==> Handed(s.batches, j) + s.buff[j - gone].left == iterations)
    && (forall j :: |s.added| <= j ==> Handed(s.batches, j) == 0)
  }

  /** Later batches start no earlier and end no earlier: insertion order is kept across batches too. */
  ghost predicate InOrder<D>(s: State<D>)
  {
    && (forall b, c :: 0 <= b < c < |s.batches| ==>
          && s.batches[b].first <= s.batches[c].first
          && s.batches[b].first + |s.batches[b].msgs| <= s.batches[c].first + |s.batches[c].msgs|)
    && (forall b :: 0 <= b < |s.batches| ==>
          && s.batches[b].first <= |s.added| - |s.buff|
          && s.batches[b].first + |s.batches[b].msgs| <= |s.added|)
  }

  ghost predicate Inv<D>(iterations: int, s: State<D>)
  {
    Ascending(iterations, s.buff) && Suffix(s) && Conserved(iterations, s) && InOrder(s)
  }

  /** The batch an emission hands over: the whole buffer, which is the tail of the added messages. */
  lemma EmittedBatch<D>(s: State<D>)
    requires Suffix(s)
    ensures Data(s.buff) == s.added[|s.added| - |s.buff|..|s.added|]
  {}

  /** `t` is `buff` with its first `k` entries, all at one, dropped and every other counter lowered. */
  ghost predicate Drops<D>(buff: seq<Entry<D>>, k: nat, t: seq<Entry<D>>)
  {
    && |t| + k == |buff|
    && (forall i :: 0 <= i < k ==> buff[i].left == 1)
    && (forall i :: 0 <= i < |t| ==> t[i] == Entry(buff[k + i].data, buff[k + i].left - 1) && t[i].left >= 1)
  }

  lemma EmitDrops<D>(iterations: int, buff: seq<Entry<D>>)
    requires Ascending(iterations, buff)
    ensures Drops(buff, Expiring(buff), Decrement(buff))
  {
    DecrementDropsPrefix(iterations, buff);
  }

  lemma DropsKeepsAscending<D>(iterations: int, buff: seq<Entry<D>>, k: nat, t: seq<Entry<D>>)
    requires Ascending(iterations, buff) && Drops(buff, k, t)
    ensures Ascending(iterations, t)
  {}

  lemma HandedAfter<D>(batches: seq<Batch<D>>, b: Batch<D>, j: int)
    ensures Handed(batches + [b], j) == Handed(batches, j) + (if b.first <= j < b.first + |b.msgs| then 1 else 0)
  {}

  lemma EmitKeepsConserved<D>(iterations: int, s: State<D>, k: nat, t: State<D>)
    requires Suffix(s) && Conserved(iterations, s) && Drops(s.buff, k, t.buff)
    requires t == s.(buff := t.buff, batches := s.batches + [Batch(|s.added| - |s.buff|, Data(s.buff))])
    ensures Conserved(iterations, t)
  {
    var gone, b := |s.added| - |s.buff|, Batch(|s.added| - |s.buff|, Data(s.buff));
    forall j | 0 <= j ensures
      && (j < gone + k ==> Handed(t.batches, j) == iterations)
      && (gone + k <= j < |s.added| ==> Handed(t.batches, j) + t.buff[j - (gone + k)].left == iterations)
      && (|s.added| <= j ==> Handed(t.batches, j) == 0)
    {
      HandedAfter(s.batches, b, j);
      if gone + k <= j < |s.added| {
        var i := j - (gone + k);
        assert t.buff[i].left == s.buff[k + i].left - 1;
      } else if gone <= j < gone + k {
        assert s.buff[j - gone].left == 1;
      }
    }
  }

  lemma EmitKeepsSuffix<D>(s: State<D>, k: nat, t: State<D>)
    requires Suffix(s) && Drops(s.buff, k, t.buff)
    requires t == s.(buff := t.buff, batches := s.batches + [Batch(|s.added| - |s.buff|, Data(s.buff))])
    ensures Suffix(t)
  {
    EmittedBatch(s);
    forall i | 0 <= i < |t.buff| ensures t.buff[i].data == t.added[|t.added| - |t.buff| + i] {
      assert t.buff[i].data == s.buff[k + i].data;
    }
  }

  lemma EmitKeepsInv<D>(iterations: int, s: State<D>)
    requires Inv(iterations, s)
    ensures Inv(iterations, EmitStep(s))
  {
    if !s.stopped && |s.buff| > 0 {
      EmitDrops(iterations, s.buff);
      DropsKeepsAscending(iterations, s.buff, Expiring(s.buff), Decrement(s.buff));
      EmitKeepsConserved(iterations, s, Expiring(s.buff), EmitStep(s));
      EmitKeepsSuffix(s, Expiring(s.buff), EmitStep(s));
    }
  }

  lemma AppendKeepsSuffix<D>(iterations: int, s: State<D>, msg: D)
    requires Suffix(s) && InOrder(s)
    ensures Suffix(Append(iterations, s, msg)) && InOrder(Append(iterations, s, msg))
  {}

  lemma AppendKeepsConserved<D>(iterations: int, s: State<D>, msg: D)
    requires |s.buff| <= |s.added| && Conserved(iterations, s)
    ensures Conserved(iterations, Append(iterations, s, msg))
  {}

  lemma AppendKeepsInv<D>(iterations: int, s: State<D>, msg: D)
    requires 1 <= iterations && Inv(iterations, s)
    ensures Inv(iterations, Append(iterations, s, msg))
  {
    AppendKeepsSuffix(iterations, s, msg);
    AppendKeepsConserved(iterations, s, msg);
  }

  lemma StepKeepsInv<D>(iterations: int, burstSize: int, s: State<D>, op: Op<D>)
    requires 1 <= iterations && Inv(iterations, s)
    ensures Inv(iterations, Step(iterations, burstSize, s, op))
  {
    match op
    case Add(msg) =>
      AppendKeepsInv(iterations, s, msg);
      EmitKeepsInv(iterations, Append(iterations, s, msg));
    case PeriodicEmit => EmitKeepsInv(iterations, s);
    case Stop =>
  }

  lemma {:induction false} RunKeepsInv<D>(iterations: int, burstSize: int, ops: seq<Op<D>>)
    requires 1 <= iterations
    ensures Inv(iterations, Run(iterations, burstSize, ops))
  {
    if |ops| > 0 {
      RunKeepsInv(iterations, burstSize, ops[..|ops| - 1]);
      StepKeepsInv(iterations, burstSize, Run(iterations, burstSize, ops[..|ops| - 1]), ops[|ops| - 1]);
    }
  }

  /**
   Exact conservation over every run, with or without Stop: a message that has left the buffer was handed
   over exactly `iterations` times, one still buffered has been handed over `iterations - left` times, and
   every batch is a contiguous run of the added messages in insertion order.
   */
  lemma EveryMessageHandedExactly<D>(iterations: int, burstSize: int, ops: seq<Op<D>>, j: nat)
    requires 1 <= iterations
    requires j < |Run(iterations, burstSize, ops).added|
    ensures var s := Run(iterations, burstSize, ops);
            var gone := |s.added| - |s.buff|;
            && (j < gone ==> Handed(s.batches, j) == iterations)
            && (gone <= j ==> s.buff[j - gone].data == s.added[j]
                              && 1 <= s.buff[j - gone].left
                              && Handed(s.batches, j) == iterations - s.buff[j - gone].left)
    ensures Suffix(Run(iterations, burstSize, ops)) && InOrder(Run(iterations, burstSize, ops))
  {
    RunKeepsInv(iterations, burstSize, ops);
  }

  ghost predicate KeepsAll<D>(s: State<D>)
  {
    && |s.buff| == |s.added|
    && forall i :: 0 <= i < |s.buff| ==> s.buff[i].data == s.added[i] && s.buff[i].left <= 0
  }

  lemma EmitKeepsAll<D>(s: State<D>)
    requires KeepsAll(s)
    ensures KeepsAll(EmitStep(s))
  {
    DecrementKeepsOthers(s.buff);
  }

  /** With a non-positive number of iterations no message is ever dropped. */
  lemma {:induction false} NothingExpiresWithoutIterations<D>(iterations: int, burstSize: int, ops: seq<Op<D>>)
    requires iterations <= 0
    ensures KeepsAll(Run(iterations, burstSize, ops))
  {
    if |ops| > 0 {
      var s := Run(iterations, burstSize, ops[..|ops| - 1]);
      NothingExpiresWithoutIterations(iterations, burstSize, ops[..|ops| - 1]);
      match ops[|ops| - 1]
      case Add(msg) => EmitKeepsAll(Append(iterations, s, msg));
      case PeriodicEmit => EmitKeepsAll(s);
      case Stop =>
    }
  }

  // ---------------------------------------------------------------- size bound

  /** From index burstSize - 1 on, counters are strictly increasing and below `iterations`. */
  ghost predicate Steep<D>(iterations: int, burstSize: int, buff: seq<Entry<D>>)
  {
    && (forall i :: burstSize - 1 <= i < |buff| && 0 <= i ==> buff[i].left <= iterations - 1)
    && (forall i, j :: burstSize - 1 <= i < j < |buff| && 0 <= i ==> buff[i].left < buff[j].left)
  }

  lemma EmitMakesSteep<D>(iterations: int, burstSize: int, buff: seq<Entry<D>>)
    requires 1 <= iterations && 1 <= burstSize
    requires Ascending(iterations, buff)
    requires forall i, j :: burstSize - 1 <= i < j < |buff| ==> buff[i].left < buff[j].left
    ensures Steep(iterations, burstSize, Decrement(buff))
  {
    EmitDrops(iterations, buff);
    var k, t := Expiring(buff), Decrement(buff);
    forall i, j | burstSize - 1 <= i < j < |t| ensures t[i].left < t[j].left {
      assert buff[k + i].left < buff[k + j].left;
    }
  }

  lemma {:induction false} RunKeepsSteep<D>(iterations: int, burstSize: int, ops: seq<Op<D>>)
    requires 1 <= iterations && 1 <= burstSize && Stop !in ops
    ensures !Run(iterations, burstSize, ops).stopped
    ensures Steep(iterations, burstSize, Run(iterations, burstSize, ops).buff)
  {
    if |ops| > 0 {
      var op := ops[|ops| - 1];
      assert op in ops;
      var before := Run(iterations, burstSize, ops[..|ops| - 1]);
      RunKeepsSteep(iterations, burstSize, ops[..|ops| - 1]);
      RunKeepsInv(iterations, burstSize, ops[..|ops| - 1]);
      match op
      case Add(msg) =>
        AppendKeepsInv(iterations, before, msg);
        if |before.buff| + 1 >= burstSize {
          EmitMakesSteep(iterations, burstSize, before.buff + [Entry(msg, iterations)]);
        }
      case PeriodicEmit =>
        if |before.buff| > 0 { EmitMakesSteep(iterations, burstSize, before.buff); }
      case Stop => assert false;
    }
  }

  /** A strictly increasing run of positive counters climbs at least one per index. */
  lemma {:induction false} CountersClimb<D>(burstSize: int, buff: seq<Entry<D>>, i: int)
    requires 1 <= burstSize && burstSize - 1 <= i < |buff|
    requires forall k :: 0 <= k < |buff| ==> 1 <= buff[k].left
    requires forall k, l :: burstSize - 1 <= k < l < |buff| ==> buff[k].left < buff[l].left
    ensures buff[i].left >= i - burstSize + 2
    decreases i
  {
    if i > burstSize - 1 { CountersClimb(burstSize, buff, i - 1); }
  }

  /** Without Stop the buffer never holds more than burstSize + iterations - 2 messages between operations. */
  lemma SizeBound<D>(iterations: int, burstSize: int, ops: seq<Op<D>>)
    requires 1 <= iterations && 1 <= burstSize && Stop !in ops
    ensures |Run(iterations, burstSize, ops).buff| <= burstSize + iterations - 2
  {
    var buff := Run(iterations, burstSize, ops).buff;
    RunKeepsSteep(iterations, burstSize, ops);
    RunKeepsInv(iterations, burstSize, ops);
    if |buff| >= burstSize { CountersClimb(burstSize, buff, |buff| - 1); }
  }

  /** `n` additions of the same message, with no periodic emission. */
  function Adds<D>(msg: D, n: nat): (ops: seq<Op<D>>)
    ensures |ops| == n && Stop !in ops
  {
    seq(n, _ => Add(msg))
  }

  /** The counter at index `i` after `n` additions: untouched below burstSize, one emission per addition after that. */
  function FilledLeft(iterations: int, burstSize: int, n: nat, i: nat): int
  {
    if n < burstSize then iterations
    else if i < burstSize then iterations - (n - burstSize + 1)
    else iterations - (n - i)
  }

  ghost predicate Filled<D>(iterations: int, burstSize: int, n: nat, buff: seq<Entry<D>>)
  {
    |buff| == n && forall i :: 0 <= i < n ==> buff[i].left == FilledLeft(iterations, burstSize, n, i)
  }

  lemma FillOne<D>(iterations: int, burstSize: int, msg: D, n: nat, buff: seq<Entry<D>>)
    requires 1 <= burstSize && n + 1 <= burstSize + iterations - 2
    requires Filled(iterations, burstSize, n, buff) && n + 1 >= burstSize
    ensures Filled(iterations, burstSize, n + 1, Decrement(buff + [Entry(msg, iterations)]))
  {
    var b := buff + [Entry(msg, iterations)];
    forall i | 0 <= i < |b| ensures b[i].left != 1 {}
    DecrementKeepsOthers(b);
  }

  lemma {:induction false} FillUp<D>(iterations: int, burstSize: int, msg: D, n: nat)
    requires 1 <= iterations && 1 <= burstSize && n <= burstSize + iterations - 2
    ensures !Run(iterations, burstSize, Adds(msg, n)).stopped
    ensures Filled(iterations, burstSize, n, Run(iterations, burstSize, Adds(msg, n)).buff)
  {
    if n > 0 {
      FillUp(iterations, burstSize, msg, n - 1);
      assert Adds(msg, n)[..n - 1] == Adds(msg, n - 1);
      if n >= burstSize {
        FillOne(iterations, burstSize, msg, n - 1, Run(iterations, burstSize, Adds(msg, n - 1)).buff);
      }
    }
  }

  /** The bound is reached, for every choice of parameters, so it cannot be lowered. */
  lemma SizeBoundIsTight<D>(iterations: int, burstSize: int, msg: D)
    requires 1 <= iterations && 1 <= burstSize
    ensures |Run(iterations, burstSize, Adds(msg, burstSize + iterations - 2)).buff| == burstSize + iterations - 2
  {
    FillUp(iterations, burstSize, msg, burstSize + iterations - 2);
  }

  // ---------------------------------------------------------------- emissions and stopping

  /** An emission hands every buffered message over once more, in one batch, and no other message. */
  lemma EmissionHandsBuffer<D>(iterations: int, burstSize: int, s: State<D>, j: nat)
    requires Suffix(s) && !s.stopped && j < |s.added|
    ensures var n := Step(iterations, burstSize, s, PeriodicEmit);
            && Handed(n.batches, j) == Handed(s.batches, j) + (if j >= |s.added| - |s.buff| then 1 else 0)
            && |n.batches| == |s.batches| + (if s.buff == [] then 0 else 1) && n.added == s.added
  {
    if |s.buff| > 0 { HandedAfter(s.batches, Batch(|s.added| - |s.buff|, Data(s.buff)), j); }
  }

  function Emissions<D>(k: nat): (ops: seq<Op<D>>)
    ensures |ops| == k && forall i :: 0 <= i < k ==> ops[i] == PeriodicEmit
  {
    seq(k, _ => PeriodicEmit)
  }

  lemma EmissionLowers<D>(iterations: int, burstSize: int, s: State<D>, most: int)
    requires Inv(iterations, s) && !s.stopped && forall i :: 0 <= i < |s.buff| ==> s.buff[i].left <= most
    ensures var n := Step(iterations, burstSize, s, PeriodicEmit);
            !n.stopped && forall i :: 0 <= i < |n.buff| ==> n.buff[i].left <= most - 1
  {
    if |s.buff| > 0 { EmitDrops(iterations, s.buff); }
  }

  lemma {:induction false} EmissionsLower<D>(iterations: int, burstSize: int, ops: seq<Op<D>>, k: nat)
    requires 1 <= iterations && Stop !in ops
    ensures var n := Run(iterations, burstSize, ops + Emissions(k));
            !n.stopped && forall i :: 0 <= i < |n.buff| ==> n.buff[i].left <= iterations - k
  {
    var all: seq<Op<D>> := ops + Emissions(k);
    RunKeepsInv(iterations, burstSize, all);
    if k == 0 {
      assert all == ops;
      NotStopped(iterations, burstSize, ops);
    } else {
      assert all[..|all| - 1] == ops + Emissions(k - 1);
      RunKeepsInv(iterations, burstSize, all[..|all| - 1]);
      EmissionsLower(iterations, burstSize, ops, k - 1);
      EmissionLowers(iterations, burstSize, Run(iterations, burstSize, all[..|all| - 1]), iterations - (k - 1));
    }
  }

  lemma {:induction false} NotStopped<D>(iterations: int, burstSize: int, ops: seq<Op<D>>)
    requires Stop !in ops
    ensures !Run(iterations, burstSize, ops).stopped
  {
    if |ops| > 0 {
      assert ops[|ops| - 1] in ops;
      NotStopped(iterations, burstSize, ops[..|ops| - 1]);
    }
  }

  /** Without Stop, as many periodic emissions as there are iterations empty the buffer after any run. */
  lemma EmissionsEmpty<D>(iterations: int, burstSize: int, ops: seq<Op<D>>)
    requires 1 <= iterations && Stop !in ops
    ensures Run(iterations, burstSize, ops + Emissions(iterations)).buff == []
  {
    var buff := Run(iterations, burstSize, ops + Emissions(iterations)).buff;
    if |buff| > 0 {
      EmissionsLower(iterations, burstSize, ops, iterations);
      assert buff[0].left <= 0;
      RunKeepsInv(iterations, burstSize, ops + Emissions(iterations));
    }
  }

  /** After Stop nothing is ever handed over again; messages still pile up. */
  lemma {:induction false} NothingHandedAfterStop<D>(iterations: int, burstSize: int, ops: seq<Op<D>>, more: seq<Op<D>>)
    ensures var s, n := Run(iterations, burstSize, ops), Run(iterations, burstSize, ops + [Stop] + more);
            n.stopped && n.batches == s.batches && s.buff <= n.buff && |n.buff| - |s.buff| == |n.added| - |s.added|
  {
    var all := ops + [Stop] + more;
    if |more| == 0 {
      assert all[..|all| - 1] == ops;
    } else {
      assert all[..|all| - 1] == ops + [Stop] + more[..|more| - 1];
      NothingHandedAfterStop(iterations, burstSize, ops, more[..|more| - 1]);
    }
  }

  // ---------------------------------------------------------------- the object

  /** The emitter; each method is one region under its mutex. `added` and `batches` record its history. */
  class BatchingEmitter<D> {
    const iterations: int
    const burstSize: int
    var buff: seq<Entry<D>>
    var stopFlag: bool
    ghost var added: seq<D>
    ghost var batches: seq<Batch<D>>

    ghost function View(): State<D>
      reads this
    {
      State(buff, stopFlag, added, batches)
    }

    constructor (iterations: int, burstSize: int)
      ensures this.iterations == iterations && this.burstSize == burstSize
      ensures View() == Run(iterations, burstSize, [])
    {
      this.iterations, this.burstSize := iterations, burstSize;
      buff, stopFlag, added, batches := [], false, [], [];
    }

    /** The in-place loop: an entry whose counter reaches zero is cut out and the index steps back. */
    method DecrementCounters()
      modifies this`buff
      ensures buff == Decrement(old(buff))
    {
      var n := |buff|;
      var i := 0;
      ghost var done := 0;
      while i < n
        invariant 0 <= i <= n == |buff|
        invariant 0 <= done <= |old(buff)|
        invariant n - i == |old(buff)| - done
        invariant buff[..i] == Decrement(old(buff)[..done])
        invariant buff[i..] == old(buff)[done..]
        decreases n - i
      {
        assert buff[i] == buff[i..][0] == old(buff)[done];
        assert old(buff)[..done + 1][..done] == old(buff)[..done];
        var msg := Entry(buff[i].data, buff[i].left - 1);
        buff := buff[i := msg];
        if msg.left == 0 {
          buff := buff[..i] + buff[i + 1..];
          n := n - 1;
          i := i - 1;
        }
        i := i + 1;
        done := done + 1;
      }
      assert buff[..i] == buff && old(buff)[..done] == old(buff);
    }

    /** Hands the buffered messages to the callback, then counts them down. */
    method Emit() returns (calls: seq<seq<D>>)
      modifies this`buff, this`batches
      ensures View() == EmitStep(old(View()))
      ensures calls == if old(stopFlag) || old(buff) == [] then [] else [Data(old(buff))]
    {
      if stopFlag || |buff| == 0 { return []; }
      var msgs := [];
      for i := 0 to |buff|
        invariant |msgs| == i && forall k :: 0 <= k < i ==> msgs[k] == buff[k].data
      {
        msgs := msgs + [buff[i].data];
      }
      assert msgs == Data(buff);
      calls := [msgs];
      batches := batches + [Batch(|added| - |buff|, msgs)];
      DecrementCounters();
    }

    method Add(msg: D) returns (calls: seq<seq<D>>)
      modifies this
      ensures View() == AddStep(iterations, burstSize, old(View()), msg)
      ensures calls == if old(stopFlag) || |old(buff)| + 1 < burstSize then [] else [Data(old(buff)) + [msg]]
    {
      buff := buff + [Entry(msg, iterations)];
      added := added + [msg];
      calls := [];
      if |buff| >= burstSize {
        assert Data(buff) == Data(old(buff)) + [msg];
        calls := Emit();
      }
    }

    method Stop()
      modifies this`stopFlag
      ensures View() == old(View()).(stopped := true)
    {
      stopFlag := true;
    }

    method Size() returns (n: nat)
      ensures n == |buff|
    {
      n := |buff|;
    }
  }
}
