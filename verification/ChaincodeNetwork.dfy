/**
 Chaincodes that call chaincodes (core/chaincode/handler.go, core/chaincode/chaincode_support.go): many handlers,
 each with the protocol of one stream, where a request of one may be an execution on another under the same
 transaction id. A chaincode that already executes the transaction refuses it again.
 */
module ChaincodeNetwork {
  import opened ChaincodeHandler
  import opened Options

  /** The running chaincodes. `depth` records how many calls each current execution is below an outside one. */
  datatype Network = Network(handlers: map<Name, Handler>, depth: map<Name, nat>)

  datatype NetStep =
    | Join(name: Name)                             // a chaincode registers
    | Outside(name: Name, txid: Txid, kind: Kind)  // an execution from outside
    | Local(name: Name, step: Step)                // a step of one stream
    | Invoke(name: Name, target: Name)             // Launch and Execute for a request of `name`
    | Return(name: Name, marshals: bool)           // an execution hands its result to whoever started it

  /** The transaction a handler executes, until it is handed over. */
  function Executes(h: Handler): Option<Txid>
  {
    match h.caller
    case NoCaller => None
    case Marking(m) => Some(m.txid)
    case Triggering(m, _) => Some(m.txid)
    case Awaiting(x) => Some(x)
    case Deleting(x, _) => Some(x)
    case Done(x, _) => Some(x)
  }

  /** The other chaincode a handler is currently executing. */
  function Calls(h: Handler): Option<Name>
  {
    if |h.workers| > 0 && h.workers[0].Nested? then Some(h.workers[0].target) else None
  }

  /** Steps that are not part of starting or handing over an execution. */
  predicate IsLocal(h: Handler, s: Step)
  {
    && !s.Begin? && !s.Finish? && !s.CallOut? && !s.CallBack?
    && !(s.WorkerStep? && |h.workers| > 0 && h.workers[0].Working? && h.workers[0].req.kind == INVOKE_CHAINCODE)
  }

  predicate WantsToInvoke(h: Handler)
  {
    && |h.workers| > 0 && h.workers[0].Working? && h.workers[0].req.kind == INVOKE_CHAINCODE
    && h.workers[0].req.txid in h.tables.txCtxs
  }

  /** Launch or Execute fails: no such chaincode, not running, or already executing this transaction. */
  predicate Refuses(n: Network, x: Txid, target: Name)
  {
    || target !in n.handlers
    || n.handlers[target].loop == Ended
    || n.handlers[target].fsm == Established || n.handlers[target].fsm == Init
    || x in n.handlers[target].tables.txCtxs
  }

  predicate Enabled(n: Network, s: NetStep)
  {
    match s
    case Join(c) => c !in n.handlers
    case Outside(c, x, kind) =>
      c in n.handlers && (x in n.handlers[c].tables.txCtxs || ChaincodeHandler.Enabled(n.handlers[c], Begin(x, kind, None)))
    case Local(c, step) =>
      c in n.handlers && IsLocal(n.handlers[c], step) && ChaincodeHandler.Enabled(n.handlers[c], step)
    case Invoke(p, target) =>
      && p in n.handlers && WantsToInvoke(n.handlers[p])
      && (Refuses(n, n.handlers[p].workers[0].req.txid, target) || MayBegin(n.handlers[target], TRANSACTION))
    case Return(c, _) =>
      && c in n.handlers && n.handlers[c].caller.Done?
      && (n.handlers[c].from.Some? ==>
            n.handlers[c].from.value in n.handlers && n.handlers[c].from.value != c
            && Calls(n.handlers[n.handlers[c].from.value]) == Some(c))
  }

  /** A nested execution is answered with its final message, an error too, unless that cannot be marshalled. */
  function Next(n: Network, s: NetStep): Network
    requires Enabled(n, s)
  {
    match s
    case Join(c) => n.(handlers := n.handlers[c := Registered])
    case Outside(c, x, kind) =>
      if x in n.handlers[c].tables.txCtxs then n
      else Network(n.handlers[c := ChaincodeHandler.Next(n.handlers[c], Begin(x, kind, None))], n.depth[c := 0])
    case Local(c, step) => n.(handlers := n.handlers[c := ChaincodeHandler.Next(n.handlers[c], step)])
    case Invoke(p, target) =>
      var h := n.handlers[p];
      var x := h.workers[0].req.txid;
      if Refuses(n, x, target) then n.(handlers := n.handlers[p := ChaincodeHandler.Next(h, WorkerStep(false))])
      else
        var callee := ChaincodeHandler.Next(n.handlers[target], Begin(x, TRANSACTION, Some(p)));
        Network(n.handlers[target := callee][p := ChaincodeHandler.Next(h, CallOut(target))],
                n.depth[target := (if p in n.depth then n.depth[p] else 0) + 1])
    case Return(c, marshals) =>
      var h := n.handlers[c];
      var done := n.handlers[c := ChaincodeHandler.Next(h, Finish)];
      if h.from.None? then n.(handlers := done)
      else
        var p := h.from.value;
        n.(handlers := done[p := ChaincodeHandler.Next(n.handlers[p], CallBack(marshals))])
  }

  const Nobody := Network(map[], map[])

  function Run(steps: seq<NetStep>): Network
  {
    if |steps| == 0 then Nobody
    else
      var before := Run(steps[..|steps| - 1]);
      if Enabled(before, steps[|steps| - 1]) then Next(before, steps[|steps| - 1]) else before
  }

  // ---------------------------------------------------------------- invariant

  ghost predicate Each(n: Network)
  {
    forall c :: c in n.handlers ==> Inv(n.handlers[c])
  }

  /** A caller's request and the callee's execution point at each other, under one transaction, one level down. */
  ghost predicate Linked(n: Network, p: Name, t: Name)
  {
    && p in n.handlers && t in n.handlers && p != t
    && Calls(n.handlers[p]) == Some(t) && n.handlers[t].from == Some(p)
    && Executes(n.handlers[p]).Some? && Executes(n.handlers[p]) == Executes(n.handlers[t])
    && p in n.depth && t in n.depth && n.depth[t] == n.depth[p] + 1
  }

  ghost predicate Links(n: Network)
  {
    && (forall p :: p in n.handlers && Calls(n.handlers[p]).Some? ==> Linked(n, p, Calls(n.handlers[p]).value))
    && (forall t :: t in n.handlers && n.handlers[t].caller != NoCaller ==>
          t in n.depth && (n.handlers[t].from.Some? ==> Linked(n, n.handlers[t].from.value, t)))
  }

  ghost predicate NetInv(n: Network) { Each(n) && Links(n) }

  // ---------------------------------------------------------------- what steps of one handler do to its links

  /** While a handler executes another chaincode, nothing moves on its own stream. */
  lemma CallingIsBlocked(h: Handler, s: Step)
    requires Inv(h) && IsLocal(h, s) && Calls(h).Some?
    ensures !ChaincodeHandler.Enabled(h, s)
  {}

  lemma WorkerKeepsLink(h: Handler, s: Step)
    requires Inv(h) && ChaincodeHandler.Enabled(h, s) && IsLocal(h, s) && Calls(h).None?
    requires s.WorkerStep? || s.WorkerTrigger?
    ensures var n := ChaincodeHandler.Next(h, s);
            Calls(n) == None && n.from == h.from && Executes(n) == Executes(h)
  {
    assert InProgress(h) && AtWorker(h, h.caller.txid) && h.workers[1..] == [];
  }

  /** The state machine only spawns goroutines and touches the tables. */
  lemma HandleMessageKeepsLink(h: Handler, msg: Message)
    requires Calls(h).None?
    ensures var n := HandleMessage(h, msg); Calls(n) == None && n.from == h.from && n.caller == h.caller
  {}

  lemma OtherKeepsLink(h: Handler, s: Step)
    requires ChaincodeHandler.Enabled(h, s) && IsLocal(h, s) && Calls(h).None? && !s.WorkerStep? && !s.WorkerTrigger?
    ensures var n := ChaincodeHandler.Next(h, s);
            Calls(n) == None && n.from == h.from && Executes(n) == Executes(h)
  {
    if s.Trigger? {
      HandleMessageKeepsLink(h, h.caller.msg);
    } else if s.LoopRecv? {
      HandleMessageKeepsLink(h.(toPeer := h.toPeer[1..]), h.toPeer[0]);
    }
  }

  lemma LocalKeepsLink(h: Handler, s: Step)
    requires Inv(h) && ChaincodeHandler.Enabled(h, s) && IsLocal(h, s)
    ensures var n := ChaincodeHandler.Next(h, s);
            Calls(n) == Calls(h) && n.from == h.from && Executes(n) == Executes(h)
  {
    if Calls(h).Some? {
      CallingIsBlocked(h, s);
    } else if s.WorkerStep? || s.WorkerTrigger? {
      WorkerKeepsLink(h, s);
    } else {
      OtherKeepsLink(h, s);
    }
  }

  lemma NotCallingAtRest(h: Handler)
    requires Inv(h) && (h.caller == NoCaller || h.caller.Done?)
    ensures Calls(h) == None
  {}

  lemma CallOutLink(h: Handler, target: Name)
    requires Inv(h) && WantsToInvoke(h)
    ensures ChaincodeHandler.Enabled(h, CallOut(target))
    ensures h.caller.Awaiting? && h.workers[0].req.txid == h.caller.txid && Calls(h) == None
    ensures var n := ChaincodeHandler.Next(h, CallOut(target));
            Calls(n) == Some(target) && n.from == h.from && n.caller == h.caller
  {}

  lemma RefusedCallLink(h: Handler)
    requires Inv(h) && WantsToInvoke(h)
    ensures ChaincodeHandler.Enabled(h, WorkerStep(false)) && Calls(h) == None
    ensures var n := ChaincodeHandler.Next(h, WorkerStep(false));
            && Calls(n) == None && n.from == h.from && n.caller == h.caller && n.tables == h.tables
            && n.workers == [Clearing(Message(ERROR, h.workers[0].req.txid), true)]
  {
    assert InProgress(h) && AtWorker(h, h.caller.txid) && h.workers[1..] == [];
  }

  lemma CallOutKeepsInv(h: Handler, target: Name)
    requires Inv(h) && WantsToInvoke(h)
    ensures Inv(ChaincodeHandler.Next(h, CallOut(target)))
  {}

  lemma CallBackLink(h: Handler, ok: bool)
    requires Inv(h) && Calls(h).Some?
    ensures ChaincodeHandler.Enabled(h, CallBack(ok))
    ensures var n := ChaincodeHandler.Next(h, CallBack(ok));
            Calls(n) == None && n.from == h.from && n.caller == h.caller && h.caller.Awaiting?
  {}

  lemma CalleeLink(g: Handler, x: Txid, p: Name)
    requires Inv(g) && MayBegin(g, TRANSACTION) && x !in g.tables.txCtxs
    ensures Calls(g) == None && ChaincodeHandler.Enabled(g, Begin(x, TRANSACTION, Some(p)))
    ensures var n := ChaincodeHandler.Next(g, Begin(x, TRANSACTION, Some(p)));
            Inv(n) && Calls(n) == None && n.from == Some(p) && Executes(n) == Some(x)
  {}

  /** An execution that is not done has its context. */
  lemma ExecutingHasContext(h: Handler)
    requires Inv(h) && Executes(h).Some? && !h.caller.Done?
    ensures Executes(h).value in h.tables.txCtxs
  {}

  // ---------------------------------------------------------------- each step keeps it

  /** Changing one handler without changing its links. */
  lemma ChangeKeepsLinks(n: Network, c: Name, h: Handler)
    requires Links(n) && c in n.handlers
    requires Calls(h) == Calls(n.handlers[c]) && h.from == n.handlers[c].from && Executes(h) == Executes(n.handlers[c])
    ensures Links(n.(handlers := n.handlers[c := h]))
  {
    var m := n.(handlers := n.handlers[c := h]);
    assert forall d :: d in m.handlers ==>
      Calls(m.handlers[d]) == Calls(n.handlers[d]) && m.handlers[d].from == n.handlers[d].from
      && Executes(m.handlers[d]) == Executes(n.handlers[d]);
    forall p, t | Linked(n, p, t) ensures Linked(m, p, t) {}
  }

  lemma ChangeKeepsEach(n: Network, c: Name, h: Handler)
    requires Each(n) && Inv(h)
    ensures Each(n.(handlers := n.handlers[c := h]))
  {}

  /** An execution begins at a handler that neither executes nor calls; `from` is None or already calls it. */
  lemma NewExecutionKeepsLinks(n: Network, c: Name, h: Handler, d: nat)
    requires Links(n)
    requires c in n.handlers ==> n.handlers[c].caller == NoCaller && Calls(n.handlers[c]).None?
    requires Calls(h).None? && h.from.None?
    ensures Links(Network(n.handlers[c := h], n.depth[c := d]))
  {}

  lemma JoinKeepsNetInv(n: Network, c: Name)
    requires NetInv(n) && c !in n.handlers
    ensures NetInv(Next(n, Join(c)))
  {
    ChangeKeepsEach(n, c, Registered);
    forall p, t | Linked(n, p, t) ensures Linked(Next(n, Join(c)), p, t) {}
  }

  lemma OutsideKeepsNetInv(n: Network, c: Name, x: Txid, kind: Kind)
    requires NetInv(n) && Enabled(n, Outside(c, x, kind))
    ensures NetInv(Next(n, Outside(c, x, kind)))
  {
    var h := n.handlers[c];
    if x !in h.tables.txCtxs {
      BeginKeepsInv(h, Begin(x, kind, None));
      NotCallingAtRest(h);
      ChangeKeepsEach(n, c, ChaincodeHandler.Next(h, Begin(x, kind, None)));
      NewExecutionKeepsLinks(n, c, ChaincodeHandler.Next(h, Begin(x, kind, None)), 0);
    }
  }

  /** `p` starts calling `t`, which begins executing the same transaction from `p`. */
  ghost predicate NewLink(n: Network, p: Name, t: Name, caller: Handler, callee: Handler)
  {
    && p in n.handlers && t in n.handlers && p != t
    && n.handlers[p].caller != NoCaller && Calls(n.handlers[p]).None?
    && n.handlers[t].caller == NoCaller && Calls(n.handlers[t]).None?
    && Calls(caller) == Some(t) && caller.from == n.handlers[p].from && caller.caller == n.handlers[p].caller
    && Calls(callee).None? && callee.from == Some(p) && Executes(callee) == Executes(caller)
  }

  lemma NewLinkKeepsLinks(n: Network, p: Name, t: Name, caller: Handler, callee: Handler, m: Network)
    requires Links(n) && NewLink(n, p, t, caller, callee)
    requires m.handlers == n.handlers[t := callee][p := caller]
    requires m.depth == n.depth[t := (if p in n.depth then n.depth[p] else 0) + 1]
    ensures Links(m)
  {
    assert Linked(m, p, t);
    forall q, u | Linked(n, q, u) ensures Linked(m, q, u) { assert q != t && u != t && q != p; }
  }

  lemma NewLinkKeepsEach(n: Network, p: Name, t: Name, caller: Handler, callee: Handler, m: Network)
    requires Each(n) && Inv(caller) && Inv(callee) && m.handlers == n.handlers[t := callee][p := caller]
    ensures Each(m)
  {}

  /** `caller` and `callee` are what the two handlers of a call become. */
  ghost predicate CallMakes(n: Network, p: Name, t: Name, caller: Handler, callee: Handler)
    requires Enabled(n, Invoke(p, t)) && !Refuses(n, n.handlers[p].workers[0].req.txid, t)
  {
    && caller == ChaincodeHandler.Next(n.handlers[p], CallOut(t))
    && callee == ChaincodeHandler.Next(n.handlers[t], Begin(n.handlers[p].workers[0].req.txid, TRANSACTION, Some(p)))
  }

  lemma InvokeShape(n: Network, p: Name, t: Name) returns (caller: Handler, callee: Handler)
    requires Enabled(n, Invoke(p, t)) && !Refuses(n, n.handlers[p].workers[0].req.txid, t)
    ensures CallMakes(n, p, t, caller, callee)
    ensures Next(n, Invoke(p, t)).handlers == n.handlers[t := callee][p := caller]
    ensures Next(n, Invoke(p, t)).depth == n.depth[t := (if p in n.depth then n.depth[p] else 0) + 1]
  {
    caller := ChaincodeHandler.Next(n.handlers[p], CallOut(t));
    callee := ChaincodeHandler.Next(n.handlers[t], Begin(n.handlers[p].workers[0].req.txid, TRANSACTION, Some(p)));
  }

  lemma InvokeLinks(n: Network, p: Name, t: Name, caller: Handler, callee: Handler)
    requires Each(n) && Enabled(n, Invoke(p, t)) && !Refuses(n, n.handlers[p].workers[0].req.txid, t)
    requires CallMakes(n, p, t, caller, callee)
    ensures NewLink(n, p, t, caller, callee) && Inv(caller) && Inv(callee)
  {
    CallOutLink(n.handlers[p], t);
    CallOutKeepsInv(n.handlers[p], t);
    CalleeLink(n.handlers[t], n.handlers[p].workers[0].req.txid, p);
  }

  lemma NewLinkKeepsNetInv(n: Network, p: Name, t: Name, caller: Handler, callee: Handler, m: Network)
    requires NetInv(n) && NewLink(n, p, t, caller, callee) && Inv(caller) && Inv(callee)
    requires m.handlers == n.handlers[t := callee][p := caller]
    requires m.depth == n.depth[t := (if p in n.depth then n.depth[p] else 0) + 1]
    ensures NetInv(m)
  {
    NewLinkKeepsLinks(n, p, t, caller, callee, m);
    NewLinkKeepsEach(n, p, t, caller, callee, m);
  }

  lemma InvokeKeepsNetInv(n: Network, p: Name, t: Name)
    requires NetInv(n) && Enabled(n, Invoke(p, t)) && !Refuses(n, n.handlers[p].workers[0].req.txid, t)
    ensures NetInv(Next(n, Invoke(p, t)))
  {
    var caller, callee := InvokeShape(n, p, t);
    InvokeLinks(n, p, t, caller, callee);
    NewLinkKeepsNetInv(n, p, t, caller, callee, Next(n, Invoke(p, t)));
  }

  /** `c` stops executing; whoever called it stops calling it. */
  lemma EndedLinkKeepsLinks(n: Network, c: Name, done: Handler, m: Network)
    requires Links(n) && c in n.handlers && n.handlers[c].caller != NoCaller && Calls(n.handlers[c]).None?
    requires done.caller == NoCaller && Calls(done).None? && m.depth == n.depth
    requires n.handlers[c].from.None? ==> m.handlers == n.handlers[c := done]
    requires n.handlers[c].from.Some? ==>
      var p := n.handlers[c].from.value;
      && p in m.handlers && p != c && m.handlers == n.handlers[c := done][p := m.handlers[p]]
      && Calls(m.handlers[p]).None? && m.handlers[p].from == n.handlers[p].from && m.handlers[p].caller == n.handlers[p].caller
    ensures Links(m)
  {
    forall q, u | Linked(n, q, u) && u != c ensures Linked(m, q, u) { assert q != c; }
  }

  lemma ReturnKeepsNetInv(n: Network, c: Name, marshals: bool)
    requires NetInv(n) && Enabled(n, Return(c, marshals))
    ensures NetInv(Next(n, Return(c, marshals)))
  {
    var h := n.handlers[c];
    NextKeepsInv(h, Finish);
    NotCallingAtRest(h);
    var done := ChaincodeHandler.Next(h, Finish);
    NotCallingAtRest(done);
    ChangeKeepsEach(n, c, done);
    if h.from.Some? {
      var p := h.from.value;
      CallBackLink(n.handlers[p], marshals);
      NextKeepsInv(n.handlers[p], CallBack(marshals));
      ChangeKeepsEach(n.(handlers := n.handlers[c := done]), p, ChaincodeHandler.Next(n.handlers[p], CallBack(marshals)));
    }
    EndedLinkKeepsLinks(n, c, done, Next(n, Return(c, marshals)));
  }

  lemma ChangeKeepsNetInv(n: Network, c: Name, h: Handler)
    requires NetInv(n) && c in n.handlers && Inv(h)
    requires Calls(h) == Calls(n.handlers[c]) && h.from == n.handlers[c].from && Executes(h) == Executes(n.handlers[c])
    ensures NetInv(n.(handlers := n.handlers[c := h]))
  {
    ChangeKeepsEach(n, c, h);
    ChangeKeepsLinks(n, c, h);
  }

  lemma NextKeepsNetInv(n: Network, s: NetStep)
    requires NetInv(n) && Enabled(n, s)
    ensures NetInv(Next(n, s))
  {
    match s
    case Join(c) => JoinKeepsNetInv(n, c);
    case Outside(c, x, kind) => OutsideKeepsNetInv(n, c, x, kind);
    case Local(c, step) =>
      LocalKeepsLink(n.handlers[c], step);
      NextKeepsInv(n.handlers[c], step);
      ChangeKeepsNetInv(n, c, ChaincodeHandler.Next(n.handlers[c], step));
    case Invoke(p, target) =>
      if Refuses(n, n.handlers[p].workers[0].req.txid, target) {
        RefusedCallLink(n.handlers[p]);
        NextKeepsInv(n.handlers[p], WorkerStep(false));
        ChangeKeepsNetInv(n, p, ChaincodeHandler.Next(n.handlers[p], WorkerStep(false)));
      } else {
        InvokeKeepsNetInv(n, p, target);
      }
    case Return(c, marshals) => ReturnKeepsNetInv(n, c, marshals);
  }

  lemma {:induction false} RunKeepsNetInv(steps: seq<NetStep>)
    ensures NetInv(Run(steps))
  {
    if |steps| > 0 {
      var before := Run(steps[..|steps| - 1]);
      RunKeepsNetInv(steps[..|steps| - 1]);
      if Enabled(before, steps[|steps| - 1]) { NextKeepsNetInv(before, steps[|steps| - 1]); }
    }
  }

  // ---------------------------------------------------------------- results

  /** Nested executions break no stream's protocol: no request fails, and each has one reply but for one awaited. */
  lemma NoRequestFailsAnywhere(steps: seq<NetStep>, c: Name)
    requires c in Run(steps).handlers
    ensures var h := Run(steps).handlers[c];
            h.fault == None && h.requests == h.replies + (if h.cc.Waiting? then 1 else 0) && h.notified <= 1
  {
    RunKeepsNetInv(steps);
    assert Inv(Run(steps).handlers[c]);
  }

  /** A chain of nested executions: each chaincode is executing the next one. */
  ghost predicate Chain(n: Network, path: seq<Name>)
  {
    && (forall i :: 0 <= i < |path| ==> path[i] in n.handlers)
    && (forall i :: 0 <= i < |path| - 1 ==> Calls(n.handlers[path[i]]) == Some(path[i + 1]))
  }

  lemma {:induction false} ChainGoesDown(n: Network, path: seq<Name>, i: nat, j: nat)
    requires NetInv(n) && Chain(n, path) && i < j < |path|
    ensures path[i] in n.depth && path[j] in n.depth && n.depth[path[i]] < n.depth[path[j]]
    ensures Executes(n.handlers[path[i]]) == Executes(n.handlers[path[j]])
    decreases j
  {
    assert Linked(n, path[j - 1], path[j]);
    if i < j - 1 { ChainGoesDown(n, path, i, j - 1); }
  }

  lemma {:induction false} DistinctBounded(path: seq<Name>, names: set<Name>)
    requires forall i :: 0 <= i < |path| ==> path[i] in names
    requires forall i, j :: 0 <= i < j < |path| ==> path[i] != path[j]
    ensures |path| <= |names|
  {
    if |path| > 0 {
      var last := path[|path| - 1];
      DistinctBounded(path[..|path| - 1], names - {last});
      assert |names - {last}| == |names| - 1;
    }
  }

  /**
   In every run, in any chain of nested executions the chaincodes are pairwise distinct and under one transaction
   id, so a chain is never longer than the number of running chaincodes.
   */
  lemma ChainsAreSimple(steps: seq<NetStep>, path: seq<Name>)
    requires Chain(Run(steps), path)
    ensures forall i, j :: 0 <= i < j < |path| ==> path[i] != path[j]
    ensures forall i, j :: 0 <= i < j < |path| ==>
      Executes(Run(steps).handlers[path[i]]) == Executes(Run(steps).handlers[path[j]])
    ensures |path| <= |Run(steps).handlers.Keys|
  {
    RunKeepsNetInv(steps);
    var n := Run(steps);
    forall i, j | 0 <= i < j < |path|
      ensures path[i] != path[j] && Executes(n.handlers[path[i]]) == Executes(n.handlers[path[j]])
    {
      ChainGoesDown(n, path, i, j);
    }
    DistinctBounded(path, n.handlers.Keys);
  }

  /**
   The call of `p` to `target` is refused before any stream is touched: every context, including the outer one, stays
   in place, and only the asking request gets an error reply.
   */
  ghost predicate Refused(n: Network, p: Name, target: Name)
    requires p in n.handlers && WantsToInvoke(n.handlers[p])
  {
    && Enabled(n, Invoke(p, target))
    && var m := Next(n, Invoke(p, target));
       && m.handlers.Keys == n.handlers.Keys
       && (forall c :: c in n.handlers ==> m.handlers[c].tables.txCtxs == n.handlers[c].tables.txCtxs)
       && (forall c :: c in n.handlers && c != p ==> m.handlers[c] == n.handlers[c])
       && m.handlers[p].workers == [Clearing(Message(ERROR, n.handlers[p].workers[0].req.txid), true)]
  }

  lemma RefusedShape(n: Network, p: Name, target: Name)
    requires p in n.handlers && WantsToInvoke(n.handlers[p])
    requires Refuses(n, n.handlers[p].workers[0].req.txid, target)
    requires ChaincodeHandler.Enabled(n.handlers[p], WorkerStep(false))
    requires ChaincodeHandler.Next(n.handlers[p], WorkerStep(false)).tables == n.handlers[p].tables
    requires ChaincodeHandler.Next(n.handlers[p], WorkerStep(false)).workers ==
             [Clearing(Message(ERROR, n.handlers[p].workers[0].req.txid), true)]
    ensures Refused(n, p, target)
  {}

  /** `p` asks for `target`, which is executing the same transaction. */
  predicate Reenters(n: Network, p: Name, target: Name)
  {
    && p in n.handlers && WantsToInvoke(n.handlers[p]) && target in n.handlers
    && Executes(n.handlers[target]) == Some(n.handlers[p].workers[0].req.txid)
    && !n.handlers[target].caller.Done?
  }

  lemma ReentryRefused(n: Network, p: Name, target: Name)
    requires Each(n) && Reenters(n, p, target)
    ensures Refused(n, p, target)
  {
    RefusedCallLink(n.handlers[p]);
    ExecutingHasContext(n.handlers[target]);
    RefusedShape(n, p, target);
  }

  /** A chaincode that already executes the transaction refuses to execute it again. */
  lemma RefusedReentry(steps: seq<NetStep>, p: Name, target: Name)
    requires Reenters(Run(steps), p, target)
    ensures Refused(Run(steps), p, target)
  {
    RunKeepsNetInv(steps);
    ReentryRefused(Run(steps), p, target);
  }

  lemma InvokingExecutes(h: Handler)
    requires Inv(h) && WantsToInvoke(h)
    ensures Executes(h) == Some(h.workers[0].req.txid) && !h.caller.Done?
  {}

  lemma CallingNotDone(h: Handler)
    requires Inv(h) && Calls(h).Some?
    ensures !h.caller.Done?
  {}

  /** A chaincode of a chain has not finished, */
  lemma ChainNotDone(n: Network, path: seq<Name>, i: nat)
    requires Each(n) && Chain(n, path) && i < |path| - 1
    ensures !n.handlers[path[i]].caller.Done?
  {
    assert Calls(n.handlers[path[i]]) == Some(path[i + 1]);
    CallingNotDone(n.handlers[path[i]]);
  }

  /** and executes the chain's transaction. */
  lemma ChainExecutes(n: Network, path: seq<Name>, i: nat)
    requires NetInv(n) && Chain(n, path) && i < |path| && WantsToInvoke(n.handlers[path[|path| - 1]])
    ensures Executes(n.handlers[path[i]]) == Some(n.handlers[path[|path| - 1]].workers[0].req.txid)
    ensures !n.handlers[path[|path| - 1]].caller.Done?
  {
    InvokingExecutes(n.handlers[path[|path| - 1]]);
    if i < |path| - 1 { ChainGoesDown(n, path, i, |path| - 1); }
  }

  lemma ChainReenters(n: Network, path: seq<Name>, i: nat)
    requires NetInv(n) && Chain(n, path) && i < |path| && WantsToInvoke(n.handlers[path[|path| - 1]])
    ensures Reenters(n, path[|path| - 1], path[i])
  {
    ChainExecutes(n, path, i);
    if i < |path| - 1 { ChainNotDone(n, path, i); }
  }

  /** In every run, the last chaincode of a chain cannot call back into any chaincode of the chain, itself included. */
  lemma ChainCannotReenter(steps: seq<NetStep>, path: seq<Name>, i: nat)
    requires Chain(Run(steps), path) && i < |path| && WantsToInvoke(Run(steps).handlers[path[|path| - 1]])
    ensures Refused(Run(steps), path[|path| - 1], path[i])
  {
    RunKeepsNetInv(steps);
    ChainReenters(Run(steps), path, i);
    RefusedReentry(steps, path[|path| - 1], path[i]);
  }

  lemma CallBackAnswers(h: Handler, ok: bool)
    requires Inv(h) && Calls(h).Some?
    ensures ChaincodeHandler.Enabled(h, CallBack(ok)) && h.caller.Awaiting?
    ensures ChaincodeHandler.Next(h, CallBack(ok)) ==
            h.(workers := [Clearing(Message(if ok then RESPONSE else ERROR, h.caller.txid), true)])
  {
    assert InProgress(h) && AtWorker(h, h.caller.txid) && h.workers[1..] == [];
  }

  lemma ReturnShape(n: Network, c: Name, marshals: bool)
    requires Enabled(n, Return(c, marshals)) && n.handlers[c].from.Some?
    requires ChaincodeHandler.Enabled(n.handlers[n.handlers[c].from.value], CallBack(marshals))
    ensures Next(n, Return(c, marshals)).handlers ==
            n.handlers[c := n.handlers[c].(caller := NoCaller)]
                      [n.handlers[c].from.value := ChaincodeHandler.Next(n.handlers[n.handlers[c].from.value], CallBack(marshals))]
  {}

  lemma ReturnEnabled(n: Network, c: Name, marshals: bool)
    requires NetInv(n) && c in n.handlers && n.handlers[c].caller.Done? && n.handlers[c].from.Some?
    ensures Enabled(n, Return(c, marshals))
    ensures var p := n.handlers[n.handlers[c].from.value];
            && p.caller.Awaiting? && p.caller.txid == n.handlers[c].caller.txid
            && ChaincodeHandler.Enabled(p, CallBack(marshals))
            && ChaincodeHandler.Next(p, CallBack(marshals)) ==
               p.(workers := [Clearing(Message(if marshals then RESPONSE else ERROR, p.caller.txid), true)])
  {
    var p := n.handlers[c].from.value;
    assert Linked(n, p, c);
    CallBackAnswers(n.handlers[p], marshals);
  }

  /**
   When a nested execution is over, exactly the request that started it is answered, under the transaction both
   execute; the callee is free again and no other stream is touched.
   */
  lemma ReturnAnswersCaller(steps: seq<NetStep>, c: Name, marshals: bool)
    requires var n := Run(steps); c in n.handlers && n.handlers[c].caller.Done? && n.handlers[c].from.Some?
    ensures var n := Run(steps);
            var h, p := n.handlers[c], n.handlers[c].from.value;
            && Enabled(n, Return(c, marshals)) && p in n.handlers && p != c
            && Next(n, Return(c, marshals)).handlers ==
               n.handlers[c := h.(caller := NoCaller)]
                         [p := n.handlers[p].(workers := [Clearing(Message(if marshals then RESPONSE else ERROR, h.caller.txid), true)])]
  {
    RunKeepsNetInv(steps);
    ReturnEnabled(Run(steps), c, marshals);
    ReturnShape(Run(steps), c, marshals);
  }

  // ---------------------------------------------------------------- nobody waits for ever on a cycle

  /** A handler that executes something and is not itself waiting for another chaincode can take a step. */
  lemma ActiveCanStep(h: Handler) returns (s: Step)
    requires Inv(h) && h.caller != NoCaller && !h.caller.Done? && Calls(h).None? && !WantsToInvoke(h)
    ensures ChaincodeHandler.Enabled(h, s) && IsLocal(h, s) && ChaincodeHandler.Next(h, s) != h
  {
    if h.cc.Waiting? {
      s := SomeStepEnabled(h);
      EveryStepHelps(h, s);
      assert InProgress(h);
    } else if h.caller.Marking? {
      s := Mark;
    } else if h.caller.Triggering? {
      s := if h.loop.Sending? then LoopSend else Trigger;
    } else if h.caller.Deleting? {
      s := Delete;
    } else if AtRest(h) {
      s := Await;
    } else {
      s := RunningCanStep(h);
    }
  }

  /** The chaincode's own turn, or a message on its way between it and the peer. */
  lemma RunningCanStep(h: Handler) returns (s: Step)
    requires Inv(h) && InProgress(h) && !h.cc.Waiting?
    ensures ChaincodeHandler.Enabled(h, s) && IsLocal(h, s) && ChaincodeHandler.Next(h, s) != h
  {
    if h.cc.Running? {
      s := CcFinish(true);
    } else if h.toPeer != [] {
      s := if h.loop.Sending? then LoopSend else LoopRecv;
      assert |h.toPeer[1..]| < |h.toPeer|;
    } else {
      assert AtStart(h, h.caller.txid);
      s := if h.loop.Sending? then LoopSend else CcReceive;
      assert h.toCC != [] ==> |h.toCC[1..]| < |h.toCC|;
    }
  }

  /** The request of `p` names a chaincode that is busy and would not refuse: executions would overlap there. */
  predicate Overlaps(n: Network, p: Name, target: Name)
  {
    && p in n.handlers && WantsToInvoke(n.handlers[p])
    && !Refuses(n, n.handlers[p].workers[0].req.txid, target) && n.handlers[target].caller != NoCaller
  }

  /** `s` is the next thing to happen to the execution at `c`: a step of its stream, its call, or its return. */
  predicate Moves(n: Network, s: NetStep, c: Name, target: Name)
  {
    && s.name == c && (s.Local? || s.Return? || (s.Invoke? && s.target == target))
    && (Enabled(n, s) <==> !(s.Invoke? && Overlaps(n, c, target)))
    && (Enabled(n, s) ==> Next(n, s) != n)
  }

  lemma InvokeMoves(n: Network, c: Name, target: Name)
    requires NetInv(n) && c in n.handlers && WantsToInvoke(n.handlers[c])
    ensures Moves(n, Invoke(c, target), c, target)
  {
    var s, h := Invoke(c, target), n.handlers[c];
    assert Inv(h);
    CallOutLink(h, target);
    RefusedCallLink(h);
    if Enabled(n, s) {
      assert Next(n, s).handlers[c] != h;
    }
  }

  lemma ReturnMoves(n: Network, c: Name, target: Name)
    requires NetInv(n) && c in n.handlers && n.handlers[c].caller.Done?
    ensures Moves(n, Return(c, true), c, target)
  {
    var s, h := Return(c, true), n.handlers[c];
    if h.from.Some? { assert Linked(n, h.from.value, c); }
    assert Next(n, s).handlers[c].caller == NoCaller;
  }

  lemma LocalMoves(n: Network, c: Name, target: Name) returns (s: NetStep)
    requires NetInv(n) && c in n.handlers && n.handlers[c].caller != NoCaller && !n.handlers[c].caller.Done?
    requires Calls(n.handlers[c]).None? && !WantsToInvoke(n.handlers[c])
    ensures Moves(n, s, c, target)
  {
    var step := ActiveCanStep(n.handlers[c]);
    s := Local(c, step);
    assert Next(n, s).handlers[c] != n.handlers[c];
  }

  /**
   Follow the calls down from any execution: the chain ends at an execution that can take its next step, and the step
   changes something. So nested executions never wait for each other in a circle. `target` is the chaincode that a
   request at the end of the chain names; the step is blocked exactly when executions would overlap there.
   */
  lemma {:induction false} SomebodyMoves(n: Network, c: Name, above: set<Name>, target: Name)
    returns (path: seq<Name>, s: NetStep)
    requires NetInv(n) && c in n.handlers && n.handlers[c].caller != NoCaller
    requires above <= n.handlers.Keys && forall a :: a in above ==> a in n.depth && n.depth[a] < n.depth[c]
    ensures |path| > 0 && path[0] == c && Chain(n, path) && Moves(n, s, path[|path| - 1], target)
    decreases n.handlers.Keys - above
  {
    var h := n.handlers[c];
    path := [c];
    if Calls(h).Some? {
      var t := Calls(h).value;
      assert Linked(n, c, t);
      assert c !in above;
      assert n.handlers.Keys - (above + {c}) < n.handlers.Keys - above by { assert c in n.handlers.Keys - above; }
      path, s := SomebodyMoves(n, t, above + {c}, target);
      path := [c] + path;
    } else if h.caller.Done? {
      s := Return(c, true);
      ReturnMoves(n, c, target);
    } else if WantsToInvoke(h) {
      s := Invoke(c, target);
      InvokeMoves(n, c, target);
    } else {
      s := LocalMoves(n, c, target);
    }
  }

  /** In every run, below everything that executes there is an execution whose next step can be taken and gets somewhere. */
  lemma NoCircularWait(steps: seq<NetStep>, c: Name, target: Name) returns (path: seq<Name>, s: NetStep)
    requires var n := Run(steps); c in n.handlers && n.handlers[c].caller != NoCaller
    ensures |path| > 0 && path[0] == c && Chain(Run(steps), path)
    ensures Moves(Run(steps), s, path[|path| - 1], target)
  {
    RunKeepsNetInv(steps);
    path, s := SomebodyMoves(Run(steps), c, {}, target);
  }
}
