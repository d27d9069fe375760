/**
 What becomes of a call from one chaincode to another, and of an execution from outside, decided by the state of the
 chaincode that is asked (core/chaincode/handler.go, core/chaincode/chaincode_support.go).
 */
module ChaincodeCalls {
  import opened Options
  import opened ChaincodeHandler
  import N = ChaincodeNetwork

  /** The state of an idle, ready handler. */
  lemma IdleIsFree(g: Handler)
    requires Inv(g) && g.caller == NoCaller && g.fsm == ReadyState
    ensures g.loop != Ended && g.tables.txCtxs == map[]
  {}

  /** The contexts of a handler are those of the execution it has not finished. */
  lemma ContextsAreExecution(g: Handler, x: Txid)
    requires Inv(g)
    ensures x in g.tables.txCtxs <==> N.Executes(g) == Some(x) && !g.caller.Done?
    ensures g.caller == NoCaller ==> g.fsm == ReadyState || g.fsm == End || g.fsm == Established
    ensures g.loop == Ended <==> g.fsm == End
  {}

  /** The call is accepted: `p` executes `t`, which starts on the transaction of the request. */
  ghost predicate Accepted(n: N.Network, p: Name, t: Name)
    requires p in n.handlers && N.WantsToInvoke(n.handlers[p])
  {
    && N.Enabled(n, N.Invoke(p, t)) && t in n.handlers && p != t
    && var m, x := N.Next(n, N.Invoke(p, t)), n.handlers[p].workers[0].req.txid;
       && m.handlers.Keys == n.handlers.Keys
       && m.handlers[t].caller == Marking(Message(TRANSACTION, x)) && m.handlers[t].from == Some(p)
       && m.handlers[t].tables.txCtxs == map[x := []]
       && N.Calls(m.handlers[p]) == Some(t) && m.handlers[p].caller == n.handlers[p].caller
       && (forall c :: c in n.handlers && c != p && c != t ==> m.handlers[c] == n.handlers[c])
  }

  lemma IdleBegins(g: Handler, x: Txid, p: Name)
    requires Inv(g) && g.caller == NoCaller && g.fsm == ReadyState
    ensures Enabled(g, Begin(x, TRANSACTION, Some(p)))
    ensures var n := Next(g, Begin(x, TRANSACTION, Some(p)));
            n.caller == Marking(Message(TRANSACTION, x)) && n.from == Some(p) && n.tables.txCtxs == map[x := []]
  {
    IdleIsFree(g);
  }

  lemma AcceptedShape(n: N.Network, p: Name, t: Name)
    requires N.Enabled(n, N.Invoke(p, t)) && !N.Refuses(n, n.handlers[p].workers[0].req.txid, t) && p != t
    requires Enabled(n.handlers[p], CallOut(t))
    requires var x, n1 := n.handlers[p].workers[0].req.txid, Next(n.handlers[p], CallOut(t));
             && N.Calls(n1) == Some(t) && n1.caller == n.handlers[p].caller
             && Enabled(n.handlers[t], Begin(x, TRANSACTION, Some(p)))
             && var n2 := Next(n.handlers[t], Begin(x, TRANSACTION, Some(p)));
                n2.caller == Marking(Message(TRANSACTION, x)) && n2.from == Some(p) && n2.tables.txCtxs == map[x := []]
    ensures Accepted(n, p, t)
  {}

  /** An idle, ready chaincode accepts every call, whatever it executed before. */
  lemma IdleAccepts(n: N.Network, p: Name, t: Name)
    requires N.NetInv(n) && p in n.handlers && N.WantsToInvoke(n.handlers[p])
    requires t in n.handlers && n.handlers[t].fsm == ReadyState && n.handlers[t].caller == NoCaller
    ensures Accepted(n, p, t)
  {
    IdleIsFree(n.handlers[t]);
    IdleBegins(n.handlers[t], n.handlers[p].workers[0].req.txid, p);
    N.CallOutLink(n.handlers[p], t);
    AcceptedShape(n, p, t);
  }

  /** When a call is refused, said of the chaincode asked for. */
  predicate MustRefuse(n: N.Network, x: Txid, t: Name)
  {
    || t !in n.handlers
    || n.handlers[t].fsm == End || n.handlers[t].fsm == Established || n.handlers[t].fsm == Init
    || (N.Executes(n.handlers[t]) == Some(x) && !n.handlers[t].caller.Done?)
  }

  lemma RefusesExactly(n: N.Network, x: Txid, t: Name)
    requires N.Each(n)
    ensures N.Refuses(n, x, t) <==> MustRefuse(n, x, t)
  {
    if t in n.handlers { ContextsAreExecution(n.handlers[t], x); }
  }

  lemma RefusedWhenItMust(n: N.Network, p: Name, t: Name)
    requires N.NetInv(n) && p in n.handlers && N.WantsToInvoke(n.handlers[p])
    requires MustRefuse(n, n.handlers[p].workers[0].req.txid, t)
    ensures N.Refused(n, p, t)
  {
    RefusesExactly(n, n.handlers[p].workers[0].req.txid, t);
    N.RefusedCallLink(n.handlers[p]);
    N.RefusedShape(n, p, t);
  }

  lemma BusyBlocks(n: N.Network, p: Name, t: Name)
    requires N.NetInv(n) && p in n.handlers && N.WantsToInvoke(n.handlers[p])
    requires !MustRefuse(n, n.handlers[p].workers[0].req.txid, t)
    ensures N.Enabled(n, N.Invoke(p, t)) <==> n.handlers[t].fsm == ReadyState && n.handlers[t].caller == NoCaller
  {
    RefusesExactly(n, n.handlers[p].workers[0].req.txid, t);
    ContextsAreExecution(n.handlers[t], n.handlers[p].workers[0].req.txid);
  }

  lemma AcceptedNotRefused(n: N.Network, p: Name, t: Name)
    requires p in n.handlers && N.WantsToInvoke(n.handlers[p])
    ensures !(Accepted(n, p, t) && N.Refused(n, p, t))
  {}

  /**
   The outcome of a call in every run: accepted if and only if the chaincode asked for is registered, ready and idle;
   refused, with an error and nothing else touched, if and only if it is not registered, has ended, is not running yet
   or is executing the same transaction; and otherwise it has to wait.
   */
  lemma CallOutcome(steps: seq<N.NetStep>, p: Name, t: Name)
    requires p in N.Run(steps).handlers && N.WantsToInvoke(N.Run(steps).handlers[p])
    ensures var n := N.Run(steps);
            && (Accepted(n, p, t) <==> t in n.handlers && n.handlers[t].fsm == ReadyState && n.handlers[t].caller == NoCaller)
            && (N.Refused(n, p, t) <==> MustRefuse(n, n.handlers[p].workers[0].req.txid, t))
  {
    N.RunKeepsNetInv(steps);
    OutcomeIn(N.Run(steps), p, t);
  }

  lemma OutcomeIn(n: N.Network, p: Name, t: Name)
    requires N.NetInv(n) && p in n.handlers && N.WantsToInvoke(n.handlers[p])
    ensures Accepted(n, p, t) <==> t in n.handlers && n.handlers[t].fsm == ReadyState && n.handlers[t].caller == NoCaller
    ensures N.Refused(n, p, t) <==> MustRefuse(n, n.handlers[p].workers[0].req.txid, t)
  {
    AcceptedNotRefused(n, p, t);
    if MustRefuse(n, n.handlers[p].workers[0].req.txid, t) {
      RefusedWhenItMust(n, p, t);
    } else {
      BusyBlocks(n, p, t);
      if n.handlers[t].fsm == ReadyState && n.handlers[t].caller == NoCaller { IdleAccepts(n, p, t); }
    }
  }

  // ---------------------------------------------------------------- from outside

  /** A chaincode that joins can be initialised, under any transaction. */
  lemma JoinedStarts(n: N.Network, c: Name, x: Txid, kind: Kind)
    requires c !in n.handlers && (kind == INIT || kind == READY)
    ensures N.Enabled(n, N.Join(c))
    ensures var m := N.Next(n, N.Join(c));
            && m.handlers.Keys == n.handlers.Keys + {c} && (forall d :: d in n.handlers ==> m.handlers[d] == n.handlers[d])
            && N.Enabled(m, N.Outside(c, x, kind))
            && N.Next(m, N.Outside(c, x, kind)).handlers[c].caller == Triggering(Message(kind, x), kind == READY)
  {}

  /** An execution from outside that is over just frees its chaincode. */
  lemma OutsideReturns(n: N.Network, c: Name, marshals: bool)
    requires c in n.handlers && n.handlers[c].caller.Done? && n.handlers[c].from.None?
    ensures N.Enabled(n, N.Return(c, marshals))
    ensures N.Next(n, N.Return(c, marshals)) == n.(handlers := n.handlers[c := n.handlers[c].(caller := NoCaller)])
  {}

  /** An execution from outside starts on an idle, ready chaincode, is refused where its transaction runs, or waits. */
  lemma OutsideOutcome(n: N.Network, c: Name, x: Txid)
    requires N.NetInv(n) && c in n.handlers
    ensures var s, h := N.Outside(c, x, TRANSACTION), n.handlers[c];
            && (N.Enabled(n, s) <==>
                  (h.fsm == ReadyState && h.caller == NoCaller) || (N.Executes(h) == Some(x) && !h.caller.Done?))
            && (h.fsm == ReadyState && h.caller == NoCaller ==>
                  var m := N.Next(n, s);
                  && m.handlers.Keys == n.handlers.Keys
                  && m.handlers[c].caller == Marking(Message(TRANSACTION, x)) && m.handlers[c].from == None
                  && m.handlers[c].tables.txCtxs == map[x := []]
                  && (forall d :: d in n.handlers && d != c ==> m.handlers[d] == n.handlers[d]))
            && (N.Executes(h) == Some(x) && !h.caller.Done? ==> N.Next(n, s) == n)
  {
    ContextsAreExecution(n.handlers[c], x);
    if n.handlers[c].caller == NoCaller && n.handlers[c].fsm == ReadyState { IdleIsFree(n.handlers[c]); }
  }
}
