/**
 The event hub's objects (events/producer/events.go, events/producer/handler.go): the handler lists, the
 processor that picks one by event type, and a client's handler with its index of registered interests. The
 methods are proved to take exactly the steps of the hub model.
 */
module EventProducer {
  import opened EventHandlers
  import opened EventHub
  import opened Options

  /** A set of handlers, for event types with no finer registration. */
  class GenericHandlerList {
    var handlers: set<Client>

    constructor ()
      ensures handlers == {}
    {
      handlers := {};
    }

    method Add(h: Client) returns (ok: bool)
      modifies this
      ensures ok <==> h !in old(handlers)
      ensures handlers == old(handlers) + {h}
    {
      if h in handlers { return false; }
      handlers := handlers + {h};
      ok := true;
    }

    method Del(h: Client) returns (ok: bool)
      modifies this
      ensures ok <==> h in old(handlers)
      ensures handlers == old(handlers) - {h}
    {
      if h !in handlers { return false; }
      handlers := handlers - {h};
      ok := true;
    }

    method Foreach() returns (calls: seq<Client>)
      ensures multiset(calls) == multiset(handlers)
    {
      calls := CallAll(handlers);
    }
  }

  /** The processor with the three lists it is initialised with. `regs` is the set of registrations they hold. */
  class EventProcessor {
    const block: GenericHandlerList
    const chaincode: ChaincodeHandlerList
    const rejection: GenericHandlerList
    ghost var regs: set<(Entry, Client)>

    ghost predicate Stored(e: Entry, c: Client)
      reads block, chaincode, rejection
    {
      match e
      case Block => c in block.handlers
      case Rejection => c in rejection.handlers
      case Chaincode(id, event) => Has(chaincode.handlers, id, event, c)
    }

    ghost predicate Valid()
      reads this, block, chaincode, rejection
    {
      && block != rejection && chaincode.Valid()
      && forall e, c :: (e, c) in regs <==> Stored(e, c)
    }

    constructor ()
      ensures Valid() && regs == {}
      ensures fresh(block) && fresh(chaincode) && fresh(rejection)
    {
      block := new GenericHandlerList();
      chaincode := new ChaincodeHandlerList();
      rejection := new GenericHandlerList();
      regs := {};
    }

    /** Adds exactly the registration asked for; refuses an unknown type, missing information or a repeat. */
    method RegisterHandler(ie: Interest, h: Client) returns (ok: bool)
      requires Valid()
      modifies this, block, chaincode, rejection
      ensures Valid()
      ensures ok <==> EntryOf(ie).Some? && (EntryOf(ie).value, h) !in old(regs)
      ensures regs == if ok then old(regs) + {(EntryOf(ie).value, h)} else old(regs)
    {
      assert EntryOf(ie).Some? ==> ((EntryOf(ie).value, h) in regs <==> Stored(EntryOf(ie).value, h));
      if ie.eventType == BLOCK {
        ok := block.Add(h);
      } else if ie.eventType == REJECTION {
        ok := rejection.Add(h);
      } else if ie.eventType == CHAINCODE {
        var err := chaincode.Add(ie.regInfo, h);
        ok := err.None?;
      } else {
        return false;
      }
      if ok { regs := regs + {(EntryOf(ie).value, h)}; }
    }

    /** Removes exactly the registration asked for, or fails and changes nothing. */
    method DeRegisterHandler(ie: Interest, h: Client) returns (ok: bool)
      requires Valid()
      modifies this, block, chaincode, rejection
      ensures Valid()
      ensures ok <==> EntryOf(ie).Some? && (EntryOf(ie).value, h) in old(regs)
      ensures regs == if ok then old(regs) - {(EntryOf(ie).value, h)} else old(regs)
    {
      assert EntryOf(ie).Some? ==> ((EntryOf(ie).value, h) in regs <==> Stored(EntryOf(ie).value, h));
      if ie.eventType == BLOCK {
        ok := block.Del(h);
      } else if ie.eventType == REJECTION {
        ok := rejection.Del(h);
      } else if ie.eventType == CHAINCODE {
        var err := chaincode.Del(ie.regInfo, h);
        ok := err.None?;
      } else {
        return false;
      }
      if ok { regs := regs - {(EntryOf(ie).value, h)}; }
    }
  }

  function RunFrom(h: Hub, steps: seq<Step>): Hub
  {
    if |steps| == 0 then h else Next(RunFrom(h, steps[..|steps| - 1]), steps[|steps| - 1])
  }

  function Registers(c: Client, iMsg: seq<Interest>): (r: seq<Step>)
    ensures |r| == |iMsg| && forall i :: 0 <= i < |r| ==> r[i] == Step.Register(c, iMsg[i])
  {
    seq(|iMsg|, i requires 0 <= i < |iMsg| => Step.Register(c, iMsg[i]))
  }

  function Deregisters(c: Client, iMsg: seq<Interest>): (r: seq<Step>)
    ensures |r| == |iMsg| && forall i :: 0 <= i < |r| ==> r[i] == Step.Deregister(c, iMsg[i])
  {
    seq(|iMsg|, i requires 0 <= i < |iMsg| => Step.Deregister(c, iMsg[i]))
  }

  /** The registration that `k` names in the index is refused, missing, or named by another key too. */
  ghost predicate Stays(regs: set<(Entry, Client)>, c: Client, index: map<string, Interest>, k: string)
    requires k in index
  {
    || EntryOf(index[k]).None? || (EntryOf(index[k]).value, c) !in regs
    || exists j :: j in index && j != k && EntryOf(index[j]) == EntryOf(index[k])
  }

  lemma ExactDoesNotStay(h: Hub, c: Client, k: string)
    requires c in h.index && IndexExact(h, c) && k in h.index[c]
    ensures !Stays(h.regs, c, h.index[c], k)
  {
    var index := h.index[c];
    assert Holds(h, EntryOf(index[k]).value, c);
    forall j | j in index && EntryOf(index[j]) == EntryOf(index[k]) ensures j == k {}
  }

  /** One client's handler. `View` is the hub as this client sees it: all registrations, its own index. */
  class EventHandler {
    const me: Client
    const ep: EventProcessor
    var interestedEvents: map<string, Interest>
    var stopped: bool

    ghost function View(): Hub
      reads this, ep
    {
      Hub(ep.regs, if stopped then map[] else map[me := interestedEvents])
    }

    constructor (me: Client, ep: EventProcessor)
      ensures this.me == me && this.ep == ep && !stopped && interestedEvents == map[]
    {
      this.me, this.ep, interestedEvents, stopped := me, ep, map[], false;
    }

    method RegisterOne(i: Interest)
      requires ep.Valid() && !stopped
      modifies this`interestedEvents, ep, ep.block, ep.chaincode, ep.rejection
      ensures ep.Valid() && View() == Next(old(View()), Step.Register(me, i))
    {
      var ok := ep.RegisterHandler(i, me);
      if ok {
        interestedEvents := interestedEvents[InterestKey(i) := i];
      }
    }

    method DeregisterOne(i: Interest)
      requires ep.Valid() && !stopped
      modifies this`interestedEvents, ep, ep.block, ep.chaincode, ep.rejection
      ensures ep.Valid() && View() == Next(old(View()), Step.Deregister(me, i))
    {
      var ok := ep.DeRegisterHandler(i, me);
      if ok {
        interestedEvents := interestedEvents - {InterestKey(i)};
      }
    }

    /** Registers each interest of a message; one that is refused is skipped. */
    method Register(iMsg: seq<Interest>)
      requires ep.Valid() && !stopped
      modifies this`interestedEvents, ep, ep.block, ep.chaincode, ep.rejection
      ensures ep.Valid() && View() == RunFrom(old(View()), Registers(me, iMsg))
    {
      ghost var steps := Registers(me, iMsg);
      for n := 0 to |iMsg|
        invariant ep.Valid() && View() == RunFrom(old(View()), steps[..n])
      {
        assert steps[..n + 1][..n] == steps[..n];
        RegisterOne(iMsg[n]);
      }
      assert steps[..|iMsg|] == steps;
    }

    method Deregister(iMsg: seq<Interest>)
      requires ep.Valid() && !stopped
      modifies this`interestedEvents, ep, ep.block, ep.chaincode, ep.rejection
      ensures ep.Valid() && View() == RunFrom(old(View()), Deregisters(me, iMsg))
    {
      ghost var steps := Deregisters(me, iMsg);
      for n := 0 to |iMsg|
        invariant ep.Valid() && View() == RunFrom(old(View()), steps[..n])
      {
        assert steps[..n + 1][..n] == steps[..n];
        DeregisterOne(iMsg[n]);
      }
      assert steps[..|iMsg|] == steps;
    }

    /**
     Deregisters everything the index names, deleting from the index while going through it. An index that matches the
     registrations ends empty; in general an entry stays only if its registration was missing or named twice.
     */
    method DeregisterAll()
      requires ep.Valid()
      modifies this`interestedEvents, ep, ep.block, ep.chaincode, ep.rejection
      ensures ep.Valid() && ep.regs == old(ep.regs) - Named(me, old(interestedEvents))
      ensures forall k :: k in interestedEvents ==> k in old(interestedEvents) && Stays(old(ep.regs), me, old(interestedEvents), k)
      ensures !stopped && IndexExact(old(View()), me) ==> interestedEvents == map[]
    {
      ghost var index := interestedEvents;
      var todo := interestedEvents.Keys;
      while todo != {}
        invariant todo <= index.Keys && todo <= interestedEvents.Keys
        invariant forall k :: k in todo ==> interestedEvents[k] == index[k]
        invariant ep.Valid()
        invariant interestedEvents.Keys <= index.Keys
        invariant forall k :: k in interestedEvents && k !in todo ==> Stays(old(ep.regs), me, index, k)
        invariant ep.regs == old(ep.regs) - Named(me, map k | k in index && k !in todo :: index[k])
        decreases todo
      {
        var k :| k in todo;
        var v := interestedEvents[k];
        NamedStep(me, index, todo, k);
        assert EntryOf(v).Some? && (EntryOf(v).value, me) !in ep.regs ==> Stays(old(ep.regs), me, index, k);
        var ok := ep.DeRegisterHandler(v, me);
        if ok { interestedEvents := interestedEvents - {k}; }
        todo := todo - {k};
      }
      assert (map k | k in index && k !in todo :: index[k]) == index;
      if !stopped && IndexExact(old(View()), me) {
        forall k | k in index ensures !Stays(old(ep.regs), me, index, k) { ExactDoesNotStay(old(View()), me, k); }
        assert interestedEvents.Keys == {};
      }
    }

    /** The end of a client's connection. */
    method Stop()
      requires ep.Valid() && !stopped
      modifies this, ep, ep.block, ep.chaincode, ep.rejection
      ensures ep.Valid() && View() == Next(old(View()), Step.Stop(me))
    {
      DeregisterAll();
      interestedEvents, stopped := map[], true;
      assert old(View()).index - {me} == map[];
    }
  }

  lemma NamedStep(c: Client, index: map<string, Interest>, todo: set<string>, k: string)
    requires k in todo && todo <= index.Keys
    ensures Named(c, map j | j in index && j !in todo - {k} :: index[j]) ==
            Named(c, map j | j in index && j !in todo :: index[j]) +
            (if EntryOf(index[k]).Some? then {(EntryOf(index[k]).value, c)} else {})
  {
    var some, more := map j | j in index && j !in todo :: index[j], map j | j in index && j !in todo - {k} :: index[j];
    forall p | p in Named(c, some) ensures p in Named(c, more) {
      var j :| j in some && EntryOf(some[j]).Some? && p == (EntryOf(some[j]).value, c);
      assert j in more && more[j] == some[j];
    }
    forall p | p in Named(c, more)
      ensures p in Named(c, some) || (EntryOf(index[k]).Some? && p == (EntryOf(index[k]).value, c))
    {
      var j :| j in more && EntryOf(more[j]).Some? && p == (EntryOf(more[j]).value, c);
      if j != k { assert j in some && some[j] == more[j]; }
    }
    if EntryOf(index[k]).Some? { assert k in more && more[k] == index[k]; }
  }
}
