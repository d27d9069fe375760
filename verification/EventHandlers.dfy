/**
 The chaincode handler list of the event hub (events/producer/events.go): a map from chaincode id to a map from
 event name to a set of handlers, kept in step with the set of (chaincode, event, handler) triples it stands for.
 */
module EventHandlers {
  import opened Options

  /** A client's event handler, known by identity only. */
  type Client(==, !new)

  datatype ChaincodeReg = ChaincodeReg(chaincodeId: string, eventName: string)

  type EventMap = map<string, set<Client>>
  type HandlerMap = map<string, EventMap>

  /** The triples a handler map stands for. */
  ghost predicate Has(m: HandlerMap, cc: string, ev: string, h: Client)
  {
    cc in m && ev in m[cc] && h in m[cc][ev]
  }

  /** No inner map is empty. */
  ghost predicate NoEmpty(m: HandlerMap)
  {
    && (forall cc :: cc in m ==> m[cc] != map[])
    && (forall cc, ev :: cc in m && ev in m[cc] ==> m[cc][ev] != {})
  }

  /** `n` has exactly the triples of `m` and (cc, ev, h). */
  ghost predicate AddsOne(m: HandlerMap, n: HandlerMap, cc: string, ev: string, h: Client)
  {
    forall c, e, k :: Has(n, c, e, k) <==> Has(m, c, e, k) || (c == cc && e == ev && k == h)
  }

  /** `n` has exactly the triples of `m` other than (cc, ev, h). */
  ghost predicate RemovesOne(m: HandlerMap, n: HandlerMap, cc: string, ev: string, h: Client)
  {
    forall c, e, k :: Has(n, c, e, k) <==> Has(m, c, e, k) && !(c == cc && e == ev && k == h)
  }

  /** The triples determine the map: with no empty inner map there is one representation of each set of triples. */
  lemma TriplesDetermineMap(m: HandlerMap, n: HandlerMap)
    requires NoEmpty(m) && NoEmpty(n)
    requires forall cc, ev, h :: Has(m, cc, ev, h) <==> Has(n, cc, ev, h)
    ensures m == n
  {
    SameChaincodes(m, n);
    SameChaincodes(n, m);
    assert m.Keys == n.Keys;
    forall cc | cc in m ensures m[cc] == n[cc] {
      assert m[cc].Keys == n[cc].Keys;
      forall ev | ev in m[cc] ensures m[cc][ev] == n[cc][ev] {
        forall h ensures h in m[cc][ev] <==> h in n[cc][ev] { assert Has(m, cc, ev, h) <==> Has(n, cc, ev, h); }
      }
    }
  }

  lemma SameChaincodes(m: HandlerMap, n: HandlerMap)
    requires NoEmpty(m)
    requires forall cc, ev, h :: Has(m, cc, ev, h) ==> Has(n, cc, ev, h)
    ensures forall cc :: cc in m ==> cc in n && m[cc].Keys <= n[cc].Keys
  {
    forall cc, ev | cc in m && ev in m[cc] ensures cc in n && ev in n[cc] {
      var h :| h in m[cc][ev];
      assert Has(m, cc, ev, h);
    }
    forall cc | cc in m ensures cc in n {
      var ev :| ev in m[cc];
      assert cc in n;
    }
  }

  datatype AddError = NoRegInfo | NoChaincodeId | HandlerExists
  datatype DelError = NoRegInfoToDelete | NoChaincodeIdToDelete | ChaincodeNotRegistered | EventNotRegistered | HandlerNotRegistered

  class ChaincodeHandlerList {
    var handlers: HandlerMap

    ghost predicate Valid()
      reads this
    {
      NoEmpty(handlers) && forall ev, h :: !Has(handlers, "", ev, h)
    }

    constructor ()
      ensures Valid() && handlers == map[]
    {
      handlers := map[];
    }

    /** Adds exactly the triple asked for, or fails and changes nothing. */
    method Add(reg: Option<ChaincodeReg>, h: Client) returns (err: Option<AddError>)
      requires Valid()
      modifies this
      ensures Valid()
      ensures err.Some? ==> handlers == old(handlers)
      ensures err == Some(NoRegInfo) <==> reg.None?
      ensures err == Some(NoChaincodeId) <==> reg.Some? && reg.value.chaincodeId == ""
      ensures err == Some(HandlerExists) <==>
        reg.Some? && Has(old(handlers), reg.value.chaincodeId, reg.value.eventName, h)
      ensures err.None? <==>
        reg.Some? && reg.value.chaincodeId != "" && !Has(old(handlers), reg.value.chaincodeId, reg.value.eventName, h)
      ensures err.None? ==> AddsOne(old(handlers), handlers, reg.value.chaincodeId, reg.value.eventName, h)
    {
      if reg.None? { return Some(NoRegInfo); }
      var ChaincodeReg(cc, ev) := reg.value;
      if cc == "" { return Some(NoChaincodeId); }
      var emap: EventMap := map[];
      if cc in handlers { emap := handlers[cc]; }
      var handlerMap: set<Client> := {};
      if ev in emap {
        handlerMap := emap[ev];
        if h in handlerMap { return Some(HandlerExists); }
      }
      AddTriple(handlers, cc, ev, h);
      handlers := handlers[cc := emap[ev := handlerMap + {h}]];
      err := None;
    }

    /** Removes exactly the triple asked for, or fails and changes nothing; emptied inner maps go with it. */
    method Del(reg: Option<ChaincodeReg>, h: Client) returns (err: Option<DelError>)
      requires Valid()
      modifies this
      ensures Valid()
      ensures err.Some? ==> handlers == old(handlers)
      ensures err == Some(NoRegInfoToDelete) <==> reg.None?
      ensures err == Some(NoChaincodeIdToDelete) <==> reg.Some? && reg.value.chaincodeId == ""
      ensures err == Some(ChaincodeNotRegistered) <==>
        reg.Some? && reg.value.chaincodeId != "" && forall ev, k :: !Has(old(handlers), reg.value.chaincodeId, ev, k)
      ensures err == Some(EventNotRegistered) <==>
        && reg.Some? && (exists ev, k :: Has(old(handlers), reg.value.chaincodeId, ev, k))
        && forall k :: !Has(old(handlers), reg.value.chaincodeId, reg.value.eventName, k)
      ensures err == Some(HandlerNotRegistered) <==>
        && reg.Some? && !Has(old(handlers), reg.value.chaincodeId, reg.value.eventName, h)
        && exists k :: Has(old(handlers), reg.value.chaincodeId, reg.value.eventName, k)
      ensures err.None? <==> reg.Some? && Has(old(handlers), reg.value.chaincodeId, reg.value.eventName, h)
      ensures err.None? ==> RemovesOne(old(handlers), handlers, reg.value.chaincodeId, reg.value.eventName, h)
    {
      if reg.None? { return Some(NoRegInfoToDelete); }
      var ChaincodeReg(cc, ev) := reg.value;
      if cc == "" { return Some(NoChaincodeIdToDelete); }
      if cc !in handlers { return Some(ChaincodeNotRegistered); }
      var emap := handlers[cc];
      ChaincodeHasHandler(handlers, cc);
      if ev !in emap { return Some(EventNotRegistered); }
      var handlerMap := emap[ev];
      assert exists k :: Has(handlers, cc, ev, k) by {
        var k :| k in handlerMap;
        assert Has(handlers, cc, ev, k);
      }
      if h !in handlerMap { return Some(HandlerNotRegistered); }
      RemoveTriple(handlers, cc, ev, h);
      Prune(cc, ev, handlerMap - {h});
      err := None;
    }

    /** Stores what is left of one handler set, dropping it and its event map when they are empty. */
    method Prune(cc: string, ev: string, rest: set<Client>)
      requires cc in handlers && ev in handlers[cc]
      modifies this
      ensures handlers == Store(old(handlers), cc, ev, rest)
    {
      var emap := handlers[cc][ev := rest];
      handlers := handlers[cc := emap];
      if rest == {} {
        emap := emap - {ev};
        handlers := handlers[cc := emap];
        assert emap == old(handlers)[cc] - {ev} && handlers == old(handlers)[cc := emap];
        if emap == map[] {
          handlers := handlers - {cc};
        }
      }
    }

    /** The handlers called for an event: once per triple for its name, once more per triple for the catch-all "". */
    method Foreach(event: Option<ChaincodeReg>) returns (calls: seq<Client>)
      ensures event.None? || event.value.chaincodeId == "" ==> calls == []
      ensures event.Some? && event.value.chaincodeId != "" ==> forall h ::
        multiset(calls)[h] ==
          (if Has(handlers, event.value.chaincodeId, event.value.eventName, h) then 1 else 0) +
          (if event.value.eventName != "" && Has(handlers, event.value.chaincodeId, "", h) then 1 else 0)
    {
      calls := [];
      if event.None? || event.value.chaincodeId == "" { return; }
      var ChaincodeReg(cc, ev) := event.value;
      if cc in handlers {
        var emap := handlers[cc];
        if ev in emap { calls := CallAll(emap[ev]); }
        if ev != "" && "" in emap {
          var more := CallAll(emap[""]);
          calls := calls + more;
        }
      }
    }
  }

  /** Every handler of a set, once, in some order. */
  method CallAll(hs: set<Client>) returns (calls: seq<Client>)
    ensures multiset(calls) == multiset(hs)
  {
    calls := [];
    var todo := hs;
    while todo != {}
      invariant todo <= hs && multiset(calls) + multiset(todo) == multiset(hs)
      decreases todo
    {
      var h :| h in todo;
      todo := todo - {h};
      calls := calls + [h];
    }
  }

  lemma ChaincodeHasHandler(m: HandlerMap, cc: string)
    requires NoEmpty(m) && cc in m
    ensures exists ev, h :: Has(m, cc, ev, h)
  {
    var ev :| ev in m[cc];
    var h :| h in m[cc][ev];
    assert Has(m, cc, ev, h);
  }

  /** The map with `rest` as the handlers of one event, and emptied inner maps pruned. */
  function Store(m: HandlerMap, cc: string, ev: string, rest: set<Client>): HandlerMap
    requires cc in m && ev in m[cc]
  {
    if rest != {} then m[cc := m[cc][ev := rest]]
    else if m[cc] - {ev} != map[] then m[cc := m[cc] - {ev}]
    else m - {cc}
  }

  lemma AddTriple(m: HandlerMap, cc: string, ev: string, h: Client)
    requires NoEmpty(m)
    ensures var emap := if cc in m then m[cc] else map[];
            var hs := if ev in emap then emap[ev] else {};
            NoEmpty(m[cc := emap[ev := hs + {h}]]) && AddsOne(m, m[cc := emap[ev := hs + {h}]], cc, ev, h)
  {}

  lemma RemoveTriple(m: HandlerMap, cc: string, ev: string, h: Client)
    requires NoEmpty(m) && Has(m, cc, ev, h)
    ensures NoEmpty(Store(m, cc, ev, m[cc][ev] - {h}))
    ensures RemovesOne(m, Store(m, cc, ev, m[cc][ev] - {h}), cc, ev, h)
  {
    if m[cc][ev] - {h} == {} {
      assert forall k :: k in m[cc][ev] ==> k == h by {
        forall k | k in m[cc][ev] ensures k == h { assert k !in m[cc][ev] - {h}; }
      }
      if m[cc] - {ev} == map[] {
        assert forall e :: e in m[cc] ==> e == ev by {
          forall e | e in m[cc] ensures e == ev { assert e !in m[cc] - {ev}; }
        }
      }
    }
  }
}
