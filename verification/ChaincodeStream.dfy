/**
 The handler object of one chaincode stream (core/chaincode/handler.go): its three tables, which do not exist before
 registration, and its state machine, updated in place by methods that each hold the handler's lock. Every method
 is proved to do what the corresponding step of the stream protocol does to the same fields.
 */
module ChaincodeStream {
  import opened ChaincodeHandler
  import opened Options

  class StreamHandler {
    var registered: bool                       // false: the tables are nil
    var txCtxs: map<Txid, seq<Message>>
    var txidMap: map<Txid, bool>
    var isTransaction: map<Txid, bool>
    var fsm: Fsm
    var loop: Loop
    var workers: seq<Worker>                   // goroutines started
    var sent: seq<Message>                     // messages sent down the stream
    var notified: nat

    /** Nil tables hold nothing. */
    ghost predicate Valid()
      reads this
    {
      !registered ==> txCtxs == map[] && txidMap == map[] && isTransaction == map[]
    }

    ghost function View(): Tables
      reads this
    {
      Tables(txCtxs, set x | x in txidMap && txidMap[x], set x | x in isTransaction && isTransaction[x])
    }

    /** The protocol state that has this object's fields and everything else from `e`. */
    ghost function In(e: Handler): Handler
      reads this
    {
      e.(fsm := fsm, tables := View(), loop := loop, workers := workers, toCC := sent, notified := notified)
    }

    constructor ()
      ensures Valid() && !registered && View() == Tables(map[], {}, {})
    {
      registered, txCtxs, txidMap, isTransaction := false, map[], map[], map[];
      fsm, loop, workers, sent, notified := Established, Select, [], [], 0;
      new;
      assert View().pending == {} && View().isTransaction == {};
    }

    /** registerHandler makes the tables. */
    method Register()
      requires Valid()
      modifies this
      ensures Valid() && registered && View() == Tables(map[], {}, {})
      ensures fsm == old(fsm) && loop == old(loop) && workers == old(workers) && sent == old(sent)
      ensures notified == old(notified)
    {
      registered, txCtxs, txidMap, isTransaction := true, map[], map[], map[];
      assert View().pending == {} && View().isTransaction == {};
    }

    /** What Begin does to the tables; a second context for a transaction is refused and replaces nothing. */
    method CreateTxContext(x: Txid) returns (ok: bool)
      requires Valid()
      modifies `txCtxs
      ensures Valid() && (ok <==> registered && x !in old(View()).txCtxs)
      ensures View() == if ok then old(View()).(txCtxs := old(View()).txCtxs[x := []]) else old(View())
      ensures forall e: Handler, kind, from :: ok && Enabled(old(In(e)), Begin(x, kind, from)) ==>
        View() == Next(old(In(e)), Begin(x, kind, from)).tables
    {
      if !registered || x in txCtxs { return false; }
      txCtxs := txCtxs[x := []];
      return true;
    }

    /** Deleting what creating made restores the tables. */
    method DeleteTxContext(x: Txid)
      requires Valid()
      modifies `txCtxs
      ensures Valid() && View() == old(View()).(txCtxs := old(View()).txCtxs - {x})
    {
      if registered { txCtxs := txCtxs - {x}; }
    }

    /** False exactly when a request of this transaction is pending already, or before registration. */
    method CreateTXIDEntry(x: Txid) returns (ok: bool)
      requires Valid()
      modifies `txidMap
      ensures Valid() && (ok <==> registered && x !in old(View()).pending)
      ensures View() == if ok then old(View()).(pending := old(View()).pending + {x}) else old(View())
    {
      if !registered || (x in txidMap && txidMap[x]) { return false; }
      txidMap := txidMap[x := true];
      assert View().pending == old(View()).pending + {x};
      return true;
    }

    method DeleteTXIDEntry(x: Txid)
      requires Valid()
      modifies `txidMap
      ensures Valid() && View() == old(View()).(pending := old(View()).pending - {x})
    {
      if registered { txidMap := txidMap - {x}; }
      assert View().pending == old(View()).pending - {x};
    }

    method MarkIsTransaction(x: Txid, isTrans: bool) returns (ok: bool)
      requires Valid()
      modifies `isTransaction
      ensures Valid() && ok == registered
      ensures View() == if !ok then old(View()) else
                          old(View()).(isTransaction := old(View()).isTransaction - {x} + if isTrans then {x} else {})
    {
      if !registered { return false; }
      isTransaction := isTransaction[x := isTrans];
      assert View().isTransaction == old(View()).isTransaction - {x} + if isTrans then {x} else {};
      return true;
    }

    method GetIsTransaction(x: Txid) returns (r: bool)
      requires Valid()
      ensures r <==> x in View().isTransaction
    {
      r := registered && x in isTransaction && isTransaction[x];
    }

    method DeleteIsTransaction(x: Txid)
      requires Valid()
      modifies `isTransaction
      ensures Valid() && View() == old(View()).(isTransaction := old(View()).isTransaction - {x})
      ensures forall e: Handler :: In(e) == Unmark(old(In(e)), x)
    {
      if registered { isTransaction := isTransaction - {x}; }
      assert View().isTransaction == old(View()).isTransaction - {x};
    }

    /** Blocks, and with it every method that needs the lock, exactly when the context's slot is taken. */
    method Notify(msg: Message) returns (blocks: bool)
      requires Valid()
      modifies `txCtxs, `notified
      ensures Valid()
      ensures blocks <==> msg.txid in old(View()).txCtxs && |old(View()).txCtxs[msg.txid]| >= 1
      ensures forall e: Handler :: e.fault.None? ==>
        In(e).(fault := if blocks then Some(NotifyBlocks) else None) == ChaincodeHandler.Notify(old(In(e)), msg)
    {
      if msg.txid !in txCtxs { return false; }
      if |txCtxs[msg.txid]| >= 1 { return true; }
      txCtxs, notified := txCtxs[msg.txid := txCtxs[msg.txid] + [msg]], notified + 1;
      return false;
    }

    /** enterReadyState and enterEndState. */
    method Conclude(msg: Message) returns (blocks: bool)
      requires Valid()
      modifies `txCtxs, `notified, `isTransaction
      ensures Valid()
      ensures forall e: Handler :: e.fault.None? ==>
        In(e).(fault := if blocks then Some(NotifyBlocks) else None)
        == ChaincodeHandler.Notify(Unmark(old(In(e)), msg.txid), msg)
    {
      DeleteIsTransaction(msg.txid);
      blocks := Notify(msg);
    }

    /** The callbacks of an accepted message, after the state has been set. */
    method RunCallbacks(was: Fsm, msg: Message, ghost e: Handler) returns (blocks: bool)
      requires Valid() && registered && Table(was, msg.kind) == Some(fsm) && e.fault.None?
      modifies `txCtxs, `notified, `isTransaction, `loop, `workers, `sent
      ensures Valid() && registered
      ensures In(e).(fault := if blocks then Some(NotifyBlocks) else None)
              == ChaincodeHandler.HandleMessage(old(In(e)).(fsm := was), msg)
    {
      blocks := false;
      if Request(msg.kind) {
        workers := workers + [Start(msg)];
      } else if msg.kind == INIT {
        var _ := MarkIsTransaction(msg.txid, true);
        sent := sent + [msg];
        assert View().isTransaction == old(View()).isTransaction + {msg.txid};
      } else if fsm == ReadyState && was != ReadyState {
        blocks := Conclude(msg);
      } else if fsm == End {
        blocks := Conclude(msg);
        loop := Ended;
      }
    }

    /**
     A message the table does not allow here changes nothing, except that a request that modifies the state outside
     a transaction is answered with an error. Any other message does what the protocol's step says.
     */
    method HandleMessage(msg: Message, ghost e: Handler) returns (rejected: bool, blocks: bool)
      requires Valid() && registered && e.fault.None?
      modifies `txCtxs, `notified, `isTransaction, `fsm, `loop, `workers, `sent
      ensures Valid() && registered && (rejected <==> Table(old(fsm), msg.kind).None?)
      ensures rejected ==>
        In(e) == old(In(e)).(toCC := old(sent) + if Modifies(msg.kind) && msg.txid !in old(View()).isTransaction
                                                 then [Message(ERROR, msg.txid)] else [])
      ensures !rejected ==>
        In(e).(fault := if blocks then Some(NotifyBlocks) else None) == ChaincodeHandler.HandleMessage(old(In(e)), msg)
    {
      var dst := Table(fsm, msg.kind);
      if dst.None? {
        if Modifies(msg.kind) {
          var marked := GetIsTransaction(msg.txid);
          if !marked { sent := sent + [Message(ERROR, msg.txid)]; }
        }
        return true, false;
      }
      var was := fsm;
      fsm := dst.value;
      blocks := RunCallbacks(was, msg, e);
      rejected := false;
    }

    /**
     The goroutine of a GET_STATE request, when nothing interferes; `ok` is false when the ledger reports an error,
     not when the key is absent. It answers exactly once and leaves the tables as
     it found them, unless another request of the transaction is pending, when it does nothing at all.
     */
    method HandleGetState(msg: Message, ok: bool) returns (fault: Option<Fault>)
      requires Valid() && registered
      modifies `txidMap, `sent
      ensures Valid()
      ensures fault == if msg.txid in old(View()).pending then Some(DroppedAsDuplicate)
                       else if msg.txid !in txCtxs then Some(NilContext) else None
      ensures fault != Some(NilContext) ==> View() == old(View())
      ensures sent == old(sent) + if fault == None then [Message(if ok then RESPONSE else ERROR, msg.txid)] else []
    {
      var unique := CreateTXIDEntry(msg.txid);
      if !unique { return Some(DroppedAsDuplicate); }
      if msg.txid !in txCtxs { return Some(NilContext); }
      DeleteTXIDEntry(msg.txid);
      assert View().pending == old(View()).pending;
      sent := sent + [Message(if ok then RESPONSE else ERROR, msg.txid)];
      return None;
    }
  }
}
