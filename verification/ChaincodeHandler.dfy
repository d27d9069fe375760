/**
 The peer's side of one chaincode stream (core/chaincode/handler.go, core/chaincode/chaincode_support.go): a state
 machine driven by the stream and by a rendezvous channel, a goroutine per request, tables of transaction contexts,
 pending requests and transaction marks, and the caller that started the execution. It runs against a chaincode
 that sends one request at a time and waits for the reply, with one execution at a time, no timeout and no stream
 failure. Steps are lock regions, channel operations and the message loop's iterations.
 */
module ChaincodeHandler {
  import opened Options

  type Txid(==, !new)

  /** Chaincode names. */
  type Name(==, !new)

  datatype Fsm = Established | Init | ReadyState | Transaction | BusyInit | BusyXact | End

  datatype Kind =
    | INIT | READY | TRANSACTION | COMPLETED | ERROR | RESPONSE
    | GET_STATE | PUT_STATE | DEL_STATE | INVOKE_CHAINCODE

  datatype Message = Message(kind: Kind, txid: Txid)

  predicate Modifies(k: Kind) { k == PUT_STATE || k == DEL_STATE || k == INVOKE_CHAINCODE }

  predicate Request(k: Kind) { k == GET_STATE || Modifies(k) }

  /** The transition table, from the established state on. */
  function Table(s: Fsm, k: Kind): Option<Fsm>
  {
    match k
    case INIT => if s == Established then Some(Init) else None
    case READY => if s == Established then Some(ReadyState) else None
    case TRANSACTION => if s == ReadyState then Some(Transaction) else None
    case COMPLETED => if s == Init || s == ReadyState || s == Transaction then Some(ReadyState) else None
    case GET_STATE => if s == Established || s == End then None else Some(s)
    case ERROR =>
      if s == Init then Some(End) else if s == Transaction then Some(ReadyState)
      else if s == BusyInit then Some(Init) else if s == BusyXact then Some(Transaction) else None
    case RESPONSE => if s == BusyInit then Some(Init) else if s == BusyXact then Some(Transaction) else None
    case _ => if s == Transaction then Some(BusyXact) else if s == Init then Some(BusyInit) else None
  }

  /** Contexts with the content of their one-slot notifier, pending requests, and marked transactions. */
  datatype Tables = Tables(txCtxs: map<Txid, seq<Message>>, pending: set<Txid>, isTransaction: set<Txid>)

  /** What must never happen to a request or a notification. */
  datatype Fault = DroppedAsDuplicate | RejectedByFsm | NilContext | NotifyBlocks | UnexpectedByChaincode

  /** The goroutine of one request. */
  datatype Worker =
    | Start(req: Message)                       // spawned by the state machine
    | Entering(req: Message)                    // marked as a transaction, before the pending entry
    | Working(req: Message)                     // pending entry made, before the ledger or the other chaincode
    | Nested(req: Message, target: Name)        // executing another chaincode
    | Clearing(reply: Message, viaLoop: bool)   // reply decided, pending entry still there
    | Replying(reply: Message, viaLoop: bool)   // pending entry gone; to be sent, through the state machine or not

  /** The execution in progress: Execute or sendInitOrReady on this handler. */
  datatype Caller =
    | NoCaller
    | Marking(msg: Message)                     // context created
    | Triggering(msg: Message, send: bool)      // blocked on the rendezvous with the message loop
    | Awaiting(txid: Txid)                      // blocked on the notifier
    | Deleting(txid: Txid, ok: bool)            // answered, context still there
    | Done(txid: Txid, ok: bool)                // context deleted, result not handed over yet

  datatype Loop = Select | Sending(msg: Message) | Ended

  /** The chaincode: idle, executing, or waiting for the reply to its one request. */
  datatype Chaincode = Idle | Running(txid: Txid) | Waiting(txid: Txid)

  /** `requests`, `replies` and `notified` (messages put into the current context's slot) record history. */
  datatype Handler = Handler(
    fsm: Fsm, tables: Tables, loop: Loop, workers: seq<Worker>, caller: Caller, from: Option<Name>,
    toPeer: seq<Message>, toCC: seq<Message>, cc: Chaincode, requests: nat, replies: nat, notified: nat, fault: Option<Fault>)

  // ---------------------------------------------------------------- the state machine's callbacks

  /** notify: into the context's slot, if there is a context; sending to a full slot would block under the lock. */
  function Notify(h: Handler, msg: Message): Handler
  {
    if msg.txid !in h.tables.txCtxs then h
    else if |h.tables.txCtxs[msg.txid]| >= 1 then h.(fault := Some(NotifyBlocks))
    else
      h.(tables := h.tables.(txCtxs := h.tables.txCtxs[msg.txid := h.tables.txCtxs[msg.txid] + [msg]]),
         notified := h.notified + 1)
  }

  function Unmark(h: Handler, x: Txid): Handler
  {
    h.(tables := h.tables.(isTransaction := h.tables.isTransaction - {x}))
  }

  /** HandleMessage: look the transition up, set the state, run the callbacks; a self-transition runs no enter callback. */
  function HandleMessage(h: Handler, msg: Message): Handler
  {
    var dst := Table(h.fsm, msg.kind);
    if dst.None? then h.(fault := Some(RejectedByFsm))
    else
      var h1 := h.(fsm := dst.value);
      if Request(msg.kind) then h1.(workers := h.workers + [Start(msg)])
      else if msg.kind == INIT then
        h1.(tables := h.tables.(isTransaction := h.tables.isTransaction + {msg.txid}), toCC := h.toCC + [msg])
      else if dst.value == ReadyState && h.fsm != ReadyState then Notify(Unmark(h1, msg.txid), msg)
      else if dst.value == End then Notify(Unmark(h1, msg.txid), msg).(loop := Ended)
      else h1
  }

  // ---------------------------------------------------------------- steps

  datatype Step =
    | Begin(txid: Txid, kind: Kind, from: Option<Name>)   // createTxContext by a new execution
    | Mark | Trigger | Await | Delete | Finish            // the caller
    | LoopSend | LoopRecv                                 // the message loop
    | WorkerStep(ok: bool) | WorkerTrigger                // the oldest request goroutine
    | CallOut(target: Name) | CallBack(ok: bool)          // its nested execution
    | CcReceive | CcRequest(kind: Kind) | CcFinish(ok: bool)

  /** One execution at a time; a handler that is not running is initialised first, and an ended one is gone. */
  predicate MayBegin(h: Handler, kind: Kind)
  {
    && h.caller == NoCaller && h.loop != Ended
    && (kind == TRANSACTION || kind == INIT || kind == READY)
    && (kind == TRANSACTION <==> h.fsm != Established)
  }

  predicate Enabled(h: Handler, s: Step)
  {
    match s
    case Begin(x, kind, _) => MayBegin(h, kind) && x !in h.tables.txCtxs
    case Mark => h.caller.Marking?
    case Trigger => h.caller.Triggering? && h.loop == Select
    case Await => h.caller.Awaiting? && h.caller.txid in h.tables.txCtxs && h.tables.txCtxs[h.caller.txid] != []
    case Delete => h.caller.Deleting?
    case Finish => h.caller.Done?
    case LoopSend => h.loop.Sending?
    case LoopRecv => h.loop == Select && h.toPeer != []
    case WorkerStep(_) => |h.workers| > 0 && !h.workers[0].Nested? && !(h.workers[0].Replying? && h.workers[0].viaLoop)
    case WorkerTrigger => |h.workers| > 0 && h.workers[0].Replying? && h.workers[0].viaLoop && h.loop == Select
    case CallOut(_) =>
      && |h.workers| > 0 && h.workers[0].Working? && h.workers[0].req.kind == INVOKE_CHAINCODE
      && h.workers[0].req.txid in h.tables.txCtxs
    case CallBack(_) => |h.workers| > 0 && h.workers[0].Nested?
    case CcReceive => h.toCC != []
    case CcRequest(kind) => h.cc.Running? && Request(kind)
    case CcFinish(_) => h.cc.Running?
  }

  function CallerStep(h: Handler, s: Step): Handler
    requires Enabled(h, s)
  {
    match s
    case Begin(x, kind, from) =>
      h.(tables := h.tables.(txCtxs := h.tables.txCtxs[x := []]), from := from, notified := 0,
         caller := if kind == TRANSACTION then Marking(Message(kind, x)) else Triggering(Message(kind, x), kind == READY))
    case Mark =>
      h.(tables := h.tables.(isTransaction := h.tables.isTransaction + {h.caller.msg.txid}),
         caller := Triggering(h.caller.msg, true))
    case Trigger =>
      var h1 := HandleMessage(h, h.caller.msg);
      h1.(caller := Awaiting(h.caller.msg.txid), loop := if h.caller.send then Sending(h.caller.msg) else h1.loop)
    case Await =>
      var x := h.caller.txid;
      h.(tables := h.tables.(txCtxs := h.tables.txCtxs[x := h.tables.txCtxs[x][1..]]),
         caller := Deleting(x, h.tables.txCtxs[x][0].kind != ERROR))
    case Delete =>
      h.(tables := h.tables.(txCtxs := h.tables.txCtxs - {h.caller.txid}), caller := Done(h.caller.txid, h.caller.ok))
    case Finish => h.(caller := NoCaller)
    case _ => h
  }

  /** handleGetState and enterBusyState, one region at a time. */
  function WorkerNext(h: Handler, ok: bool): Handler
    requires Enabled(h, WorkerStep(ok))
  {
    var w, rest := h.workers[0], h.workers[1..];
    match w
    case Start(req) =>
      if req.kind == GET_STATE then Enter(h, req)
      else if req.txid !in h.tables.isTransaction then
        h.(workers := [Replying(Message(ERROR, req.txid), true)] + rest)
      else h.(workers := [Entering(req)] + rest)
    case Entering(req) => Enter(h, req)
    case Working(req) =>
      if req.kind != INVOKE_CHAINCODE && req.txid !in h.tables.txCtxs then h.(fault := Some(NilContext))
      else
        var good := ok && req.kind != INVOKE_CHAINCODE;
        h.(workers := [Clearing(Message(if good then RESPONSE else ERROR, req.txid), req.kind != GET_STATE)] + rest)
    case Clearing(reply, viaLoop) =>
      h.(tables := h.tables.(pending := h.tables.pending - {reply.txid}), workers := [Replying(reply, viaLoop)] + rest)
    case Replying(reply, _) => h.(toCC := h.toCC + [reply], workers := rest)
    case Nested(_, _) => h
  }

  /** createTXIDEntry: a request for a transaction that has one pending is dropped. */
  function Enter(h: Handler, req: Message): Handler
    requires |h.workers| > 0
  {
    if req.txid in h.tables.pending then h.(fault := Some(DroppedAsDuplicate), workers := h.workers[1..])
    else h.(tables := h.tables.(pending := h.tables.pending + {req.txid}), workers := [Working(req)] + h.workers[1..])
  }

  function CcStep(h: Handler, s: Step): Handler
    requires Enabled(h, s)
  {
    match s
    case CcReceive =>
      var m, h1 := h.toCC[0], h.(toCC := h.toCC[1..]);
      if m.kind == READY then h1
      else if m.kind == TRANSACTION || m.kind == INIT then
        if h.cc.Idle? then h1.(cc := Running(m.txid)) else h1.(fault := Some(UnexpectedByChaincode))
      else if (m.kind == RESPONSE || m.kind == ERROR) && h.cc == Waiting(m.txid) then
        h1.(cc := Running(m.txid), replies := h.replies + 1)
      else h1.(fault := Some(UnexpectedByChaincode))
    case CcRequest(kind) =>
      h.(toPeer := h.toPeer + [Message(kind, h.cc.txid)], cc := Waiting(h.cc.txid), requests := h.requests + 1)
    case CcFinish(ok) =>
      h.(toPeer := h.toPeer + [Message(if ok then COMPLETED else ERROR, h.cc.txid)], cc := Idle)
    case _ => h
  }

  function Next(h: Handler, s: Step): Handler
    requires Enabled(h, s)
  {
    match s
    case LoopSend => h.(toCC := h.toCC + [h.loop.msg], loop := Select)
    case LoopRecv => HandleMessage(h.(toPeer := h.toPeer[1..]), h.toPeer[0])
    case WorkerStep(ok) => WorkerNext(h, ok)
    case WorkerTrigger =>
      var reply := h.workers[0].reply;
      HandleMessage(h.(workers := h.workers[1..]), reply).(loop := Sending(reply))
    case CallOut(target) => h.(workers := [Nested(h.workers[0].req, target)] + h.workers[1..])
    case CallBack(ok) =>
      var x := h.workers[0].req.txid;
      h.(workers := [Clearing(Message(if ok then RESPONSE else ERROR, x), true)] + h.workers[1..])
    case CcReceive => CcStep(h, s)
    case CcRequest(_) => CcStep(h, s)
    case CcFinish(_) => CcStep(h, s)
    case _ => CallerStep(h, s)
  }

  /** A handler right after registration. */
  const Registered :=
    Handler(Established, Tables(map[], {}, {}), Select, [], NoCaller, None, [], [], Idle, 0, 0, 0, None)

  // ---------------------------------------------------------------- where control is

  /** Messages on their way down to the chaincode. */
  function Down(h: Handler): seq<Message>
  {
    h.toCC + (if h.loop.Sending? then [h.loop.msg] else [])
  }

  /** At most one message, the READY of initialisation, may still be on its way when nothing is running. */
  predicate Leftover(d: seq<Message>) { |d| <= 1 && forall i :: 0 <= i < |d| ==> d[i].kind == READY }

  predicate Executing(s: Fsm) { s == Transaction || s == Init }

  predicate Busy(s: Fsm) { s == BusyXact || s == BusyInit }

  predicate Quiet(h: Handler)
  {
    h.cc == Idle && h.workers == [] && h.toPeer == [] && h.tables.pending == {} && Leftover(Down(h))
  }

  /** No execution, or one that has its answer. */
  ghost predicate AtRest(h: Handler)
  {
    && Quiet(h) && h.tables.isTransaction == {}
    && (h.fsm == ReadyState || h.fsm == End || (h.fsm == Established && h.caller == NoCaller && Down(h) == []))
    && match h.caller
       case NoCaller => h.tables.txCtxs == map[] && h.notified <= 1
       case Done(_, _) => h.tables.txCtxs == map[] && h.notified == 1
       case Deleting(x, _) => h.tables.txCtxs == map[x := []] && h.notified == 1
       case Awaiting(x) =>
         && x in h.tables.txCtxs && h.tables.txCtxs == map[x := h.tables.txCtxs[x]]
         && |h.tables.txCtxs[x]| == 1 && h.notified == 1
       case _ => false
  }

  /** The execution has its context and is about to hand its first message to the loop. */
  ghost predicate AtCaller(h: Handler)
  {
    && (h.caller.Marking? || h.caller.Triggering?) && Quiet(h) && h.loop != Ended && h.notified == 0
    && h.tables.txCtxs == map[h.caller.msg.txid := []]
    && (h.caller.msg.kind == TRANSACTION || h.caller.msg.kind == INIT || h.caller.msg.kind == READY)
    && h.fsm == (if h.caller.msg.kind == TRANSACTION then ReadyState else Established)
    && (h.fsm == Established ==> Down(h) == [])
    && (h.caller.Marking? ==> h.caller.msg.kind == TRANSACTION)
    && (h.caller.Triggering? ==> h.caller.send == (h.caller.msg.kind != INIT))
    && h.tables.isTransaction == (if h.caller.Triggering? && h.caller.msg.kind == TRANSACTION then {h.caller.msg.txid} else {})
  }

  /** What holds throughout an execution of `x`, from its first message until its final one is handled. */
  predicate InExecution(h: Handler, x: Txid)
  {
    && h.caller == Awaiting(x) && h.tables.txCtxs == map[x := []] && h.notified == 0
    && h.tables.isTransaction == {x} && h.loop != Ended
  }

  /** The first message is on its way down. */
  predicate AtStart(h: Handler, x: Txid)
  {
    && h.cc == Idle && h.workers == [] && h.toPeer == [] && h.tables.pending == {}
    && |Down(h)| > 0 && Leftover(Down(h)[..|Down(h)| - 1])
    && Down(h)[|Down(h)| - 1] == Message(if h.fsm == Init then INIT else TRANSACTION, x) && Executing(h.fsm)
  }

  predicate AtChaincode(h: Handler, x: Txid)
  {
    h.cc == Running(x) && h.workers == [] && h.toPeer == [] && h.tables.pending == {} && Down(h) == [] && Executing(h.fsm)
  }

  /** The chaincode's one request is on its way up. */
  predicate AtRequest(h: Handler, x: Txid)
  {
    && h.cc == Waiting(x) && h.workers == [] && h.tables.pending == {} && Down(h) == [] && Executing(h.fsm)
    && |h.toPeer| == 1 && Request(h.toPeer[0].kind) && h.toPeer[0].txid == x
  }

  /** Its goroutine is at work; a request that modifies keeps the machine busy. */
  predicate AtWorker(h: Handler, x: Txid)
  {
    && h.cc == Waiting(x) && h.toPeer == [] && Down(h) == [] && |h.workers| == 1
    && match h.workers[0]
       case Start(req) =>
         req.txid == x && h.tables.pending == {} && Request(req.kind) && (if Modifies(req.kind) then Busy(h.fsm) else Executing(h.fsm))
       case Entering(req) => req.txid == x && h.tables.pending == {} && Modifies(req.kind) && Busy(h.fsm)
       case Working(req) =>
         req.txid == x && h.tables.pending == {x} && Request(req.kind) && (if Modifies(req.kind) then Busy(h.fsm) else Executing(h.fsm))
       case Nested(req, _) => req == Message(INVOKE_CHAINCODE, x) && h.tables.pending == {x} && Busy(h.fsm)
       case Clearing(reply, viaLoop) =>
         && h.tables.pending == {x} && reply.txid == x && (reply.kind == RESPONSE || reply.kind == ERROR)
         && (if viaLoop then Busy(h.fsm) else Executing(h.fsm))
       case Replying(reply, viaLoop) =>
         && h.tables.pending == {} && reply.txid == x && (reply.kind == RESPONSE || reply.kind == ERROR)
         && (if viaLoop then Busy(h.fsm) else Executing(h.fsm))
  }

  /** The reply is on its way down, with the state machine already back and nothing pending. */
  predicate AtReply(h: Handler, x: Txid)
  {
    && h.cc == Waiting(x) && h.workers == [] && h.toPeer == [] && h.tables.pending == {} && Executing(h.fsm)
    && |Down(h)| == 1 && Down(h)[0].txid == x && (Down(h)[0].kind == RESPONSE || Down(h)[0].kind == ERROR)
  }

  /** The chaincode's final message is on its way up. */
  predicate AtFinal(h: Handler, x: Txid)
  {
    && h.cc == Idle && h.workers == [] && h.tables.pending == {} && Down(h) == [] && Executing(h.fsm)
    && |h.toPeer| == 1 && h.toPeer[0].txid == x && (h.toPeer[0].kind == COMPLETED || h.toPeer[0].kind == ERROR)
  }

  ghost predicate InProgress(h: Handler)
  {
    h.caller.Awaiting? &&
    var x := h.caller.txid;
    InExecution(h, x) &&
    (AtStart(h, x) || AtChaincode(h, x) || AtRequest(h, x) || AtWorker(h, x) || AtReply(h, x) || AtFinal(h, x))
  }

  ghost predicate Inv(h: Handler)
  {
    && h.fault.None?
    && h.requests == h.replies + (if h.cc.Waiting? then 1 else 0)
    && (h.loop == Ended <==> h.fsm == End)
    && (AtRest(h) || AtCaller(h) || InProgress(h))
  }

  // ---------------------------------------------------------------- each step keeps it

  lemma BeginKeepsInv(h: Handler, s: Step)
    requires Inv(h) && Enabled(h, s) && s.Begin?
    ensures Inv(Next(h, s)) && AtCaller(Next(h, s))
  {}

  lemma MarkKeepsInv(h: Handler)
    requires Inv(h) && Enabled(h, Mark)
    ensures Inv(Next(h, Mark))
  {}

  lemma TriggerTransaction(h: Handler)
    requires Inv(h) && Enabled(h, Trigger) && AtCaller(h) && h.caller.msg.kind == TRANSACTION
    ensures Inv(Next(h, Trigger))
  {
    var n, m := Next(h, Trigger), h.caller.msg;
    assert Down(n) == Down(h) + [m];
    assert Down(n)[..|Down(n)| - 1] == Down(h);
    assert AtStart(n, m.txid);
  }

  lemma TriggerInit(h: Handler)
    requires Inv(h) && Enabled(h, Trigger) && AtCaller(h) && h.caller.msg.kind == INIT
    ensures Inv(Next(h, Trigger))
  {
    var n, m := Next(h, Trigger), h.caller.msg;
    assert Down(n) == [m];
    assert AtStart(n, m.txid);
  }

  lemma TriggerReady(h: Handler)
    requires Inv(h) && Enabled(h, Trigger) && AtCaller(h) && h.caller.msg.kind == READY
    ensures Inv(Next(h, Trigger))
  {
    var n, m := Next(h, Trigger), h.caller.msg;
    assert Down(n) == [m];
    assert AtRest(n);
  }

  lemma TriggerKeepsInv(h: Handler)
    requires Inv(h) && Enabled(h, Trigger)
    ensures Inv(Next(h, Trigger))
  {
    assert AtCaller(h);
    if h.caller.msg.kind == TRANSACTION { TriggerTransaction(h); }
    else if h.caller.msg.kind == INIT { TriggerInit(h); }
    else { TriggerReady(h); }
  }

  lemma AnswerKeepsInv(h: Handler, s: Step)
    requires Inv(h) && Enabled(h, s) && (s.Await? || s.Delete? || s.Finish?)
    ensures Inv(Next(h, s))
  {
    assert AtRest(h);
    assert Down(Next(h, s)) == Down(h);
  }

  lemma LoopSendInProgress(h: Handler, x: Txid)
    requires Inv(h) && Enabled(h, LoopSend) && InExecution(h, x) && (AtStart(h, x) || AtReply(h, x))
    ensures Inv(Next(h, LoopSend))
  {
    var n := Next(h, LoopSend);
    assert Down(n) == Down(h);
    if AtStart(h, x) { assert AtStart(n, x); } else { assert AtReply(n, x); }
  }

  lemma LoopSendKeepsInv(h: Handler)
    requires Inv(h) && Enabled(h, LoopSend)
    ensures Inv(Next(h, LoopSend))
  {
    if AtRest(h) || AtCaller(h) {
      assert Down(Next(h, LoopSend)) == Down(h);
    } else {
      LoopSendInProgress(h, h.caller.txid);
    }
  }

  lemma RequestKeepsInv(h: Handler, x: Txid)
    requires Inv(h) && Enabled(h, LoopRecv) && InExecution(h, x) && AtRequest(h, x)
    ensures Inv(Next(h, LoopRecv))
  {}

  lemma FinalKeepsInv(h: Handler, x: Txid)
    requires Inv(h) && Enabled(h, LoopRecv) && InExecution(h, x) && AtFinal(h, x)
    ensures Inv(Next(h, LoopRecv))
  {
    var n := Next(h, LoopRecv);
    assert h.toPeer[1..] == [];
    assert AtRest(n);
  }

  lemma LoopRecvKeepsInv(h: Handler)
    requires Inv(h) && Enabled(h, LoopRecv)
    ensures Inv(Next(h, LoopRecv))
  {
    assert InProgress(h);
    var x := h.caller.txid;
    if AtRequest(h, x) { RequestKeepsInv(h, x); } else { FinalKeepsInv(h, x); }
  }

  lemma WorkerStepKeepsInv(h: Handler, ok: bool)
    requires Inv(h) && Enabled(h, WorkerStep(ok))
    ensures Inv(Next(h, WorkerStep(ok)))
  {
    assert InProgress(h);
    var x, n := h.caller.txid, Next(h, WorkerStep(ok));
    assert AtWorker(h, x) && h.workers[1..] == [];
    if h.workers[0].Replying? { assert AtReply(n, x); } else { assert AtWorker(n, x); }
  }

  lemma WorkerTriggerKeepsInv(h: Handler)
    requires Inv(h) && Enabled(h, WorkerTrigger)
    ensures Inv(Next(h, WorkerTrigger))
  {
    assert InProgress(h);
    var x, n := h.caller.txid, Next(h, WorkerTrigger);
    assert AtWorker(h, x) && h.workers[1..] == [];
    assert Down(n) == [h.workers[0].reply];
    assert AtReply(n, x);
  }

  lemma NestedKeepsInv(h: Handler, s: Step)
    requires Inv(h) && Enabled(h, s) && (s.CallOut? || s.CallBack?)
    ensures Inv(Next(h, s))
  {
    assert InProgress(h);
    var x, n := h.caller.txid, Next(h, s);
    assert AtWorker(h, x) && h.workers[1..] == [];
    assert AtWorker(n, x);
  }

  /** What the chaincode receives is the first message on its way down. */
  lemma CcReceiveDown(h: Handler)
    requires Enabled(h, CcReceive)
    ensures |Down(h)| > 0 && Down(h)[0] == h.toCC[0] && Down(Next(h, CcReceive)) == Down(h)[1..]
  {}

  lemma ReceiveLeftover(h: Handler)
    requires Inv(h) && Enabled(h, CcReceive) && (AtRest(h) || AtCaller(h))
    ensures Inv(Next(h, CcReceive))
  {
    CcReceiveDown(h);
    assert Down(h)[0].kind == READY && Down(Next(h, CcReceive)) == [];
  }

  lemma ReceiveReply(h: Handler, x: Txid)
    requires Inv(h) && Enabled(h, CcReceive) && InExecution(h, x) && AtReply(h, x)
    ensures Inv(Next(h, CcReceive))
  {}

  lemma ReceiveStart(h: Handler, x: Txid)
    requires Inv(h) && Enabled(h, CcReceive) && InExecution(h, x) && AtStart(h, x)
    ensures Inv(Next(h, CcReceive))
  {
    CcReceiveDown(h);
    var n, d := Next(h, CcReceive), Down(h);
    if |d| == 1 {
      assert AtChaincode(n, x);
    } else {
      assert d[0] == d[..|d| - 1][0] && d[0].kind == READY;
      assert Down(n)[..|Down(n)| - 1] == [];
      assert AtStart(n, x);
    }
  }

  lemma CcReceiveKeepsInv(h: Handler)
    requires Inv(h) && Enabled(h, CcReceive)
    ensures Inv(Next(h, CcReceive))
  {
    CcReceiveDown(h);
    if AtRest(h) || AtCaller(h) {
      ReceiveLeftover(h);
    } else if AtReply(h, h.caller.txid) {
      ReceiveReply(h, h.caller.txid);
    } else {
      ReceiveStart(h, h.caller.txid);
    }
  }

  lemma CcSendKeepsInv(h: Handler, s: Step)
    requires Inv(h) && Enabled(h, s) && (s.CcRequest? || s.CcFinish?)
    ensures Inv(Next(h, s))
  {
    assert InProgress(h);
    var x, n := h.caller.txid, Next(h, s);
    assert AtChaincode(h, x);
    if s.CcRequest? { assert AtRequest(n, x); } else { assert AtFinal(n, x); }
  }

  lemma NextKeepsInv(h: Handler, s: Step)
    requires Inv(h) && Enabled(h, s)
    ensures Inv(Next(h, s))
  {
    match s
    case Begin(_, _, _) => BeginKeepsInv(h, s);
    case Mark => MarkKeepsInv(h);
    case Trigger => TriggerKeepsInv(h);
    case LoopSend => LoopSendKeepsInv(h);
    case LoopRecv => LoopRecvKeepsInv(h);
    case WorkerStep(ok) => WorkerStepKeepsInv(h, ok);
    case WorkerTrigger => WorkerTriggerKeepsInv(h);
    case CallOut(_) => NestedKeepsInv(h, s);
    case CallBack(_) => NestedKeepsInv(h, s);
    case CcReceive => CcReceiveKeepsInv(h);
    case CcRequest(_) => CcSendKeepsInv(h, s);
    case CcFinish(_) => CcSendKeepsInv(h, s);
    case _ => AnswerKeepsInv(h, s);
  }

  // ---------------------------------------------------------------- every run

  /** Any sequence of steps; one that is blocked is skipped. */
  function RunFrom(h: Handler, steps: seq<Step>): Handler
  {
    if |steps| == 0 then h
    else
      var before := RunFrom(h, steps[..|steps| - 1]);
      if Enabled(before, steps[|steps| - 1]) then Next(before, steps[|steps| - 1]) else before
  }

  lemma {:induction false} RunKeepsInv(h: Handler, steps: seq<Step>)
    requires Inv(h)
    ensures Inv(RunFrom(h, steps))
  {
    if |steps| > 0 {
      var before := RunFrom(h, steps[..|steps| - 1]);
      RunKeepsInv(h, steps[..|steps| - 1]);
      if Enabled(before, steps[|steps| - 1]) { NextKeepsInv(before, steps[|steps| - 1]); }
    }
  }

  /**
   In every run no request is dropped as a duplicate, rejected by the state machine or worked on without its
   context, no notification blocks, and no message reaches the chaincode out of turn.
   */
  lemma NoRequestFails(steps: seq<Step>)
    ensures RunFrom(Registered, steps).fault == None
  {
    RunKeepsInv(Registered, steps);
  }

  /** In every run the chaincode has received exactly one reply per request, except for the one it waits for. */
  lemma OneReplyPerRequest(steps: seq<Step>)
    ensures var h := RunFrom(Registered, steps);
            h.requests == h.replies + (if h.cc.Waiting? then 1 else 0)
  {
    RunKeepsInv(Registered, steps);
  }

  lemma ReplyGoingDown(h: Handler, i: nat)
    requires Inv(h) && i < |Down(h)| && (Down(h)[i].kind == RESPONSE || Down(h)[i].kind == ERROR)
    ensures h.caller.Awaiting? && InExecution(h, h.caller.txid) && AtReply(h, h.caller.txid)
  {}

  /** When a reply is on its way down, nothing is pending any more and the state machine accepts the next request. */
  lemma ClearedBeforeReply(steps: seq<Step>, i: nat, kind: Kind)
    requires var h := RunFrom(Registered, steps);
             i < |Down(h)| && (Down(h)[i].kind == RESPONSE || Down(h)[i].kind == ERROR) && Request(kind)
    ensures var h := RunFrom(Registered, steps);
            h.tables.pending == {} && Table(h.fsm, kind).Some? && h.caller.Awaiting? && h.caller.txid in h.tables.txCtxs
  {
    RunKeepsInv(Registered, steps);
    ReplyGoingDown(RunFrom(Registered, steps), i);
  }

  /**
   In every run a context's slot receives at most one message over the context's life, there is a context only
   while its creator is executing, and the creator has deleted it by the time it is done.
   */
  lemma OneNotificationPerContext(steps: seq<Step>)
    ensures var h := RunFrom(Registered, steps);
            && h.notified <= 1
            && (h.caller == NoCaller || h.caller.Done? ==> h.tables.txCtxs == map[])
            && (h.caller.Marking? || h.caller.Triggering? ==> h.tables.txCtxs.Keys == {h.caller.msg.txid})
            && (h.caller.Awaiting? || h.caller.Deleting? ==> h.tables.txCtxs.Keys == {h.caller.txid})
            && (h.caller.Done? ==> h.notified == 1)
  {
    RunKeepsInv(Registered, steps);
  }

  // ---------------------------------------------------------------- the reply arrives

  /** Steps at most between a request and its reply. */
  function Rank(h: Handler): nat
  {
    if |h.workers| > 0 then
      match h.workers[0]
      case Start(_) => 9
      case Entering(_) => 8
      case Working(_) => 7
      case Nested(_, _) => 6
      case Clearing(_, _) => 5
      case Replying(_, _) => 4
    else if h.toPeer != [] then 10
    else if h.loop.Sending? then 2
    else 1
  }

  lemma ReplyCloser(h: Handler, s: Step, x: Txid)
    requires Inv(h) && Enabled(h, s) && InExecution(h, x) && AtReply(h, x)
    ensures !Next(h, s).cc.Waiting? || Rank(Next(h, s)) < Rank(h)
  {}

  lemma WorkerCloser(h: Handler, s: Step, x: Txid)
    requires Inv(h) && Enabled(h, s) && InExecution(h, x) && AtWorker(h, x)
    ensures Rank(Next(h, s)) < Rank(h)
  {
    assert h.workers[1..] == [];
  }

  /** While the chaincode waits, whatever step is taken brings its reply closer. */
  lemma EveryStepHelps(h: Handler, s: Step)
    requires Inv(h) && h.cc.Waiting? && Enabled(h, s)
    ensures !Next(h, s).cc.Waiting? || Rank(Next(h, s)) < Rank(h)
  {
    assert InProgress(h);
    var x := h.caller.txid;
    if AtReply(h, x) {
      ReplyCloser(h, s, x);
    } else if AtWorker(h, x) {
      WorkerCloser(h, s, x);
    } else {
      assert s == LoopRecv && h.toPeer[1..] == [];
    }
  }

  /** While it waits, some step can be taken, unless its request is executing another chaincode. */
  lemma SomeStepEnabled(h: Handler) returns (s: Step)
    requires Inv(h) && h.cc.Waiting? && !(|h.workers| > 0 && h.workers[0].Nested?)
    ensures Enabled(h, s)
  {
    assert InProgress(h);
    var x := h.caller.txid;
    if AtReply(h, x) {
      s := if h.loop.Sending? then LoopSend else CcReceive;
    } else if AtRequest(h, x) {
      s := LoopRecv;
    } else if h.workers[0].Replying? && h.workers[0].viaLoop {
      s := WorkerTrigger;
    } else {
      s := WorkerStep(true);
    }
  }

  /** Every step of `steps` can be taken when its turn comes. */
  ghost predicate Feasible(h: Handler, steps: seq<Step>)
    decreases |steps|
  {
    |steps| > 0 ==> Enabled(h, steps[0]) && Feasible(Next(h, steps[0]), steps[1..])
  }

  function After(h: Handler, steps: seq<Step>): Handler
    requires Feasible(h, steps)
    decreases |steps|
  {
    if |steps| == 0 then h else After(Next(h, steps[0]), steps[1..])
  }

  /** On every schedule the reply is there within as many steps as the rank says. */
  lemma {:induction false} ReplyArrives(h: Handler, steps: seq<Step>) returns (i: nat)
    requires Inv(h) && h.cc.Waiting? && Feasible(h, steps) && |steps| >= Rank(h)
    ensures i <= Rank(h) && i <= |steps| && Feasible(h, steps[..i]) && !After(h, steps[..i]).cc.Waiting?
    decreases |steps|
  {
    NextKeepsInv(h, steps[0]);
    EveryStepHelps(h, steps[0]);
    var n := Next(h, steps[0]);
    if !n.cc.Waiting? {
      i := 1;
      assert steps[..1][1..] == [];
    } else {
      var j := ReplyArrives(n, steps[1..]);
      i := j + 1;
      assert steps[..i][1..] == steps[1..][..j];
    }
  }

  /** In every run, on every continuation of ten steps or more, the chaincode stops waiting within ten. */
  lemma RepliedWithinTen(steps: seq<Step>, more: seq<Step>) returns (i: nat)
    requires var h := RunFrom(Registered, steps); h.cc.Waiting? && Feasible(h, more) && |more| >= 10
    ensures var h := RunFrom(Registered, steps);
            i <= 10 && Feasible(h, more[..i]) && !After(h, more[..i]).cc.Waiting?
  {
    RunKeepsInv(Registered, steps);
    i := ReplyArrives(RunFrom(Registered, steps), more);
  }

  // ---------------------------------------------------------------- what a request and an execution end with

  /** Step `s` can be taken and leads to `n`. */
  predicate Goes(h: Handler, s: Step, n: Handler) { Enabled(h, s) && n == Next(h, s) }

  /** A GET_STATE goroutine replies with the ledger's outcome, straight onto the stream, and leaves no trace. */
  lemma GetStateOutcome(h: Handler, req: Message, ok: bool) returns (h1: Handler, h2: Handler, h3: Handler, n: Handler)
    requires h.workers == [Start(req)] && req.kind == GET_STATE
    requires req.txid in h.tables.txCtxs && req.txid !in h.tables.pending
    ensures Goes(h, WorkerStep(ok), h1) && Goes(h1, WorkerStep(ok), h2)
    ensures Goes(h2, WorkerStep(ok), h3) && Goes(h3, WorkerStep(ok), n)
    ensures n == h.(workers := [], toCC := h.toCC + [Message(if ok then RESPONSE else ERROR, req.txid)])
  {
    h1 := Next(h, WorkerStep(ok));
    h2 := Next(h1, WorkerStep(ok));
    h3 := Next(h2, WorkerStep(ok));
    n := Next(h3, WorkerStep(ok));
    assert n.tables.pending == h.tables.pending;
  }

  /** A goroutine that modifies hands the outcome to the message loop, which moves the machine on before sending it. */
  lemma ModifyOutcome(h: Handler, req: Message, ok: bool) returns (h1: Handler, h2: Handler, h3: Handler, n: Handler)
    requires h.workers == [Working(req)] && (req.kind == PUT_STATE || req.kind == DEL_STATE) && Busy(h.fsm)
    requires req.txid in h.tables.txCtxs && h.loop == Select
    ensures Goes(h, WorkerStep(ok), h1) && Goes(h1, WorkerStep(ok), h2) && Goes(h2, WorkerTrigger, h3)
    ensures h3.fsm == (if h.fsm == BusyInit then Init else Transaction) && h3.toCC == h.toCC
    ensures Goes(h3, LoopSend, n)
    ensures n == h.(workers := [], toCC := h.toCC + [Message(if ok then RESPONSE else ERROR, req.txid)], fsm := h3.fsm,
                    tables := h.tables.(pending := h.tables.pending - {req.txid}))
  {
    h1 := Next(h, WorkerStep(ok));
    h2 := Next(h1, WorkerStep(ok));
    h3 := Next(h2, WorkerTrigger);
    n := Next(h3, LoopSend);
  }

  lemma FinalHandled(h: Handler, x: Txid) returns (n: Handler)
    requires InExecution(h, x) && AtFinal(h, x) && h.loop == Select && h.fault.None?
    ensures Goes(h, LoopRecv, n)
    ensures n.tables == Tables(map[x := [h.toPeer[0]]], {}, {}) && n.caller == Awaiting(x) && n.fault.None?
    ensures n.fsm == if h.fsm == Init && h.toPeer[0].kind == ERROR then End else ReadyState
    ensures n.loop == Ended <==> n.fsm == End
  {
    n := Next(h, LoopRecv);
    var m, none: seq<Message> := h.toPeer[0], [];
    assert none + [m] == [m] && map[x := none][x := [m]] == map[x := [m]];
    assert n.tables.isTransaction == {};
  }

  /** The chaincode's final message becomes the caller's result, and nothing of the execution stays in the tables. */
  lemma FinalReachesCaller(h: Handler, x: Txid) returns (h1: Handler, h2: Handler, n: Handler)
    requires InExecution(h, x) && AtFinal(h, x) && h.loop == Select && h.fault.None?
    ensures Goes(h, LoopRecv, h1) && Goes(h1, Await, h2) && Goes(h2, Delete, n)
    ensures n.caller == Done(x, h.toPeer[0].kind == COMPLETED) && n.tables == Tables(map[], {}, {}) && n.fault.None?
    ensures n.fsm == if h.fsm == Init && h.toPeer[0].kind == ERROR then End else ReadyState
    ensures n.loop == Ended <==> n.fsm == End
  {
    h1 := FinalHandled(h, x);
    h2 := Next(h1, Await);
    assert h2.tables == Tables(map[x := []], {}, {});
    n := Next(h2, Delete);
  }

  /** A request that modifies gets to work, pending, exactly if its transaction is marked and nothing is pending for it. */
  lemma ModifyStarts(h: Handler, req: Message, ok: bool) returns (h1: Handler, n: Handler)
    requires h.workers == [Start(req)] && Modifies(req.kind)
    requires req.txid in h.tables.isTransaction
    ensures Goes(h, WorkerStep(ok), h1) && Goes(h1, WorkerStep(ok), n)
    ensures n == if req.txid in h.tables.pending then h.(workers := [], fault := Some(DroppedAsDuplicate))
                 else h.(workers := [Working(req)], tables := h.tables.(pending := h.tables.pending + {req.txid}))
  {
    h1 := Next(h, WorkerStep(ok));
    n := Next(h1, WorkerStep(ok));
    assert h1.workers[1..] == [] && h.workers[1..] == [];
  }

  /** Outside a transaction it is answered with an error, through the message loop, and never becomes pending. */
  lemma UnmarkedRefused(h: Handler, req: Message, ok: bool) returns (h1: Handler, n: Handler)
    requires h.workers == [Start(req)] && Modifies(req.kind) && Busy(h.fsm) && h.loop == Select
    requires req.txid !in h.tables.isTransaction
    ensures Goes(h, WorkerStep(ok), h1) && Goes(h1, WorkerTrigger, n)
    ensures n == h.(workers := [], loop := Sending(Message(ERROR, req.txid)),
                    fsm := if h.fsm == BusyInit then Init else Transaction)
  {
    h1 := Next(h, WorkerStep(ok));
    assert h.workers[1..] == [] && h1.workers[1..] == [];
    n := Next(h1, WorkerTrigger);
  }

  /** A request whose context is gone is the only one that dereferences nil; a call is then answered with an error. */
  lemma ContextNeeded(h: Handler, req: Message, ok: bool)
    requires h.workers == [Working(req)] && Request(req.kind) && h.fault.None?
    ensures var n := Next(h, WorkerStep(ok));
            && (n.fault == Some(NilContext) <==> req.kind != INVOKE_CHAINCODE && req.txid !in h.tables.txCtxs)
            && (req.kind == INVOKE_CHAINCODE ==> n.workers == [Clearing(Message(ERROR, req.txid), true)])
  {
    assert h.workers[1..] == [];
  }

  /** A busy state is left, by reply or error, for exactly the state that the request was made in. */
  lemma BusyIsUndone(s: Fsm, k: Kind, reply: Kind)
    requires Modifies(k) && (reply == RESPONSE || reply == ERROR)
    ensures Table(s, k).Some? <==> Executing(s)
    ensures Executing(s) ==> Busy(Table(s, k).value) && Table(Table(s, k).value, reply) == Some(s)
    ensures Busy(s) ==> Table(s, COMPLETED).None? && Table(s, TRANSACTION).None? && Table(s, k).None?
    ensures Executing(s) ==> Table(s, RESPONSE).None? && Table(s, COMPLETED) == Some(ReadyState)
  {}

  /** Reading never changes the state, and is possible from initialisation until the end. */
  lemma ReadingStays(s: Fsm)
    ensures Table(s, GET_STATE) == if s == Established || s == End then None else Some(s)
    ensures Table(s, INIT).Some? <==> s == Established
    ensures Table(s, READY).Some? <==> s == Established
    ensures Table(s, TRANSACTION).Some? <==> s == ReadyState
    ensures Table(End, GET_STATE).None? && Table(End, ERROR).None? && Table(End, COMPLETED).None?
    ensures Table(ReadyState, COMPLETED) == Some(ReadyState) && Table(ReadyState, ERROR).None?
  {}

  // ---------------------------------------------------------------- how an execution gets to the chaincode

  lemma TransactionTravels(h: Handler, x: Txid, from: Option<Name>)
    returns (h1: Handler, h2: Handler, h3: Handler, h4: Handler, n: Handler)
    requires h.caller == NoCaller && h.fsm == ReadyState && h.loop == Select && h.toCC == [] && h.cc == Idle
    requires h.tables == Tables(map[], {}, {})
    ensures Goes(h, Begin(x, TRANSACTION, from), h1) && Goes(h1, Mark, h2) && Goes(h2, Trigger, h3)
    ensures Goes(h3, LoopSend, h4) && Goes(h4, CcReceive, n)
    ensures n == h.(cc := Running(x), caller := Awaiting(x), from := from, fsm := Transaction, notified := 0,
                    tables := Tables(map[x := []], {}, {x}))
  {
    h1 := Next(h, Begin(x, TRANSACTION, from));
    h2 := Next(h1, Mark);
    h3 := Next(h2, Trigger);
    h4 := Next(h3, LoopSend);
    assert h4.toCC == [Message(TRANSACTION, x)];
    n := Next(h4, CcReceive);
  }

  /** A transaction on an idle, ready stream with nothing under way reaches the chaincode in five steps. */
  lemma TransactionArrives(h: Handler, x: Txid, from: Option<Name>)
    returns (h1: Handler, h2: Handler, h3: Handler, h4: Handler, n: Handler)
    requires Inv(h) && h.caller == NoCaller && h.fsm == ReadyState && Down(h) == []
    ensures Goes(h, Begin(x, TRANSACTION, from), h1) && Goes(h1, Mark, h2) && Goes(h2, Trigger, h3)
    ensures Goes(h3, LoopSend, h4) && Goes(h4, CcReceive, n)
    ensures n == h.(cc := Running(x), caller := Awaiting(x), from := from, fsm := Transaction, notified := 0,
                    tables := Tables(map[x := []], {}, {x}))
  {
    h1, h2, h3, h4, n := TransactionTravels(h, x, from);
  }

  /** Initialisation with arguments reaches the chaincode in three. */
  lemma InitArrives(h: Handler, x: Txid, from: Option<Name>) returns (h1: Handler, h2: Handler, n: Handler)
    requires Inv(h) && h.caller == NoCaller && h.fsm == Established
    ensures Goes(h, Begin(x, INIT, from), h1) && Goes(h1, Trigger, h2) && Goes(h2, CcReceive, n)
    ensures n.cc == Running(x) && n.caller == Awaiting(x) && n.from == from && n.fsm == Init
    ensures n.tables == Tables(map[x := []], {}, {x}) && n.toCC == [] && n.loop == Select
  {
    assert AtRest(h);
    h1 := Next(h, Begin(x, INIT, from));
    h2 := Next(h1, Trigger);
    assert h2.toCC == [Message(INIT, x)];
    n := Next(h2, CcReceive);
  }

  /** Without arguments the handler is ready at once, its caller done without the chaincode, which is told. */
  lemma ReadyCompletes(h: Handler, x: Txid, from: Option<Name>) returns (h1: Handler, h2: Handler, h3: Handler, n: Handler)
    requires Inv(h) && h.caller == NoCaller && h.fsm == Established
    ensures Goes(h, Begin(x, READY, from), h1) && Goes(h1, Trigger, h2) && Goes(h2, Await, h3) && Goes(h3, Delete, n)
    ensures n.caller == Done(x, true) && n.from == from && n.fsm == ReadyState && n.cc == Idle
    ensures n.tables == Tables(map[], {}, {}) && n.loop == Sending(Message(READY, x))
  {
    assert AtRest(h);
    h1 := Next(h, Begin(x, READY, from));
    h2 := Next(h1, Trigger);
    var m, none: seq<Message> := Message(READY, x), [];
    assert none + [m] == [m] && h2.tables.txCtxs[x] == [m];
    h3 := Next(h2, Await);
    n := Next(h3, Delete);
    assert n.tables.isTransaction == {} && n.tables.txCtxs == map[];
  }
}
