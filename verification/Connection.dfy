/**
 One gossip connection (gossip/comm/conn.go): any number of senders put messages into a bounded buffer under the
 connection's lock, a writing loop drains it onto the stream, and a single stop token put by the first close
 call is passed between the writing loop and the reading loop through a one-slot channel.
 */
module Connection {
  import opened Options

  type Msg(==, !new)

  /** defSendBuffSize. */
  const SEND_BUFFER := 20

  /** writeToStream: before the stop check, before getStream, in select, sending, holding the token, returned. */
  datatype Writer = WTop | WStream | WSelect | WSending(msg: Msg) | WToken | WDone

  /** serviceConnection: before the stop check, in select, holding the token, returned. */
  datatype Service = STop | SSelect | SToken | SDone

  /** Threads in the middle of send (lock held, room seen) or of close (flag won, then token put). */
  datatype Pc = Pushing(msg: Msg) | Putting | Locking

  datatype Conn = Conn(
    outBuff: seq<Msg>, accepted: seq<Msg>, sent: seq<Msg>, failed: seq<Msg>, lock: Option<nat>,
    stopFlag: bool, stopChan: nat, writer: Writer, service: Service, threads: map<nat, Pc>)

  datatype Step =
    | SendCheck(tid: nat, msg: Msg)   // lock, compare the length, report overflow or go on
    | SendPush(tid: nat)              // outBuff <- m, unlock
    | CloseFlag(tid: nat)             // compare-and-swap on the stop flag
    | ClosePut(tid: nat)              // stopChan <- token
    | CloseStreams(tid: nat)          // lock, close, unlock
    | WriterCheck | WriterStream(nilStream: bool) | WriterTake | WriterSent(ok: bool) | WriterStop | WriterPutBack
    | ServiceCheck | ServiceStop | ServiceMessage | ServiceError | ServicePutBack

  /** Whether a step can be taken now; a step that blocks in the source is not enabled. */
  predicate Enabled(c: Conn, s: Step)
  {
    match s
    case SendCheck(t, _) => t !in c.threads && c.lock.None?
    case SendPush(t) => t in c.threads && c.threads[t].Pushing? && |c.outBuff| < SEND_BUFFER
    case CloseFlag(t) => t !in c.threads
    case ClosePut(t) => t in c.threads && c.threads[t].Putting? && c.stopChan < 1
    case CloseStreams(t) => t in c.threads && c.threads[t].Locking? && c.lock.None?
    case WriterCheck => c.writer.WTop?
    case WriterStream(_) => c.writer.WStream? && c.lock.None?
    case WriterTake => c.writer.WSelect? && c.outBuff != []
    case WriterSent(_) => c.writer.WSending?
    case WriterStop => c.writer.WSelect? && c.stopChan > 0
    case WriterPutBack => c.writer.WToken? && c.stopChan < 1
    case ServiceCheck => c.service.STop?
    case ServiceStop => c.service.SSelect? && c.stopChan > 0
    case ServiceMessage => c.service.SSelect?
    case ServiceError => c.service.SSelect?
    case ServicePutBack => c.service.SToken? && c.stopChan < 1
  }

  function NextThread(c: Conn, s: Step): Conn
    requires Enabled(c, s)
  {
    match s
    case SendCheck(t, m) =>
      if |c.outBuff| == SEND_BUFFER then c
      else c.(lock := Some(t), threads := c.threads[t := Pushing(m)])
    case SendPush(t) =>
      c.(outBuff := c.outBuff + [c.threads[t].msg], accepted := c.accepted + [c.threads[t].msg],
         lock := None, threads := c.threads - {t})
    case CloseFlag(t) => if c.stopFlag then c else c.(stopFlag := true, threads := c.threads[t := Putting])
    case ClosePut(t) => c.(stopChan := c.stopChan + 1, threads := c.threads[t := Locking])
    case CloseStreams(t) => c.(threads := c.threads - {t})
    case _ => c
  }

  function NextLoop(c: Conn, s: Step): Conn
    requires Enabled(c, s)
  {
    match s
    case WriterCheck => c.(writer := if c.stopFlag then WDone else WStream)
    case WriterStream(nilStream) => c.(writer := if nilStream then WDone else WSelect)
    case WriterTake => c.(outBuff := c.outBuff[1..], writer := WSending(c.outBuff[0]))
    case WriterSent(ok) =>
      if ok then c.(sent := c.sent + [c.writer.msg], writer := WTop)
      else c.(failed := c.failed + [c.writer.msg], writer := WDone)
    case WriterStop => c.(stopChan := c.stopChan - 1, writer := WToken)
    case WriterPutBack => c.(stopChan := c.stopChan + 1, writer := WDone)
    case ServiceCheck => c.(service := if c.stopFlag then SDone else SSelect)
    case ServiceStop => c.(stopChan := c.stopChan - 1, service := SToken)
    case ServiceMessage => c.(service := STop)
    case ServiceError => c.(service := SDone)
    case ServicePutBack => c.(stopChan := c.stopChan + 1, service := SDone)
    case _ => c
  }

  predicate ByThread(s: Step)
  {
    s.SendCheck? || s.SendPush? || s.CloseFlag? || s.ClosePut? || s.CloseStreams?
  }

  function Next(c: Conn, s: Step): Conn
  {
    if !Enabled(c, s) then c else if ByThread(s) then NextThread(c, s) else NextLoop(c, s)
  }

  const Start := Conn([], [], [], [], None, false, 0, WTop, STop, map[])

  function Run(steps: seq<Step>): Conn
  {
    if |steps| == 0 then Start else Next(Run(steps[..|steps| - 1]), steps[|steps| - 1])
  }

  // ---------------------------------------------------------------- invariant

  function InHand(c: Conn): seq<Msg> { if c.writer.WSending? then [c.writer.msg] else [] }

  /** Accepted messages are, in order: sent, the one that failed, the one in hand, the buffer. */
  ghost predicate Accounted(c: Conn)
  {
    && c.accepted == c.sent + c.failed + InHand(c) + c.outBuff
    && (c.failed != [] ==> |c.failed| == 1 && c.writer.WDone?)
  }

  /** The lock is held across steps only by a sender that saw room, and the room is still there. */
  ghost predicate LockOk(c: Conn)
  {
    && |c.outBuff| <= SEND_BUFFER
    && (c.lock.Some? ==> |c.outBuff| < SEND_BUFFER)
    && (forall t :: t in c.threads && c.threads[t].Pushing? ==> c.lock == Some(t))
    && (c.lock.Some? ==> c.lock.value in c.threads && c.threads[c.lock.value].Pushing?)
  }

  function Putters(c: Conn): set<nat> { set t | t in c.threads && c.threads[t].Putting? }

  function Tokens(c: Conn): nat
  {
    c.stopChan + (if c.writer.WToken? then 1 else 0) + (if c.service.SToken? then 1 else 0) + |Putters(c)|
  }

  /** There is one token once the stop flag is set, none before, wherever it currently is. */
  ghost predicate OneToken(c: Conn) { Tokens(c) == if c.stopFlag then 1 else 0 }

  ghost predicate Inv(c: Conn) { Accounted(c) && LockOk(c) && OneToken(c) }

  lemma NextKeepsAccounted(c: Conn, s: Step)
    requires Accounted(c)
    ensures Accounted(Next(c, s))
  {
    var n := Next(c, s);
    match s
    case SendPush(t) =>
      if Enabled(c, s) {
        var m := c.threads[t].msg;
        assert c.sent + c.failed + InHand(c) + (c.outBuff + [m]) == c.sent + c.failed + InHand(c) + c.outBuff + [m];
      }
    case WriterTake =>
      if Enabled(c, s) {
        assert c.failed == [] && InHand(c) == [];
        assert c.sent + c.outBuff == c.sent + [c.outBuff[0]] + c.outBuff[1..];
      }
    case WriterSent(ok) =>
      if Enabled(c, s) { assert c.failed == []; }
    case _ =>
  }

  lemma NextKeepsLock(c: Conn, s: Step)
    requires LockOk(c)
    ensures LockOk(Next(c, s))
  {}

  lemma ThreadKeepsToken(c: Conn, s: Step)
    requires OneToken(c) && Enabled(c, s) && ByThread(s)
    ensures OneToken(NextThread(c, s))
  {
    var n := NextThread(c, s);
    if s.CloseFlag? && !c.stopFlag {
      assert Putters(n) == Putters(c) + {s.tid};
    } else if s.ClosePut? {
      assert Putters(n) == Putters(c) - {s.tid} && s.tid in Putters(c);
    } else {
      assert Putters(n) == Putters(c);
    }
  }

  lemma LoopKeepsToken(c: Conn, s: Step)
    requires OneToken(c) && Enabled(c, s) && !ByThread(s)
    ensures OneToken(NextLoop(c, s))
  {}

  lemma NextKeepsToken(c: Conn, s: Step)
    requires OneToken(c)
    ensures OneToken(Next(c, s))
  {
    if Enabled(c, s) {
      if ByThread(s) { ThreadKeepsToken(c, s); } else { LoopKeepsToken(c, s); }
    }
  }

  lemma {:induction false} RunKeepsInv(steps: seq<Step>)
    ensures Inv(Run(steps))
  {
    if |steps| > 0 {
      RunKeepsInv(steps[..|steps| - 1]);
      var c := Run(steps[..|steps| - 1]);
      NextKeepsAccounted(c, steps[|steps| - 1]);
      NextKeepsLock(c, steps[|steps| - 1]);
      NextKeepsToken(c, steps[|steps| - 1]);
    } else {
      assert Putters(Start) == {};
    }
  }

  // ---------------------------------------------------------------- results

  /** A sender that has passed the length check never blocks on the buffer, whatever runs in between. */
  lemma SendNeverBlocks(steps: seq<Step>, t: nat)
    requires t in Run(steps).threads && Run(steps).threads[t].Pushing?
    ensures Enabled(Run(steps), SendPush(t))
  {
    RunKeepsInv(steps);
  }

  /** Nothing accepted is lost, duplicated or reordered on its way to the stream. */
  lemma MessagesConserved(steps: seq<Step>)
    ensures var c := Run(steps); c.accepted == c.sent + c.failed + InHand(c) + c.outBuff
    ensures |Run(steps).failed| <= 1 && |Run(steps).outBuff| <= SEND_BUFFER
  {
    RunKeepsInv(steps);
  }

  /** Putting the stop token, the first time or back, never blocks: the one-slot channel is then empty. */
  lemma PuttingTokenNeverBlocks(steps: seq<Step>)
    ensures var c := Run(steps);
            && (forall t :: t in c.threads && c.threads[t].Putting? ==> Enabled(c, ClosePut(t)))
            && (c.writer.WToken? ==> Enabled(c, WriterPutBack))
            && (c.service.SToken? ==> Enabled(c, ServicePutBack))
  {
    RunKeepsInv(steps);
    var c := Run(steps);
    forall t | t in c.threads && c.threads[t].Putting? ensures Enabled(c, ClosePut(t)) {
      assert t in Putters(c);
      assert |Putters(c)| > 0;
    }
  }

  /**
   After a close, a loop blocked in its select can always leave: the token is in the channel, or somebody
   holding it can put it there. At most one closer ever puts one.
   */
  lemma StoppedLoopsCanLeave(steps: seq<Step>) returns (next: Step)
    requires Run(steps).stopFlag && (Run(steps).writer.WSelect? || Run(steps).service.SSelect?)
    ensures Enabled(Run(steps), next)
    ensures next in {WriterStop, ServiceStop, WriterPutBack, ServicePutBack} || next.ClosePut?
    ensures |Putters(Run(steps))| <= 1
  {
    RunKeepsInv(steps);
    PuttingTokenNeverBlocks(steps);
    var c := Run(steps);
    if c.stopChan > 0 { return if c.writer.WSelect? then WriterStop else ServiceStop; }
    if c.writer.WToken? { return WriterPutBack; }
    if c.service.SToken? { return ServicePutBack; }
    assert Putters(c) != {};
    var t :| t in Putters(c);
    next := ClosePut(t);
  }

  // ---------------------------------------------------------------- what a send comes to

  /** At step `i` of the run a message in hand could not be sent. */
  ghost predicate FailsAt(steps: seq<Step>, i: nat)
  {
    i < |steps| && steps[i] == WriterSent(false) && Run(steps[..i]).writer.WSending?
  }

  lemma OnlyFailuresFail(c: Conn, s: Step)
    ensures Next(c, s).failed == c.failed + if s == WriterSent(false) && c.writer.WSending? then [c.writer.msg] else []
  {}

  /** Once a message has failed, the writing loop is over and nothing else fails. */
  lemma {:induction false} FailureIsLast(steps: seq<Step>, i: nat)
    requires FailsAt(steps, i)
    ensures Run(steps).failed == [Run(steps[..i]).writer.msg] && Run(steps).writer == WDone
  {
    var init, step := steps[..|steps| - 1], steps[|steps| - 1];
    RunKeepsInv(init);
    OnlyFailuresFail(Run(init), step);
    if i < |steps| - 1 {
      assert init[..i] == steps[..i];
      FailureIsLast(init, i);
    } else {
      assert Run(init).failed == [];
    }
  }

  /** In every run a message counts as failed if and only if sending it reported an error. */
  lemma {:induction false} FailedExactly(steps: seq<Step>)
    ensures Run(steps).failed != [] <==> exists i: nat :: FailsAt(steps, i)
  {
    if |steps| > 0 {
      var init, step := steps[..|steps| - 1], steps[|steps| - 1];
      FailedExactly(init);
      OnlyFailuresFail(Run(init), step);
      if Run(init).failed != [] {
        var i: nat :| FailsAt(init, i);
        assert init[..i] == steps[..i];
        assert FailsAt(steps, i);
      } else if Run(steps).failed != [] {
        assert FailsAt(steps, |steps| - 1);
      } else {
        forall i: nat ensures !FailsAt(steps, i) { if FailsAt(steps, i) { FailureIsLast(steps, i); } }
      }
    }
  }

  /** In every run without such an error the accepted messages are those sent, the one in hand and the buffer. */
  lemma WithoutFailureAllSent(steps: seq<Step>)
    requires WriterSent(false) !in steps
    ensures var c := Run(steps); c.failed == [] && c.accepted == c.sent + InHand(c) + c.outBuff
  {
    FailedExactly(steps);
    RunKeepsInv(steps);
    var c := Run(steps);
    assert c.sent + c.failed + InHand(c) + c.outBuff == c.sent + InHand(c) + c.outBuff;
  }

  predicate Goes(c: Conn, s: Step, n: Conn) { Enabled(c, s) && n == Next(c, s) }

  /** With room and the lock free, a send is accepted at the end of the buffer; on a full buffer it changes nothing. */
  lemma SendOutcome(c: Conn, t: nat, m: Msg) returns (c1: Conn, n: Conn)
    requires t !in c.threads && c.lock.None? && |c.outBuff| <= SEND_BUFFER
    ensures Goes(c, SendCheck(t, m), c1)
    ensures |c.outBuff| == SEND_BUFFER ==> c1 == c
    ensures |c.outBuff| < SEND_BUFFER ==> Goes(c1, SendPush(t), n)
    ensures |c.outBuff| < SEND_BUFFER ==> n == c.(outBuff := c.outBuff + [m], accepted := c.accepted + [m])
  {
    c1 := Next(c, SendCheck(t, m));
    n := Next(c1, SendPush(t));
    assert c.threads[t := Pushing(m)] - {t} == c.threads;
  }

  /** The writing loop, on a working stream that is not stopped, sends the oldest message and is back at its start. */
  lemma WriterDelivers(c: Conn) returns (c1: Conn, c2: Conn, c3: Conn, n: Conn)
    requires c.writer == WTop && !c.stopFlag && c.lock.None? && c.outBuff != []
    ensures Goes(c, WriterCheck, c1) && Goes(c1, WriterStream(false), c2) && Goes(c2, WriterTake, c3)
    ensures Goes(c3, WriterSent(true), n)
    ensures n == c.(outBuff := c.outBuff[1..], sent := c.sent + [c.outBuff[0]])
  {
    c1 := Next(c, WriterCheck);
    c2 := Next(c1, WriterStream(false));
    c3 := Next(c2, WriterTake);
    n := Next(c3, WriterSent(true));
  }

  /** A loop that is not stopped goes on to wait; a missing stream or an error ends it, a message brings it round. */
  lemma LoopsGoRound(c: Conn)
    ensures c.writer == WStream && c.lock.None? ==> Goes(c, WriterStream(true), c.(writer := WDone))
    ensures c.writer.WSending? ==> Enabled(c, WriterSent(false)) && Next(c, WriterSent(false)).writer == WDone
    ensures c.service == STop && !c.stopFlag ==> Goes(c, ServiceCheck, c.(service := SSelect))
    ensures c.service == SSelect ==> Goes(c, ServiceMessage, c.(service := STop))
    ensures c.service == SSelect ==> Goes(c, ServiceError, c.(service := SDone))
  {}

  /** The first close sets the flag and puts the token; a later one changes nothing. */
  lemma CloseOutcome(c: Conn, t: nat) returns (c1: Conn, c2: Conn, n: Conn)
    requires t !in c.threads && c.stopChan == 0 && c.lock.None?
    ensures Goes(c, CloseFlag(t), c1)
    ensures c.stopFlag ==> c1 == c
    ensures !c.stopFlag ==> Goes(c1, ClosePut(t), c2) && Goes(c2, CloseStreams(t), n)
    ensures !c.stopFlag ==> n == c.(stopFlag := true, stopChan := 1)
  {
    c1 := Next(c, CloseFlag(t));
    c2 := Next(c1, ClosePut(t));
    n := Next(c2, CloseStreams(t));
    assert c.threads[t := Putting][t := Locking] - {t} == c.threads;
  }

  /** After a close both loops end, whichever takes the token first: at their next check, or with the token put back. */
  lemma StoppedLoopsEnd(c: Conn)
    requires c.stopFlag
    ensures c.writer == WTop ==> Goes(c, WriterCheck, c.(writer := WDone))
    ensures c.service == STop ==> Goes(c, ServiceCheck, c.(service := SDone))
    ensures c.writer == WSelect && c.stopChan == 1 ==>
      Goes(c, WriterStop, c.(stopChan := 0, writer := WToken))
      && Goes(c.(stopChan := 0, writer := WToken), WriterPutBack, c.(writer := WDone))
    ensures c.service == SSelect && c.stopChan == 1 ==>
      Goes(c, ServiceStop, c.(stopChan := 0, service := SToken))
      && Goes(c.(stopChan := 0, service := SToken), ServicePutBack, c.(service := SDone))
  {}

  // ---------------------------------------------------------------- the object

  /** The connection's own methods, run without interference. */
  class GossipConnection {
    var outBuff: seq<Msg>
    var stopFlag: bool
    var stopChan: nat

    ghost predicate Valid()
      reads this
    {
      |outBuff| <= SEND_BUFFER && (!stopFlag ==> stopChan == 0) && stopChan <= 1
    }

    constructor ()
      ensures Valid() && outBuff == [] && !stopFlag && stopChan == 0
    {
      outBuff, stopFlag, stopChan := [], false, 0;
    }

    /** Appends the message, or reports overflow and leaves the buffer alone when it is full. */
    method Send(msg: Msg) returns (overflow: bool)
      requires Valid()
      modifies this`outBuff
      ensures Valid()
      ensures overflow <==> |old(outBuff)| == SEND_BUFFER
      ensures outBuff == if overflow then old(outBuff) else old(outBuff) + [msg]
    {
      if |outBuff| == SEND_BUFFER { return true; }
      outBuff := outBuff + [msg];
      overflow := false;
    }

    /** The first call puts the token; later calls change nothing. */
    method Close()
      requires Valid()
      modifies this`stopFlag, this`stopChan
      ensures Valid() && stopFlag
      ensures stopChan == if old(stopFlag) then old(stopChan) else 1
    {
      if stopFlag { return; }
      stopFlag := true;
      stopChan := stopChan + 1;
    }
  }
}
