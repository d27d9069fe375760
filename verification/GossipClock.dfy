/**
 Logical clocks of gossip membership (gossip/discovery/discovery_impl.go): a peer's incarnation number and
 sequence number arrive as two unsigned 64-bit integers, the incarnation is kept as a wall-clock instant, and
 the two are compared through the instant's nanoseconds.
 */
module GossipClock {

  const TWO_63: int := 0x8000_0000_0000_0000
  const TWO_64: int := 0x1_0000_0000_0000_0000
  const NANOS_PER_SECOND: int := 1_000_000_000

  type u64 = x: int | 0 <= x < TWO_64

  /** The conversion int64(u): the same 64 bits read as a signed number. */
  function ToInt64(u: u64): int { if u < TWO_63 then u else u - TWO_64 }

  /** The conversion uint64(i) of a signed 64-bit number. */
  function ToUint64(i: int): u64 { i % TWO_64 }

  /** Signed 64-bit wrap-around. */
  function WrapInt64(i: int): int { ToInt64(i % TWO_64) }

  /** Integer division that truncates toward zero. */
  function Quotient(a: int, b: int): int
    requires b > 0
  {
    if a >= 0 then a / b else -((-a) / b)
  }

  /** An instant: whole seconds since the epoch and nanoseconds within the second. */
  datatype Time = Time(sec: int, nsec: int)

  /** time.Unix: nanoseconds outside one second are carried into the seconds. */
  function Unix(sec: int, nsec: int): Time
  {
    if nsec < 0 || nsec >= NANOS_PER_SECOND then
      var n := Quotient(nsec, NANOS_PER_SECOND);
      var rest := nsec - n * NANOS_PER_SECOND;
      if rest < 0 then Time(sec + n - 1, rest + NANOS_PER_SECOND) else Time(sec + n, rest)
    else Time(sec, nsec)
  }

  function UnixNano(t: Time): int { WrapInt64(t.sec * NANOS_PER_SECOND + t.nsec) }

  function TsToTime(ts: u64): Time { Unix(0, ToInt64(ts)) }

  /** Storing any of the 2^64 incarnation numbers as an instant and reading it back is the identity. */
  lemma IncarnationRoundTrip(ts: u64)
    ensures ToUint64(UnixNano(TsToTime(ts))) == ts
    ensures 0 <= TsToTime(ts).nsec < NANOS_PER_SECOND
  {
    var i := ToInt64(ts);
    var t := TsToTime(ts);
    assert t.sec * NANOS_PER_SECOND + t.nsec == i;
    assert i % TWO_64 == ts;
  }

  /** The clock value carried by a message. */
  datatype PeerTime = PeerTime(inc: u64, seqNum: u64)

  /** The clock value as recorded for a peer, with the local time it was last seen. */
  datatype Timestamp = Timestamp(incTime: Time, seqNum: u64, lastSeen: int)

  predicate Before(a: Timestamp, b: PeerTime)
  {
    || (ToUint64(UnixNano(a.incTime)) == b.inc && a.seqNum < b.seqNum)
    || ToUint64(UnixNano(a.incTime)) < b.inc
  }

  predicate Same(a: Timestamp, b: PeerTime)
  {
    ToUint64(UnixNano(a.incTime)) == b.inc && a.seqNum == b.seqNum
  }

  /** What a record says about the peer's clock. */
  function Clock(t: Timestamp): PeerTime { PeerTime(ToUint64(UnixNano(t.incTime)), t.seqNum) }

  /** Recording a received clock value; the record reads back as that value. */
  function Stamp(p: PeerTime, now: int): (t: Timestamp)
    ensures Clock(t) == p && t.lastSeen == now
  {
    IncarnationRoundTrip(p.inc);
    Timestamp(TsToTime(p.inc), p.seqNum, now)
  }

  /** Lexicographic order on (incarnation, sequence number). */
  predicate Less(p: PeerTime, q: PeerTime)
  {
    p.inc < q.inc || (p.inc == q.inc && p.seqNum < q.seqNum)
  }

  predicate AtMost(p: PeerTime, q: PeerTime) { p == q || Less(p, q) }

  /**
   On records, `Before` and `Same` are a strict lexicographic order: exactly one of earlier, same and later
   holds of two clock values whichever of them was recorded, and the order is transitive.
   */
  lemma RecordsAreOrdered(p: PeerTime, q: PeerTime, r: PeerTime, now: int)
    ensures Before(Stamp(p, now), q) <==> Less(p, q)
    ensures Same(Stamp(p, now), q) <==> p == q
    ensures Before(Stamp(p, now), q) <==> !Same(Stamp(p, now), q) && !Before(Stamp(q, now), p)
    ensures Before(Stamp(p, now), q) && Before(Stamp(q, now), r) ==> Before(Stamp(p, now), r)
  {
    assert Clock(Stamp(p, now)) == p && Clock(Stamp(q, now)) == q;
  }
}
