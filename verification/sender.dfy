/**
 * The byte-window sender: a rate limit and a window of outstanding bytes
 * gate each send; acknowledgments and timeouts refresh the rate and window
 * from the controller, whose answers arrive here as a `RatView`.
 */
module Senders {
  import opened Wrappers
  import opened WireCodec
  import opened RatController

  /** The controller's answers to `GetSendRate` and `GetCongestionWindow`. */
  datatype RatView = RatView(sendRate: real, congestionWindow: int)

  /** An acknowledgment: the packet's sequence number, the bytes it covers, its send time. */
  datatype Ack = Ack(seqNo: int, bytesAcked: int, sentTime: int)

  datatype SenderError = TooEarly(id: int) | WindowFull(id: int)

  /**
   * The gap the rate limit asks for as written: `1/rate` is converted to a
   * whole number of nanoseconds first and only then multiplied by a second.
   */
  function RateGapAsWritten(rate: real): (gap: int)
    requires rate != 0.0
    ensures gap % NanosPerSecond == 0
    ensures rate > 0.0 ==> gap >= 0
  {
    Truncate(1.0 / rate) * NanosPerSecond
  }

  /** The gap the rate limit means: `1/rate` seconds, in nanoseconds, truncated toward zero. */
  function RateGap(rate: real): (gap: int)
    requires rate != 0.0
    ensures rate > 0.0 ==> 0 <= gap && gap as real <= 1_000_000_000.0 / rate < gap as real + 1.0
    ensures rate < 0.0 ==> gap <= 0 && gap as real - 1.0 < 1_000_000_000.0 / rate <= gap as real
  {
    assert 1.0 / rate * NanosPerSecond as real == 1_000_000_000.0 / rate;
    IntersendDuration(1.0 / rate)
  }

  /** As written, every rate above one per second leaves no gap at all, though up
   *  to a billion per second the meant gap is at least a nanosecond. */
  lemma RateGapAsWrittenVanishes(rate: real)
    requires rate > 1.0
    ensures RateGapAsWritten(rate) == 0
    ensures rate <= 1_000_000_000.0 ==> RateGap(rate) > 0
  {
    assert 1.0 / rate < 1.0;
  }

  /** Two sends per second: half a second apart as meant, no gap as written. */
  lemma RateGapAtTwoPerSecond()
    ensures RateGapAsWritten(2.0) == 0
    ensures RateGap(2.0) == 500_000_000
  {
    assert 1.0 / 2.0 * NanosPerSecond as real == 500_000_000.0;
    assert (500_000_000.0 as real).Floor == 500_000_000;
  }

  /**
   * The rate limit: too early while less than the gap has elapsed. A zero
   * rate (a new sender's) sets no limit; with a positive rate, a clock gone
   * backwards is too early and a full 1/rate seconds is not.
   */
  predicate RateLimited(elapsed: int, rate: real): (r: bool)
    ensures rate == 0.0 ==> !r
    ensures rate > 0.0 && elapsed < 0 ==> r
    ensures rate > 0.0 && elapsed as real >= 1_000_000_000.0 / rate ==> !r
  {
    rate != 0.0 && elapsed < RateGap(rate)
  }

  /** The rate limit as written, on the as-written gap. */
  predicate RateLimitedAsWritten(elapsed: int, rate: real) {
    rate != 0.0 && elapsed < RateGapAsWritten(rate)
  }

  /** For a positive rate the gap as written is never longer than the meant one. */
  lemma RateGapAsWrittenShorter(rate: real)
    requires rate > 0.0
    ensures 0 <= RateGapAsWritten(rate) <= RateGap(rate)
  {
    var t := Truncate(1.0 / rate);
    assert 0 <= t && t as real <= 1.0 / rate;
    assert (t * NanosPerSecond) as real == t as real * 1_000_000_000.0;
    assert t as real * 1_000_000_000.0 <= 1_000_000_000.0 / rate;
  }

  /**
   * So with a positive rate the check as written refuses only sends the
   * meant check refuses too, and above one send per second it refuses none
   * once the clock has not gone backwards.
   */
  lemma RateLimitedAsWrittenWeaker(elapsed: int, rate: real)
    requires rate > 0.0
    ensures RateLimitedAsWritten(elapsed, rate) ==> RateLimited(elapsed, rate)
    ensures rate > 1.0 && elapsed >= 0 ==> !RateLimitedAsWritten(elapsed, rate)
  {
    RateGapAsWrittenShorter(rate);
    if rate > 1.0 {
      RateGapAsWrittenVanishes(rate);
    }
  }

  /** A send 0.1 s after the last at two per second: refused as meant, let through as written. */
  lemma RateLimitsDisagree()
    ensures RateLimited(100_000_000, 2.0)
    ensures !RateLimitedAsWritten(100_000_000, 2.0)
  {
    RateGapAtTwoPerSecond();
  }

  /**
   * A negative rate, which the controller's answer does not rule out, turns
   * the disagreement round: with the clock 0.1 s behind the last send time,
   * at rate -2 the check as written refuses, since its gap truncates to 0,
   * and the meant check, with a gap of minus half a second, does not.
   */
  lemma RateLimitsDisagreeNegative()
    ensures RateLimitedAsWritten(-100_000_000, -2.0)
    ensures !RateLimited(-100_000_000, -2.0)
  {
    assert 1.0 / -2.0 == -0.5;
    assert (0.5 as real).Floor == 0;
    assert -0.5 * NanosPerSecond as real == -500_000_000.0;
    assert (500_000_000.0 as real).Floor == 500_000_000;
  }

  class Sender {
    const id: int
    var sendRate: real
    var congestionWnd: int
    var lastSendTime: int
    var lastAckTime: int
    var bytesSent: int
    var bytesAcked: int
    var seqNo: int

    /** NewSender: window 1, zero rate and counters, both times set to the clock. */
    constructor (id: int, sendNow: int, ackNow: int)
      ensures this.id == id
      ensures sendRate == 0.0 && congestionWnd == 1
      ensures lastSendTime == sendNow && lastAckTime == ackNow
      ensures bytesSent == 0 && bytesAcked == 0 && seqNo == 0
    {
      this.id := id;
      sendRate := 0.0;
      congestionWnd := 1;
      lastSendTime := sendNow;
      lastAckTime := ackNow;
      bytesSent := 0;
      bytesAcked := 0;
      seqNo := 0;
    }

    /** The bytes sent and not yet acknowledged. */
    function Outstanding(): int
      reads this
    {
      bytesSent - bytesAcked
    }

    /**
     * Send: refused as too early first, then refused when the outstanding
     * bytes fill the window; a refusal changes nothing. Otherwise the next
     * sequence number is taken, the bytes are counted and `doneAt` becomes
     * the last send time.
     */
    method Send(data: seq<byte>, now: int, doneAt: int) returns (err: Option<SenderError>)
      modifies this
      ensures RateLimited(Since(now, old(lastSendTime)), old(sendRate)) ==>
                err == Some(TooEarly(id)) && unchanged(this)
      ensures !RateLimited(Since(now, old(lastSendTime)), old(sendRate)) && old(Outstanding()) >= old(congestionWnd) ==>
                err == Some(WindowFull(id)) && unchanged(this)
      ensures err.None? <==>
                !RateLimited(Since(now, old(lastSendTime)), old(sendRate)) && old(Outstanding()) < old(congestionWnd)
      ensures err.None? ==>
                && seqNo == old(seqNo) + 1
                && bytesSent == old(bytesSent) + |data|
                && lastSendTime == doneAt
                && bytesAcked == old(bytesAcked) && lastAckTime == old(lastAckTime)
                && sendRate == old(sendRate) && congestionWnd == old(congestionWnd)
                && Outstanding() < congestionWnd + |data|
    {
      if RateLimited(Since(now, lastSendTime), sendRate) {
        return Some(TooEarly(id));
      }
      if bytesSent - bytesAcked >= congestionWnd {
        return Some(WindowFull(id));
      }
      seqNo := seqNo + 1;
      bytesSent := bytesSent + |data|;
      lastSendTime := doneAt;
      return None;
    }

    /**
     * OnAck: count the acknowledged bytes, record the clock, then take the
     * controller's send rate and window. Bytes sent and sequence number stay.
     */
    method OnAck(ack: Ack, now: int, rat: RatView)
      modifies this
      ensures bytesAcked == old(bytesAcked) + ack.bytesAcked
      ensures Outstanding() == old(Outstanding()) - ack.bytesAcked
      ensures lastAckTime == now
      ensures sendRate == rat.sendRate && congestionWnd == rat.congestionWindow
      ensures bytesSent == old(bytesSent) && seqNo == old(seqNo) && lastSendTime == old(lastSendTime)
    {
      bytesAcked := bytesAcked + ack.bytesAcked;
      lastAckTime := now;
      UpdateSendRate(rat);
      UpdateCongestionWnd(rat);
    }

    /** OnTimeout: only the send rate and window are refreshed from the controller. */
    method OnTimeout(rat: RatView)
      modifies this
      ensures sendRate == rat.sendRate && congestionWnd == rat.congestionWindow
      ensures bytesSent == old(bytesSent) && bytesAcked == old(bytesAcked) && seqNo == old(seqNo)
      ensures lastSendTime == old(lastSendTime) && lastAckTime == old(lastAckTime)
    {
      UpdateSendRate(rat);
      UpdateCongestionWnd(rat);
    }

    /** UpdateSendRate: the rate becomes the controller's; nothing else changes. */
    method UpdateSendRate(rat: RatView)
      modifies this
      ensures sendRate == rat.sendRate
      ensures congestionWnd == old(congestionWnd) && lastSendTime == old(lastSendTime)
      ensures lastAckTime == old(lastAckTime) && bytesSent == old(bytesSent)
      ensures bytesAcked == old(bytesAcked) && seqNo == old(seqNo)
    {
      sendRate := rat.sendRate;
    }

    /** UpdateCongestionWnd: the window becomes the controller's; nothing else changes. */
    method UpdateCongestionWnd(rat: RatView)
      modifies this
      ensures congestionWnd == rat.congestionWindow
      ensures sendRate == old(sendRate) && lastSendTime == old(lastSendTime)
      ensures lastAckTime == old(lastAckTime) && bytesSent == old(bytesSent)
      ensures bytesAcked == old(bytesAcked) && seqNo == old(seqNo)
    {
      congestionWnd := rat.congestionWindow;
    }
  }

  /**
   * Two successful sends in a row with no acknowledgment between them need
   * the first to have left room in the window: the window bounds the bytes
   * outstanding before each send.
   */
  method SendTwice(s: Sender, first: seq<byte>, second: seq<byte>, now1: int, done1: int, now2: int, done2: int)
      returns (e1: Option<SenderError>, e2: Option<SenderError>)
    modifies s
    ensures e1.None? && e2.None? ==> old(s.Outstanding()) + |first| < s.congestionWnd
    ensures e1.None? && e2.None? ==> s.seqNo == old(s.seqNo) + 2 && s.bytesSent == old(s.bytesSent) + |first| + |second|
  {
    e1 := s.Send(first, now1, done1);
    e2 := s.Send(second, now2, done2);
  }
}
