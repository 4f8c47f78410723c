/**
 * The network-state record ("memory") that the rule table is keyed on, and
 * the closed four-axis box ("memory range") that each rule's domain is.
 */
module NetworkMemory {

  /** The value of the four fields of a `Memory`, in declaration order. */
  datatype State = State(recvRate: real, sendRate: real, latestDelay: real, interPacketDelay: real)

  const Zero := State(0.0, 0.0, 0.0, 0.0)

  /**
   * A domain of the rule table: a closed interval on each of the four axes.
   * The range type and its predicates belong to the memory package but are
   * not among the modelled files; this is the box semantics they are meant to have.
   */
  datatype Range = Range(lower: State, upper: State)

  predicate Within(lo: real, v: real, hi: real) {
    lo <= v <= hi
  }

  predicate Overlap(lo1: real, hi1: real, lo2: real, hi2: real) {
    lo1 <= hi2 && lo2 <= hi1
  }

  /** `m` lies inside `r` on every axis. */
  predicate Contains(r: Range, m: State) {
    && Within(r.lower.recvRate, m.recvRate, r.upper.recvRate)
    && Within(r.lower.sendRate, m.sendRate, r.upper.sendRate)
    && Within(r.lower.latestDelay, m.latestDelay, r.upper.latestDelay)
    && Within(r.lower.interPacketDelay, m.interPacketDelay, r.upper.interPacketDelay)
  }

  /** The intervals of `a` and `b` overlap on every axis. */
  predicate Intersects(a: Range, b: Range) {
    && Overlap(a.lower.recvRate, a.upper.recvRate, b.lower.recvRate, b.upper.recvRate)
    && Overlap(a.lower.sendRate, a.upper.sendRate, b.lower.sendRate, b.upper.sendRate)
    && Overlap(a.lower.latestDelay, a.upper.latestDelay, b.lower.latestDelay, b.upper.latestDelay)
    && Overlap(a.lower.interPacketDelay, a.upper.interPacketDelay, b.lower.interPacketDelay, b.upper.interPacketDelay)
  }

  /** A point contained in two boxes witnesses that they intersect. */
  lemma CommonPointIntersects(a: Range, b: Range, m: State)
    requires Contains(a, m) && Contains(b, m)
    ensures Intersects(a, b)
  {
  }

  /** `Memory`: four float fields that `Update` overwrites in place. */
  class Memory {
    var recvRate: real
    var sendRate: real
    var latestDelay: real
    var interPacketDelay: real

    /** The current value of the four fields. */
    function Current(): State
      reads this
    {
      State(recvRate, sendRate, latestDelay, interPacketDelay)
    }

    function GetRecvRate(): real
      reads this
    {
      recvRate
    }

    function GetSendRate(): real
      reads this
    {
      sendRate
    }

    function GetLatestDelay(): real
      reads this
    {
      latestDelay
    }

    function GetInterPacketDelay(): real
      reads this
    {
      interPacketDelay
    }

    /** NewMemory: every field starts at zero. */
    constructor ()
      ensures Current() == Zero
      ensures GetRecvRate() == 0.0 && GetSendRate() == 0.0
      ensures GetLatestDelay() == 0.0 && GetInterPacketDelay() == 0.0
    {
      recvRate, sendRate, latestDelay, interPacketDelay := 0.0, 0.0, 0.0, 0.0;
    }

    /**
     * Overwrites the four fields with the four arguments, in order. The new
     * state does not depend on the old one, so a second identical call
     * leaves the state as the first one left it.
     */
    method Update(recv: real, send: real, delay: real, interPacket: real)
      modifies this
      ensures Current() == State(recv, send, delay, interPacket)
      ensures GetRecvRate() == recv && GetSendRate() == send
      ensures GetLatestDelay() == delay && GetInterPacketDelay() == interPacket
    {
      recvRate := recv;
      sendRate := send;
      latestDelay := delay;
      interPacketDelay := interPacket;
    }

    /** Writes a whole `State` through `Update`. */
    method Assign(s: State)
      modifies this
      ensures Current() == s
    {
      Update(s.recvRate, s.sendRate, s.latestDelay, s.interPacketDelay);
    }
  }

  /** Calling `Update` twice with the same arguments is the same as calling it once. */
  method UpdateTwice(m: Memory, recv: real, send: real, delay: real, interPacket: real)
    modifies m
    ensures m.Current() == State(recv, send, delay, interPacket)
  {
    m.Update(recv, send, delay, interPacket);
    ghost var once := m.Current();
    m.Update(recv, send, delay, interPacket);
    assert m.Current() == once;
  }
}
