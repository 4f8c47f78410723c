/**
 * The RAT controller: per-flow counters, the current rule and window, the
 * send gate, and the receive path that re-selects the rule from the
 * network memory. Clock readings are parameters (nanoseconds since the
 * Unix epoch), a socket write is a success flag, and the memory package's
 * update procedures are the functions in `MemoryHooks`.
 */
module RatController {
  import opened Wrappers
  import opened NetworkMemory
  import opened WhiskerRules
  import opened WhiskerTrees
  import opened WireCodec

  const MinInt64: int := -0x8000_0000_0000_0000
  const MaxInt64: int := 0x7fff_ffff_ffff_ffff
  const NanosPerSecond: int := 1_000_000_000

  /**
   * The memory package's update procedures, which rewrite the four fields of
   * a `Memory`: after a sent packet, after a received batch for a flow, and
   * after an RTT sample in seconds.
   */
  datatype MemoryHooks = MemoryHooks(
    onSent: (State, Packet) -> State,
    onReceived: (State, seq<Packet>, uint64) -> State,
    onRtt: (State, real) -> State)

  /** `time.Since` / `Time.Sub`: the difference, saturated to the int64 range. */
  function Since(now: int, t: int): (d: int)
    ensures MinInt64 <= d <= MaxInt64
    ensures MinInt64 <= now - t <= MaxInt64 ==> d == now - t
    ensures now - t > MaxInt64 ==> d == MaxInt64
    ensures now - t < MinInt64 ==> d == MinInt64
  {
    if now - t > MaxInt64 then MaxInt64 else if now - t < MinInt64 then MinInt64 else now - t
  }

  /** Go's float-to-integer conversion: truncation toward zero. */
  function Truncate(x: real): (n: int)
    ensures x >= 0.0 ==> n as real <= x < n as real + 1.0
    ensures x < 0.0 ==> n as real - 1.0 < x <= n as real
  {
    if x >= 0.0 then x.Floor else -((-x).Floor)
  }

  /** `time.Duration(seconds * float64(time.Second))`, in nanoseconds. */
  function IntersendDuration(secs: real): int {
    Truncate(secs * NanosPerSecond as real)
  }

  /** `Duration.Seconds()`. */
  function Seconds(d: int): real {
    d as real / NanosPerSecond as real
  }

  /** `flowID++`, wrapping at 2^64, then 0 replaced by 1. */
  function NextFlowID(id: uint64): (r: uint64)
    ensures r != 0
    ensures id < TwoTo64 - 1 ==> r == id + 1
    ensures id == TwoTo64 - 1 ==> r == 1
  {
    var next := (id + 1) % TwoTo64;
    if next == 0 then 1 else next
  }

  /** The value of the controller's mutable fields, the memory's four fields included. */
  datatype Flow = Flow(
    packetsSent: nat,
    packetsReceived: nat,
    lastSendTime: int,
    congestionWindow: nat,
    intersendTime: real,
    flowID: uint64,
    currentWhisker: Whisker,
    memory: State)

  /** NewRAT: zero counters, zero time, zero window and spacing, flow 0, the root rule. */
  function Initial(root: Whisker): Flow {
    Flow(0, 0, ZeroTime, 0, 0.0, 0, root, Zero)
  }

  const BacklogMessage := "Number of packets sent should be greater than or equal to the number of packets received"

  /** assertCondition: a false condition panics with the message. */
  function AssertCondition(condition: bool, message: string): (r: Option<string>)
    ensures r.None? <==> condition
    ensures r.Some? ==> r.value == message
  {
    if condition then None else Some(message)
  }

  /** What a call to `Send` did. */
  datatype SendResult =
    | Panicked(message: string)
    | Blocked
    | CapReached
    | Transmitted(wire: seq<byte>)
    | WriteFailed(wire: seq<byte>)
  {
    predicate Emitted() {
      Transmitted? || WriteFailed?
    }
  }

  datatype SendStep = SendStep(flow: Flow, result: SendResult)

  /** In the IDLE state (window 0) the root rule is taken up again. */
  function Reinitialize(f: Flow, root: Whisker): (g: Flow)
    ensures f.congestionWindow != 0 ==> g == f
    ensures f.congestionWindow == 0 ==>
              g == f.(currentWhisker := root, congestionWindow := Window(root, 0), intersendTime := root.intersend)
  {
    if f.congestionWindow == 0 then
      f.(currentWhisker := root, congestionWindow := Window(root, 0), intersendTime := root.intersend)
    else f
  }

  /** The send gate: the window is not exhausted and the spacing has elapsed at `now`. */
  predicate Gate(f: Flow, now: int) {
    f.packetsSent < f.packetsReceived + f.congestionWindow
    && Since(now, f.lastSendTime) >= IntersendDuration(f.intersendTime)
  }

  /**
   * Send on flow values. `now` is the reading the gate uses, `sentAt` the
   * one stamped on the packet, `doneAt` the one recorded after the write,
   * and `writeOk` whether the socket accepted the bytes.
   */
  function SendFlow(f: Flow, root: Whisker, hooks: MemoryHooks, id: int, seqNo: int, cap: nat,
                now: int, sentAt: int, writeOk: bool, doneAt: int): SendStep
  {
    match AssertCondition(f.packetsSent >= f.packetsReceived, BacklogMessage)
    case Some(message) => SendStep(f, Panicked(message))
    case None =>
      var g := Reinitialize(f, root);
      if !Gate(g, now) then SendStep(g, Blocked)
      else if g.packetsSent >= cap then SendStep(g, CapReached)
      else
        var p := Packet(seqNo, id, g.flowID, sentAt, ZeroTime);
        var h := g.(packetsSent := g.packetsSent + 1, memory := hooks.onSent(g.memory, p));
        if writeOk then SendStep(h.(lastSendTime := doneAt), Transmitted(EncodePacket(p)))
        else SendStep(h, WriteFailed(EncodePacket(p)))
  }

  /** updateState on flow values. */
  function UpdateState(f: Flow, hooks: MemoryHooks, rtt: real, w: Whisker): Flow {
    f.(memory := hooks.onRtt(f.memory, rtt),
       currentWhisker := w,
       congestionWindow := Window(w, f.congestionWindow),
       intersendTime := w.intersend,
       flowID := NextFlowID(f.flowID))
  }

  datatype Received = Received(flow: Flow, memoryPackets: seq<Packet>)

  /**
   * The loop of ReceivePackets from packet `ps[0]` on: a packet of the
   * current flow is recorded and, when the table has a rule for the current
   * memory, drives `UpdateState`; other packets are passed over.
   */
  function ReceiveLoop(r: Received, tree: Node, hooks: MemoryHooks, ps: seq<Packet>, nows: seq<int>): Received
    requires |nows| == |ps|
    decreases |ps|
  {
    if ps == [] then r
    else if ps[0].flowID != r.flow.flowID then ReceiveLoop(r, tree, hooks, ps[1..], nows[1..])
    else
      var rtt := Since(nows[0], ps[0].sent);
      var recorded := r.memoryPackets + [ps[0]];
      match FindIn(tree, r.flow.memory)
      case None => ReceiveLoop(Received(r.flow, recorded), tree, hooks, ps[1..], nows[1..])
      case Some(n) =>
        ReceiveLoop(Received(UpdateState(r.flow, hooks, Seconds(rtt), n.whisker), recorded), tree, hooks, ps[1..], nows[1..])
  }

  /**
   * ReceivePackets on flow values: count the whole batch, run the loop, then
   * fold the recorded packets into the memory under the final flow id.
   */
  function ReceiveFlow(f: Flow, tree: Node, hooks: MemoryHooks, ps: seq<Packet>, nows: seq<int>): Flow
    requires |nows| == |ps|
  {
    var r := ReceiveLoop(Received(f.(packetsReceived := f.packetsReceived + |ps|), []), tree, hooks, ps, nows);
    r.flow.(memory := hooks.onReceived(r.flow.memory, r.memoryPackets, r.flow.flowID))
  }

  /** NextEventTime on flow values: the last send time plus the spacing. */
  function NextEvent(f: Flow): int {
    f.lastSendTime + IntersendDuration(f.intersendTime)
  }

  // Properties of Send.

  /** Send panics exactly when fewer packets were sent than received, and then changes nothing. */
  lemma SendPanicsIff(f: Flow, root: Whisker, hooks: MemoryHooks, id: int, seqNo: int, cap: nat,
                      now: int, sentAt: int, writeOk: bool, doneAt: int)
    ensures var s := SendFlow(f, root, hooks, id, seqNo, cap, now, sentAt, writeOk, doneAt);
            && (s.result.Panicked? <==> f.packetsSent < f.packetsReceived)
            && (s.result.Panicked? ==> s.flow == f && s.result.message == BacklogMessage)
  {
  }

  /**
   * A Send that does not panic leaves the rule, window and spacing as the
   * IDLE re-initialisation leaves them: from window 0 they come from the
   * root rule, otherwise they are untouched.
   */
  lemma SendReinitializes(f: Flow, root: Whisker, hooks: MemoryHooks, id: int, seqNo: int, cap: nat,
                          now: int, sentAt: int, writeOk: bool, doneAt: int)
    requires f.packetsSent >= f.packetsReceived
    ensures var s := SendFlow(f, root, hooks, id, seqNo, cap, now, sentAt, writeOk, doneAt);
            && (f.congestionWindow == 0 ==>
                  && s.flow.currentWhisker == root
                  && s.flow.congestionWindow == Window(root, 0)
                  && s.flow.intersendTime == root.intersend)
            && (f.congestionWindow != 0 ==>
                  && s.flow.currentWhisker == f.currentWhisker
                  && s.flow.congestionWindow == f.congestionWindow
                  && s.flow.intersendTime == f.intersendTime)
  {
  }

  /**
   * A packet goes out exactly when, after re-initialisation, the window has
   * room, the spacing has elapsed and the cap is not reached. When none goes
   * out the sent count and the last send time are unchanged; when one does
   * the sent count rises by one, its header is what is written, and the last
   * send time advances only if the write succeeded.
   */
  lemma SendEmitsIff(f: Flow, root: Whisker, hooks: MemoryHooks, id: int, seqNo: int, cap: nat,
                     now: int, sentAt: int, writeOk: bool, doneAt: int)
    requires f.packetsSent >= f.packetsReceived
    ensures var g := Reinitialize(f, root);
            var s := SendFlow(f, root, hooks, id, seqNo, cap, now, sentAt, writeOk, doneAt);
            && (s.result.Emitted() <==>
                  (f.packetsSent < f.packetsReceived + g.congestionWindow
                   && Since(now, f.lastSendTime) >= IntersendDuration(g.intersendTime)
                   && f.packetsSent < cap))
            && (!s.result.Emitted() ==>
                  s.flow.packetsSent == f.packetsSent && s.flow.lastSendTime == f.lastSendTime)
            && (s.result.Emitted() ==>
                  && s.flow.packetsSent == f.packetsSent + 1
                  && s.result.wire == EncodePacket(Packet(seqNo, id, f.flowID, sentAt, ZeroTime))
                  && s.flow.lastSendTime == (if writeOk then doneAt else f.lastSendTime)
                  && (s.result.Transmitted? <==> writeOk))
  {
  }

  /**
   * Send never lets more packets be outstanding than the window allows: a
   * packet goes out only while fewer than `received + window` were sent.
   */
  lemma SendRespectsWindow(f: Flow, root: Whisker, hooks: MemoryHooks, id: int, seqNo: int, cap: nat,
                           now: int, sentAt: int, writeOk: bool, doneAt: int)
    requires f.packetsSent <= f.packetsReceived + Reinitialize(f, root).congestionWindow
    ensures var s := SendFlow(f, root, hooks, id, seqNo, cap, now, sentAt, writeOk, doneAt);
            && s.flow.packetsSent >= f.packetsSent
            && s.flow.packetsReceived == f.packetsReceived
            && s.flow.packetsSent <= s.flow.packetsReceived + s.flow.congestionWindow
  {
  }

  /** Send keeps the backlog invariant (sent >= received) and the window bound. */
  lemma SendKeepsInvariants(f: Flow, root: Whisker, hooks: MemoryHooks, id: int, seqNo: int, cap: nat,
                            now: int, sentAt: int, writeOk: bool, doneAt: int)
    requires f.packetsSent >= f.packetsReceived && f.congestionWindow <= MaxWindow
    ensures var s := SendFlow(f, root, hooks, id, seqNo, cap, now, sentAt, writeOk, doneAt);
            s.flow.packetsSent >= s.flow.packetsReceived && s.flow.congestionWindow <= MaxWindow
  {
  }

  /**
   * A root rule with increment 0 and multiple 1 never lets an idle flow
   * send: its window law keeps the window at 0.
   */
  lemma ZeroRootNeverSends(f: Flow, root: Whisker, hooks: MemoryHooks, id: int, seqNo: int, cap: nat,
                           now: int, sentAt: int, writeOk: bool, doneAt: int)
    requires root.windowIncrement == 0 && root.windowMultiple == 1.0 && f.congestionWindow == 0
    ensures var s := SendFlow(f, root, hooks, id, seqNo, cap, now, sentAt, writeOk, doneAt);
            !s.result.Emitted() && s.flow.congestionWindow == 0
  {
    WindowIdentity(root, 0);
  }

  /**
   * The minimal fixture: a root rule with increment 1, multiple 1 and no
   * spacing. From a new controller the first Send emits a packet; a second
   * Send before any receive is blocked by the window of one.
   */
  lemma OneInFlight(root: Whisker, hooks: MemoryHooks, id: int, seqNo: int, cap: nat,
                    now: int, sentAt: int, doneAt: int, id2: int, seqNo2: int, now2: int, sentAt2: int, ok2: bool, doneAt2: int)
    requires root.windowIncrement == 1 && root.windowMultiple == 1.0 && root.intersend == 0.0
    requires cap >= 1 && now >= ZeroTime
    ensures var s := SendFlow(Initial(root), root, hooks, id, seqNo, cap, now, sentAt, true, doneAt);
            && s.result.Transmitted?
            && s.flow.packetsSent == 1 && s.flow.congestionWindow == 1
            && SendFlow(s.flow, root, hooks, id2, seqNo2, cap, now2, sentAt2, ok2, doneAt2).result == Blocked
  {
    assert Window(root, 0) == 1;
  }

  // Properties of the receive path.

  /** updateState leaves the flow id nonzero and the window within the cap. */
  lemma UpdateStateBounds(f: Flow, hooks: MemoryHooks, rtt: real, w: Whisker)
    ensures UpdateState(f, hooks, rtt, w).flowID != 0
    ensures UpdateState(f, hooks, rtt, w).congestionWindow <= MaxWindow
    ensures UpdateState(f, hooks, rtt, w).congestionWindow == Window(w, f.congestionWindow)
  {
  }

  /**
   * The loop never touches the counters or the last send time; it keeps the
   * window within the cap; and the flow id either stays or ends nonzero.
   */
  lemma {:induction false} ReceiveLoopFrame(r: Received, tree: Node, hooks: MemoryHooks, ps: seq<Packet>, nows: seq<int>)
    requires |nows| == |ps| && r.flow.congestionWindow <= MaxWindow
    ensures var r' := ReceiveLoop(r, tree, hooks, ps, nows);
            && r'.flow.packetsSent == r.flow.packetsSent
            && r'.flow.packetsReceived == r.flow.packetsReceived
            && r'.flow.lastSendTime == r.flow.lastSendTime
            && r'.flow.congestionWindow <= MaxWindow
            && (r'.flow.flowID == r.flow.flowID || r'.flow.flowID != 0)
    decreases |ps|
  {
    if ps != [] {
      var recorded := r.memoryPackets + [ps[0]];
      if ps[0].flowID != r.flow.flowID {
        ReceiveLoopFrame(r, tree, hooks, ps[1..], nows[1..]);
      } else {
        match FindIn(tree, r.flow.memory)
        case None => ReceiveLoopFrame(Received(r.flow, recorded), tree, hooks, ps[1..], nows[1..]);
        case Some(n) =>
          var rtt := Since(nows[0], ps[0].sent);
          ReceiveLoopFrame(Received(UpdateState(r.flow, hooks, Seconds(rtt), n.whisker), recorded), tree, hooks, ps[1..], nows[1..]);
      }
    }
  }

  /**
   * ReceivePackets counts every packet of the batch, whatever its flow;
   * it leaves the sent count and last send time alone and the window
   * within the cap; and the flow id, if it changed, is not 0.
   */
  lemma ReceiveCounts(f: Flow, tree: Node, hooks: MemoryHooks, ps: seq<Packet>, nows: seq<int>)
    requires |nows| == |ps| && f.congestionWindow <= MaxWindow
    ensures var g := ReceiveFlow(f, tree, hooks, ps, nows);
            && g.packetsReceived == f.packetsReceived + |ps|
            && g.packetsSent == f.packetsSent
            && g.lastSendTime == f.lastSendTime
            && g.congestionWindow <= MaxWindow
            && (g.flowID == f.flowID || g.flowID != 0)
  {
    ReceiveLoopFrame(Received(f.(packetsReceived := f.packetsReceived + |ps|), []), tree, hooks, ps, nows);
  }

  /** The packets of a batch that belong to flow `id`, in order. */
  function OfFlow(ps: seq<Packet>, id: uint64): (qs: seq<Packet>)
    ensures |qs| <= |ps|
    ensures forall q :: q in qs <==> q in ps && q.flowID == id
  {
    if ps == [] then []
    else (if ps[0].flowID == id then [ps[0]] else []) + OfFlow(ps[1..], id)
  }

  /**
   * When the table has no rule for the current memory, every packet of the
   * flow is recorded and skipped: nothing but the record changes.
   */
  lemma {:induction false} ReceiveLoopWithoutRule(r: Received, tree: Node, hooks: MemoryHooks, ps: seq<Packet>, nows: seq<int>)
    requires |nows| == |ps| && FindIn(tree, r.flow.memory).None?
    ensures ReceiveLoop(r, tree, hooks, ps, nows) == Received(r.flow, r.memoryPackets + OfFlow(ps, r.flow.flowID))
    decreases |ps|
  {
    if ps == [] {
      assert r.memoryPackets + [] == r.memoryPackets;
    } else {
      var head := if ps[0].flowID == r.flow.flowID then [ps[0]] else [];
      assert OfFlow(ps, r.flow.flowID) == head + OfFlow(ps[1..], r.flow.flowID);
      if head == [] {
        assert Received(r.flow, r.memoryPackets + head) == r;
      }
      ReceiveLoopWithoutRule(Received(r.flow, r.memoryPackets + head), tree, hooks, ps[1..], nows[1..]);
      assert r.memoryPackets + head + OfFlow(ps[1..], r.flow.flowID) == r.memoryPackets + OfFlow(ps, r.flow.flowID);
    }
  }

  /**
   * A batch that finds no rule (a lookup error is skipped) changes only the
   * received count and the memory, which takes the batch's packets of the
   * current flow under the unchanged flow id.
   */
  lemma ReceiveWithoutRule(f: Flow, tree: Node, hooks: MemoryHooks, ps: seq<Packet>, nows: seq<int>)
    requires |nows| == |ps| && FindIn(tree, f.memory).None?
    ensures ReceiveFlow(f, tree, hooks, ps, nows)
         == f.(packetsReceived := f.packetsReceived + |ps|,
               memory := hooks.onReceived(f.memory, OfFlow(ps, f.flowID), f.flowID))
  {
    ReceiveLoopWithoutRule(Received(f.(packetsReceived := f.packetsReceived + |ps|), []), tree, hooks, ps, nows);
    assert [] + OfFlow(ps, f.flowID) == OfFlow(ps, f.flowID);
  }

  /** A batch of other flows' packets changes only the received count and the memory. */
  lemma ReceiveForeignBatch(f: Flow, tree: Node, hooks: MemoryHooks, ps: seq<Packet>, nows: seq<int>)
    requires |nows| == |ps|
    requires forall i :: 0 <= i < |ps| ==> ps[i].flowID != f.flowID
    ensures ReceiveFlow(f, tree, hooks, ps, nows)
         == f.(packetsReceived := f.packetsReceived + |ps|, memory := hooks.onReceived(f.memory, [], f.flowID))
  {
    ForeignLoop(Received(f.(packetsReceived := f.packetsReceived + |ps|), []), tree, hooks, ps, nows);
  }

  lemma {:induction false} ForeignLoop(r: Received, tree: Node, hooks: MemoryHooks, ps: seq<Packet>, nows: seq<int>)
    requires |nows| == |ps|
    requires forall i :: 0 <= i < |ps| ==> ps[i].flowID != r.flow.flowID
    ensures ReceiveLoop(r, tree, hooks, ps, nows) == r
    decreases |ps|
  {
    if ps != [] {
      ForeignLoop(r, tree, hooks, ps[1..], nows[1..]);
    }
  }

  /**
   * The spacing gate opens exactly at NextEventTime, whenever the spacing is
   * a representable duration other than the most negative one.
   */
  lemma GateOpensAtNextEvent(f: Flow, now: int)
    requires MinInt64 < IntersendDuration(f.intersendTime) <= MaxInt64
    ensures Since(now, f.lastSendTime) >= IntersendDuration(f.intersendTime) <==> now >= NextEvent(f)
  {
  }

  /** The controller object; the rule table and memory are shared objects it refers to. */
  class Rat {
    const whiskers: WhiskerTree
    const memory: Memory
    const track: bool
    const hooks: MemoryHooks
    var packetsSent: nat
    var packetsReceived: nat
    var lastSendTime: int
    var congestionWindow: nat
    var intersendTime: real
    var flowID: uint64
    var currentWhisker: Whisker

    ghost predicate Valid()
      reads this, whiskers, whiskers.Repr
    {
      && whiskers.Valid()
      && this !in whiskers.Repr && memory !in whiskers.Repr
      && congestionWindow <= MaxWindow
    }

    /** The value of the mutable fields, the memory's included. */
    function Snapshot(): Flow
      reads this, memory
    {
      Flow(packetsSent, packetsReceived, lastSendTime, congestionWindow, intersendTime, flowID, currentWhisker, memory.Current())
    }

    /** NewRAT: a fresh zero memory and the initial flow state under the table's root rule. */
    constructor (whiskers: WhiskerTree, track: bool, hooks: MemoryHooks)
      requires whiskers.Valid()
      ensures Valid() && fresh(memory)
      ensures this.whiskers == whiskers && this.track == track && this.hooks == hooks
      ensures Snapshot() == Initial(whiskers.root.whisker)
    {
      this.whiskers := whiskers;
      this.track := track;
      this.hooks := hooks;
      memory := new Memory();
      packetsSent, packetsReceived := 0, 0;
      lastSendTime := ZeroTime;
      congestionWindow := 0;
      intersendTime := 0.0;
      flowID := 0;
      currentWhisker := whiskers.root.whisker;
    }

    /** Send, with the connection's write reduced to `writeOk`. */
    method Send(id: int, seqNo: int, cap: nat, now: int, sentAt: int, writeOk: bool, doneAt: int) returns (r: SendResult)
      requires Valid()
      modifies this, memory
      ensures Valid()
      ensures var s := SendFlow(old(Snapshot()), whiskers.Shape.whisker, hooks, id, seqNo, cap, now, sentAt, writeOk, doneAt);
              Snapshot() == s.flow && r == s.result
    {
      var panic := AssertCondition(packetsSent >= packetsReceived, BacklogMessage);
      if panic.Some? {
        return Panicked(panic.value);
      }
      if congestionWindow == 0 {
        currentWhisker := whiskers.root.whisker;
        congestionWindow := Window(currentWhisker, 0);
        intersendTime := currentWhisker.intersend;
      }
      if packetsSent < packetsReceived + congestionWindow
        && Since(now, lastSendTime) >= IntersendDuration(intersendTime)
      {
        if packetsSent >= cap {
          return CapReached;
        }
        var packet := Packet(seqNo, id, flowID, sentAt, ZeroTime);
        packetsSent := packetsSent + 1;
        memory.Assign(hooks.onSent(memory.Current(), packet));
        var wire := EncodePacket(packet);
        if !writeOk {
          return WriteFailed(wire);
        }
        lastSendTime := doneAt;
        return Transmitted(wire);
      }
      return Blocked;
    }

    /** ReceivePackets, with the clock reading for each packet in `nows`. */
    method ReceivePackets(packets: seq<Packet>, nows: seq<int>)
      requires Valid() && |nows| == |packets|
      modifies this, memory
      ensures Valid()
      ensures Snapshot() == ReceiveFlow(old(Snapshot()), whiskers.Shape, hooks, packets, nows)
    {
      packetsReceived := packetsReceived + |packets|;
      ghost var start := Received(Snapshot(), []);
      var memoryPackets: seq<Packet> := [];
      var i := 0;
      while i < |packets|
        invariant 0 <= i <= |packets|
        invariant Valid()
        invariant ReceiveLoop(Received(Snapshot(), memoryPackets), whiskers.Shape, hooks, packets[i..], nows[i..])
               == ReceiveLoop(start, whiskers.Shape, hooks, packets, nows)
      {
        var packet := packets[i];
        assert packets[i..][0] == packet && packets[i..][1..] == packets[i + 1..];
        assert nows[i..][0] == nows[i] && nows[i..][1..] == nows[i + 1..];
        if packet.flowID == flowID {
          var rtt := Since(nows[i], packet.sent);
          memoryPackets := memoryPackets + [packet];
          var found := whiskers.FindWhisker(memory.Current());
          if found.Success? {
            updateState(Seconds(rtt), packet.seqNo, found.value);
          }
        }
        i := i + 1;
      }
      assert packets[i..] == [];
      memory.Assign(hooks.onReceived(memory.Current(), memoryPackets, flowID));
    }

    /** updateState: feed the RTT to the memory, adopt the rule, and advance the flow id. */
    method updateState(rtt: real, seqNo: int, w: Whisker)
      requires Valid()
      modifies this, memory
      ensures Valid()
      ensures Snapshot() == UpdateState(old(Snapshot()), hooks, rtt, w)
    {
      memory.Assign(hooks.onRtt(memory.Current(), rtt));
      currentWhisker := w;
      congestionWindow := Window(currentWhisker, congestionWindow);
      intersendTime := currentWhisker.intersend;
      flowID := NextFlowID(flowID);
    }

    /**
     * NextEventTime: the instant from which the spacing gate is open, for
     * every spacing that is a representable duration other than the most
     * negative one.
     */
    function NextEventTime(): (t: int)
      reads this
      ensures MinInt64 < IntersendDuration(intersendTime) <= MaxInt64 ==>
                forall now :: Since(now, lastSendTime) >= IntersendDuration(intersendTime) <==> now >= t
    {
      lastSendTime + IntersendDuration(intersendTime)
    }
  }
}
