# Remy congestion control in Dafny

This project models the rule engine of a Remy-style congestion controller
written in Go, and proves properties of the model.

- **Memory** (`NetworkMemory`): the four-number network state: receive
  rate, send rate, latest delay and inter-packet delay. It is the key that
  selects a rule. A rule's domain is a closed four-axis box over it.
- **Whiskers** (`WhiskerRules`): a rule sets a generation, a window
  increment and multiple, an intersend time and a domain. The window law
  clamps `prev * multiple + increment` to [0, 1 000 000] and truncates it.
  The generator builds the cartesian product of a configuration's lists.
- **Whisker tree** (`WhiskerTrees`): a root rule and a list of child rules.
  Insertion replaces the first rule whose domain intersects the new one,
  provided the new rule's generation is newer. With no intersecting rule,
  the new rule is appended as a leaf. Lookup returns the first rule, root
  first, whose domain contains the memory. The tree never grows deeper
  than one level below the root. Loading a rule file is a fold of
  insertions that stops at the first refusal.
- **RAT controller** (`RatController`): packets sent and received, the
  congestion window, the intersend time, the flow id and the current rule.
  `Send` checks the backlog assertion and re-initialises an idle flow from
  the root rule. It then gates a packet on the window, the intersend time
  and a cap. `ReceivePackets` counts a batch and re-selects the rule for
  each packet of the current flow. `updateState` applies the window law and
  moves the flow id on, wrapping past 0 to 1.
- **Wire codec** (`WireCodec`): a 24-byte big-endian layout of sequence
  number (int32), sender id (int32), flow id (uint64) and send time
  (int64 Unix nanoseconds).
- **Sender** (`Senders`): a byte-window sender. A rate limit and the
  outstanding bytes gate each send. Acknowledgments and timeouts copy
  the rate and window from the controller.

Clocks are integer nanoseconds since the Unix epoch, passed in as
parameters. Go's zero `time.Time` is `WireCodec.ZeroTime`. Durations
computed by subtracting two times saturate to the int64 range, as
`time.Time.Sub` does. `float64` is modelled by `real`. The `uint` packet
counters are modelled by `nat`. The flow id wraps at 2^64.

## Model

| member | source | states |
|---|---|---|
| NetworkMemory.Memory.constructor | pkg/memory/memory.go:15-17 | a new memory has all four fields zero |
| NetworkMemory.Memory.Update | pkg/memory/memory.go:20-45 | the four fields become the four arguments, in order, and each getter then returns its argument |
| NetworkMemory.UpdateTwice | pkg/memory/memory.go:20-25 | updating twice with the same arguments leaves the same state as updating once, whatever the prior state |
| NetworkMemory.CommonPointIntersects | pkg/whisker/whisker_tree.go:40 | two domains that contain a common memory intersect |
| WhiskerRules.Window | pkg/whisker/whisker.go:34-36 | the new window never exceeds 1 000 000 |
| WhiskerRules.WindowBelowOne | pkg/whisker/whisker.go:35 | when `prev * multiple + increment` is below 1, the window is 0 |
| WhiskerRules.WindowFromOne | pkg/whisker/whisker.go:35 | otherwise the window is the floor of the value capped at 1 000 000, and at least 1 |
| WhiskerRules.WindowIdentity | pkg/whisker/whisker.go:35 | with multiple 1 and increment 0 the window is the previous window up to the cap, so `Window(0)` is 0 |
| WhiskerRules.GenerateWhiskers | pkg/whisker/whisker.go:45-64 | the five nested loops return exactly the generated product list |
| WhiskerRules.Generated | pkg/whisker/whisker.go:49-61 | the list has generations times the block size of one generation elements |
| WhiskerRules.GeneratedLength | pkg/whisker/whisker.go:49-61 | the list has generations × increments × multiples × intersends × domains elements |
| WhiskerRules.GeneratedAt | pkg/whisker/whisker.go:49-56 | the element at the mixed-radix position (generation outermost, domain innermost) is the rule built from those five choices, stored unchanged |
| WhiskerRules.GeneratedMember | pkg/whisker/whisker.go:49-56 | a rule is generated exactly when its generation is below the count and each other field is one of the configured values |
| WhiskerTrees.ChildRules | pkg/whisker/whisker_tree.go:17-20 | one child rule per child node |
| WhiskerTrees.FirstIntersecting | pkg/whisker/whisker_tree.go:48-52 | the index of the first rule whose domain intersects, or -1 when none does; no earlier rule intersects |
| WhiskerTrees.FirstContaining | pkg/whisker/whisker_tree.go:74-78 | the index of the first rule whose domain contains the memory, or -1 when none does; no earlier rule contains it |
| WhiskerTrees.InsertAsRuleList | pkg/whisker/whisker_tree.go:39-57 | on a one-level tree, insertion succeeds exactly when no rule intersects or the first intersecting rule is older; a refusal is a generation conflict for the new generation; on success that rule alone is replaced, domain included, or the rule is appended as a new last leaf, and the tree stays one level deep |
| WhiskerTrees.InsertAtRoot | pkg/whisker/whisker_tree.go:40-45 | when the root's domain intersects, the root alone is replaced or the insertion is refused; the children are untouched |
| WhiskerTrees.InsertBelowRoot | pkg/whisker/whisker_tree.go:48-56 | otherwise only the first intersecting child is compared and replaced, or a leaf is appended at the end |
| WhiskerTrees.FindAsRuleList | pkg/whisker/whisker_tree.go:69-81 | the lookup finds the first rule, root then children in order, whose domain contains the memory, and fails when there is none |
| WhiskerTrees.FindContains | pkg/whisker/whisker_tree.go:70-77 | a successful lookup returns a rule whose domain contains the memory |
| WhiskerTrees.FindFailsIff | pkg/whisker/whisker_tree.go:61-64 | the lookup fails exactly when neither the root nor any direct child contains the memory |
| WhiskerTrees.InsertThenFind | pkg/whisker/whisker_tree.go:39-81 | after a successful insertion, every memory in the new rule's domain looks up the new rule |
| WhiskerTrees.WhiskerNode.constructor | pkg/whisker/whisker_tree.go:54 | a new node holds the rule and no children |
| WhiskerTrees.WhiskerTree.constructor | pkg/whisker/whisker_tree.go:23-28 | a new tree is a root holding generation 0, increment 0, multiple 1.0, intersend 0 over the full domain, with no children |
| WhiskerTrees.WhiskerTree.ValidIsFlat | pkg/whisker/whisker_tree.go:48-55 | every tree built by the class is one level deep, and its nodes hold the abstract tree's rules |
| WhiskerTrees.WhiskerTree.Insert | pkg/whisker/whisker_tree.go:31-36 | the tree becomes the insertion's result; a refusal returns the conflict and changes no node |
| WhiskerTrees.WhiskerTree.insert | pkg/whisker/whisker_tree.go:39-57 | at the root or at an intersecting child, replaces the rule in place, refuses without change, or appends one fresh leaf |
| WhiskerTrees.WhiskerTree.FindWhisker | pkg/whisker/whisker_tree.go:60-66 | returns the rule the lookup finds, or the not-found error |
| WhiskerTrees.WhiskerTree.findNode | pkg/whisker/whisker_tree.go:69-81 | returns the root itself when its rule contains the memory, otherwise the first child whose rule contains it, or null exactly when there is none |
| WhiskerTrees.LoadSplit | pkg/whisker/whisker.go:83-89 | loading two lists of rules in a row equals loading the first, then, if it succeeded, the second |
| WhiskerTrees.LoadStopsAtFirstRefusal | pkg/whisker/whisker.go:86-88 | a failed load stops at one rule: the rules before it load successfully, and that rule's insertion fails with the load's error |
| WhiskerTrees.LoadKeepsFlat | pkg/whisker/whisker.go:80-89 | a load from a one-level tree builds a one-level tree |
| WhiskerTrees.LoadWhiskers | pkg/whisker/whisker.go:79-91 | a fresh tree with every rule inserted in order; the first refusal returns its error and no tree |
| WireCodec.BigEndian | pkg/rat/rat.go:213-228 | an n-byte big-endian encoding has exactly n bytes |
| WireCodec.FromBigEndianOfBigEndian | pkg/rat/rat.go:213-265 | reading back an n-byte big-endian encoding of a value below 256^n gives the value |
| WireCodec.BigEndianOfFromBigEndian | pkg/rat/rat.go:213-265 | re-encoding the value read from bytes gives those bytes |
| WireCodec.ToInt32 | pkg/rat/rat.go:213 | Go's `int32(x)`: in range, congruent to x modulo 2^32, and x itself when x fits |
| WireCodec.ToInt64 | pkg/rat/rat.go:228 | Go's two's-complement 64-bit view: in range, congruent modulo 2^64, and x itself when x fits |
| WireCodec.EncodePacket | pkg/rat/rat.go:210-234 | an encoded packet is 24 bytes |
| WireCodec.ReadField | pkg/rat/rat.go:243-265 | a field read succeeds exactly when its bytes are all present; it reports end of input when none are left and an unexpected end when some are |
| WireCodec.DecodePacket | pkg/rat/rat.go:237-269 | decoding succeeds exactly when the buffer holds the 24-byte header, and a decoded packet's received time is Go's zero time |
| WireCodec.DecodeEncode | pkg/rat/rat.go:210-268 | decoding an encoded packet gives back its sequence number and id as int32 values, its flow id, and its send time as int64, with the received time unset |
| WireCodec.DecodeEncodeInRange | pkg/rat/rat.go:210-268 | when the sequence number and id fit int32 and the send time fits int64, decoding an encoded packet gives the packet back, received time unset |
| WireCodec.EncodeDecode | pkg/rat/rat.go:210-268 | a successfully decoded buffer has at least 24 bytes, and re-encoding the packet gives its first 24 bytes |
| WireCodec.DecodeFailsIff | pkg/rat/rat.go:237-269 | decoding fails exactly when the buffer is shorter than 24 bytes; the error names the field cut off, as end of input at a field boundary and as unexpected end inside a field |
| WireCodec.DecodeIgnoresTrailing | pkg/rat/rat.go:237-269 | bytes after the first 24 do not change the decoded packet |
| WireCodec.ReceivePacket | pkg/rat/rat.go:201-206 | a decode error is returned as is; on success the received time is stamped and nothing else changes |
| WireCodec.WriteValue | pkg/rat/rat.go:213-228 | one binary write: refused, naming the field, exactly when the type has no fixed size; otherwise as many bytes as the type's size |
| WireCodec.ReadValue | pkg/rat/rat.go:243-262 | one binary read: a type without a fixed size is refused before any byte is read; a success needs the type's bytes present |
| WireCodec.EncodeAs | pkg/rat/rat.go:210-234 | the four writes in order: encoding succeeds exactly when the flow id's type has a fixed size, and otherwise fails at the flow id |
| WireCodec.DecodeAs | pkg/rat/rat.go:237-269 | the four reads in order: with a flow id type of no fixed size, decoding never succeeds |
| WireCodec.EncodeFixedWidth | pkg/rat/rat.go:210-234 | with the flow id as an 8-byte unsigned integer, the type-driven encoder is the fixed encoder |
| WireCodec.DecodeFixedWidth | pkg/rat/rat.go:237-269 | with the flow id as an 8-byte unsigned integer, the type-driven decoder is the fixed decoder |
| WireCodec.EncodePacketAsWritten | pkg/rat/rat.go:210-234 | the encoder as written, with the flow id as Go's `uint`, always fails at the flow id and returns no bytes |
| WireCodec.DecodePacketAsWritten | pkg/rat/rat.go:237-269 | the decoder as written never succeeds: buffers under 8 bytes fail as the fixed decoder fails, all others fail at the flow id |
| WireCodec.AsWrittenRejectsValidHeader | pkg/rat/rat.go:256 | the as-written decoder rejects the 24 bytes the fixed encoder produces for packet (1, 2, 3, 4, zero time) |
| RatController.Since | pkg/rat/rat.go:84 | elapsed time saturates to the int64 range and is exact inside it |
| RatController.Truncate | pkg/rat/rat.go:84 | Go's float-to-integer conversion truncates toward zero |
| RatController.NextFlowID | pkg/rat/rat.go:153-156 | the flow id increments, wraps from 2^64 - 1 past 0 to 1, and is never 0 |
| RatController.AssertCondition | pkg/rat/rat.go:272-276 | a panic with the message happens exactly when the condition is false |
| RatController.Reinitialize | pkg/rat/rat.go:76-81 | an idle flow takes the root rule, its window for 0 and its intersend time; any other flow is unchanged |
| RatController.SendPanicsIff | pkg/rat/rat.go:74 | `Send` panics with the backlog message exactly when fewer packets were sent than received, and then changes nothing |
| RatController.SendReinitializes | pkg/rat/rat.go:76-81 | with window 0 the rule, window and intersend come from the root; otherwise they are kept |
| RatController.SendEmitsIff | pkg/rat/rat.go:83-113 | a packet is emitted exactly when the window has room, the intersend time has elapsed and the cap is not reached; otherwise the counters and last send time stay; on emission the count rises by one, the wire bytes encode the packet, and the last send time advances only when the write succeeds |
| RatController.SendRespectsWindow | pkg/rat/rat.go:83 | if the packets in flight were within the window, they still are after `Send` |
| RatController.SendKeepsInvariants | pkg/rat/rat.go:74-113 | `Send` keeps the backlog invariant and the window bound |
| RatController.ZeroRootNeverSends | pkg/rat/rat.go:76-83 | an idle flow whose root rule has multiple 1 and increment 0 gets window 0 and never emits |
| RatController.OneInFlight | pkg/rat/rat.go:76-113 | with a root rule of increment 1, a fresh controller sends one packet, and the next `Send` is blocked until an acknowledgment |
| RatController.UpdateStateBounds | pkg/rat/rat.go:148-157 | the window becomes the rule's window law on the old window, within the cap, and the flow id is never 0 |
| RatController.ReceiveLoopFrame | pkg/rat/rat.go:126-143 | the per-packet loop keeps the packet counters and last send time, and keeps the window within the cap |
| RatController.ReceiveCounts | pkg/rat/rat.go:123-144 | a batch adds its length to the received count, whatever the flow ids; sent count and last send time stay |
| RatController.OfFlow | pkg/rat/rat.go:127-135 | the batch's packets with the given flow id, by membership, and no more packets than the batch; this is the list recorded for the memory only while no rule is found, since a found rule moves the flow id (see ReceiveLoopWithoutRule) |
| RatController.ReceiveLoopWithoutRule | pkg/rat/rat.go:136-140 | when no rule matches the memory, every packet of the flow is recorded and skipped without a state update |
| RatController.ReceiveWithoutRule | pkg/rat/rat.go:119-145 | when no rule matches, a batch only counts the packets and hands the flow's packets to the memory |
| RatController.ReceiveForeignBatch | pkg/rat/rat.go:127 | a batch with no packet of the current flow only counts its packets and updates the memory with an empty list |
| RatController.GateOpensAtNextEvent | pkg/rat/rat.go:160-163 | the intersend part of the send gate opens exactly at the next event time |
| RatController.Rat.constructor | pkg/rat/rat.go:32-40 | a new controller has zero counters, window and flow id, zero memory, and the root rule as its current rule |
| RatController.Rat.Send | pkg/rat/rat.go:69-116 | the controller's state and reply are those of the `Send` step function on the root rule |
| RatController.Rat.ReceivePackets | pkg/rat/rat.go:119-145 | the controller's state becomes the receive function's, which walks the batch in order |
| RatController.Rat.updateState | pkg/rat/rat.go:148-157 | the state becomes the update function's: rule, window law, intersend, memory update, next flow id |
| RatController.Rat.NextEventTime | pkg/rat/rat.go:160-163 | whenever the intersend time converts to a duration strictly above the most negative int64 and at most the largest, a clock reading passes the intersend gate exactly when it is at or after the returned time |
| Senders.RateGapAsWritten | pkg/sender/sender.go:42 | the gap as written is a whole number of seconds, never negative for a positive rate |
| Senders.RateGap | pkg/sender/sender.go:42 | the meant rate-limit gap is 1/rate seconds truncated to whole nanoseconds, so it is within one nanosecond of it |
| Senders.RateGapAsWrittenVanishes | pkg/sender/sender.go:42 | as written the gap is 0 for every rate above one per second, though the meant gap is positive up to a billion per second |
| Senders.RateGapAtTwoPerSecond | pkg/sender/sender.go:42 | at two per second the gap is 0 as written and half a second as meant |
| Senders.RateLimited | pkg/sender/sender.go:42-44 | the too-early check on the meant gap: a zero rate never limits; with a positive rate a clock gone backwards always limits and a full 1/rate seconds never does |
| Senders.RateGapAsWrittenShorter | pkg/sender/sender.go:42 | for a positive rate the gap as written is never longer than the meant gap |
| Senders.RateLimitedAsWrittenWeaker | pkg/sender/sender.go:42-44 | for a positive rate the check as written refuses only sends the meant check refuses, and above one per second it refuses none while the clock does not go backwards |
| Senders.RateLimitsDisagree | pkg/sender/sender.go:42-44 | at two per second, 0.1 s after the last send, the meant check refuses and the check as written does not |
| Senders.RateLimitsDisagreeNegative | pkg/sender/sender.go:42-44 | at rate -2, 0.1 s before the last send time, the check as written refuses and the meant check does not |
| Senders.Sender.constructor | pkg/sender/sender.go:25-37 | a new sender has window 1, rate 0, zero counters and sequence number, and both times set from the clock |
| Senders.Sender.Send | pkg/sender/sender.go:40-58 | too early is refused first, then a full window; each refusal changes nothing; otherwise the sequence number rises by one, the bytes are counted, the last send time advances, and acknowledged bytes, rate and window stay |
| Senders.SendTwice | pkg/sender/sender.go:47-53 | two sends succeed back to back only if the first left room in the window |
| Senders.Sender.OnAck | pkg/sender/sender.go:61-68 | acknowledged bytes grow by the ack's count, the ack time is recorded, rate and window come from the controller, and bytes sent and sequence number stay |
| Senders.Sender.OnTimeout | pkg/sender/sender.go:71-75 | only the rate and window change, to the controller's |
| Senders.Sender.UpdateSendRate | pkg/sender/sender.go:78-80 | only the rate changes, to the controller's |
| Senders.Sender.UpdateCongestionWnd | pkg/sender/sender.go:83-85 | only the window changes, to the controller's |

## Left out

- Sockets and system calls: `Start`, `SetRATAlgorithmSystemWide`, and the socket reads and writes in `SendPacket` and `ReceivePacket`. The write's outcome is the `writeOk` parameter of `Send`. A read is the byte sequence handed to `WireCodec.ReceivePacket`, without the 1024-byte buffer cap.
- The controller's mutex: the model is single-threaded.
- The memory package's update procedures `UpdateSentPacket`, `UpdateReceivedPackets` and `UpdateRTT` are not part of this model. They arrive as the functions of a `MemoryHooks` value, given to the controller's constructor. The hooks map the four-field state to a new one, which is all a method of the four-field record can change.
- `MemoryRange`, `MinMemory`, `MaxMemory`, `FromDNAMemory` and `ToDNAMemory` are not part of this model. A domain is a closed box. `Contains` bounds every axis from both sides. `Intersects` overlaps every axis. The full domain of a new tree is a constructor parameter.
- File and protobuf I/O in `LoadWhiskers`, and all of `SaveWhiskers`, `ParseConfig`, `String` and `toString`. `LoadWhiskers` takes the decoded rules as a list. The generator's configuration is a record of lists plus a generation count.
- `NewWhisker` is the `Whisker` datatype constructor. It stores its five arguments unchanged.
- IEEE-754 arithmetic: floats are reals, and `Window` is computed with `Floor`. Out-of-range float-to-integer conversions are not modelled, and neither is the int64 wrap of the sender's `time.Duration(1.0/rate)*time.Second` once 1/rate exceeds about 9.2e9 seconds (rates below about 1.1e-10 per second): `RateGapAsWritten` multiplies without bound.
- Go's integer widths for the packet and byte counters: they are unbounded. The flow id is the exception and wraps at 2^64.
- Every clock read is a separate parameter. `Rat.Send` takes `now` for the gate, `sentAt` for the packet and `doneAt` for the last send time. `ReceivePackets` takes one reading per packet.
- RatController.Rat.ReceivePackets: the count of received packets may exceed the count sent. Nothing in the receive path keeps the backlog invariant; `Send` reports such a state by panicking.
- WireCodec.DecodePacket: a buffer longer than 24 bytes decodes from its first 24 bytes, as the Go decoder does. A length check on the whole buffer is not part of the code.
- The controller methods the sender calls (`OnPacketSent`, `OnPacketAcked`, `OnPacketLost`, `GetSendRate`, `GetCongestionWindow`) are not defined in the controller's source. Their answers arrive as a `RatView` parameter, and their effects on the controller are not modelled. The round-trip time `OnAck` computes is passed only to `OnPacketAcked`, so it is left out too.
- Senders.RateLimited: at rate 0 the model sets no limit. Go divides by zero to +Inf, and converting that to an integer is platform-defined. On common 64-bit targets the product then wraps to a gap of 0 or less. That also sets no limit as long as the clock has not gone back since the last send by more than the magnitude of the wrapped gap: by any amount where the gap wraps to 0, by more than a second where it wraps to -1 s. When it has, Go refuses the send and the model does not.
- Senders.Sender.Send: the too-early check uses the meant gap (`RateGap`), not the gap the code computes (`RateGapAsWritten`). Above one send per second the code lets through sends that the model refuses as too early (`RateLimitsDisagree`); for a positive rate, the code's check refuses only sends the model refuses too (`RateLimitedAsWrittenWeaker`). For a negative rate, which the controller's unconstrained `float64` answer allows, the two checks can disagree the other way (`RateLimitsDisagreeNegative`).
- WireCodec.FixedSize: that the binary package refuses Go's platform-sized `uint` is the package's documented rule, taken as given; the model derives the codec's failure from it but does not model the package itself.

## Findings

| source | as written | input that shows it | evidently intended | confidence | as-written member | corrected member |
|---|---|---|---|---|---|---|
| pkg/rat/rat.go:223 | the flow id is written (here) and read (line 256) as a Go `uint`, which `encoding/binary` refuses as a type without a fixed size, so encoding always fails and decoding fails on every buffer of at least 8 bytes; every `Send` that emits then gets the encode error, keeping the raised packet count and the old last send time (the model's `writeOk` false path), so `Transmitted` needs the fixed encoder | any packet, e.g. sequence 1, id 2, flow 3, sent 4 ns | the flow id travels as an 8-byte unsigned integer | not executed | WireCodec.AsWrittenRejectsValidHeader | WireCodec.DecodeEncode |
| pkg/sender/sender.go:42 | the gap `time.Duration(1.0/SendRate)*time.Second` truncates 1/rate to a whole number of seconds before scaling, so every rate above one per second yields a gap of 0 and no rate limit | SendRate 2.0: gap 0 instead of half a second | the gap is 1/rate seconds in nanoseconds | not executed | Senders.RateLimitsDisagree | Senders.RateGap |
