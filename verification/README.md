# Verified model of mtunnel's session protocol and datagram stack

This project models the parts of mtunnel-libp2p where a mistake would be hard to see, and
proves what they promise, in Dafny 4.11. `dafny verify dfyconfig.toml` checks all of it.

There are five cores.

1. **Tier cascade and lockstep punch.** Client and host are two processes joined by two FIFO
   streams of frames that carry no type tag. Each runs the Hello swap, the punch loop and the
   climb up the cascade. ICE, the tier engines, every timeout and every stream failure are
   arbitrary outcomes. A phase that times out ends its process but leaves its exchange in
   flight, as the Go code does. `Messages`, `Codec`, `WireFormat`, `Exchange` and `Cascade` hold the wire
   format and the pure selection; `Protocol` the step relation; `ProtocolInvariant`,
   `ProtocolRuns`, `ProtocolClimb`, `ProtocolRules` and `ProtocolEnds` what holds over every
   run, and `ProtocolWitness` runs that exist.
2. **Flow multiplexer.** `FlowTable` says what each locked region does, `FlowMux` is the
   object that does it in place. `FlowInvariant`, `FlowLaws`, `FlowOrder` and `FlowTeardown` are
   about one mux: its tables, each flow's life, what a reader gets, and letting go of flows;
   `FlowRuns` and `FlowDelivery` about two muxes over a hostile channel. The parity split of flow
   IDs is that of section 2.1 of RFC 9000.
3. **Datagram stack.** `Reassembly`, `ReassemblyRuns`, `ReassemblyLaws`, `ReassemblyDelivery` and the object
   `DatagramCodec` are the fragmenting codec over QUIC DATAGRAM frames (unreliable, section 5
   of RFC 9221). `Framing` and the object `DatagramAdapter` are the message-to-stream adapter
   and the length prefix on top of it. `EndToEnd` runs both complete stacks against each other, and
   `EndToEndWitness` a datagram through them.
4. **Substrate hand-off.** `Deadlines` and the object `DeadlineTimer` are the read deadline;
   `DeadlineConn`, `DeadlineConnRuns` and `DeadlineReads` the pump, its recycled buffers and
   the reads; `PacketConn` with `HandOffLaws` and `Bind` with `BindLaws` the two tiers' holds on
   the punched substrate. Goroutines are
   interleaved steps between channel and mutex operations.
5. **Session manager.** `Sessions`, `SessionRuns`, `SessionLaws` and the object `SessionManager`.

Where the source updates an object in place there is a class whose methods are proved equal to
functions on its abstract value, and the results about every run are proved of those functions.
A run is any sequence of events; an event that is not enabled changes nothing. Where Go ranges
over a map the order is arbitrary, and where it picks a victim the victim is arbitrary.

Some properties one might expect are false of the code. Each is stated as it is, with the
condition under which it does hold:

- the two punch verdicts agree in every run exactly when at least two attempts are agreed
  (`ProtocolWitness.PunchAgreementExactly`);
- a local close leaves no tombstone: it keeps a flow from coming back exactly when the ID is of
  the side's own parity (`FlowTeardown.CloseGuardsExactly`, `CloseLetsDataInExactly`);
- a tombstone guards its ID through exactly the events that do not overflow the table
  (`FlowTeardown.OverflowExactly`);
- the marshaller accepts messages that no frame can carry; a message is sent exactly when the
  lengths of its fields fit (`Exchange.SentExactly`);
- a session's stream count is begun minus ended streams exactly as long as no Remove or
  Shutdown hits a live session (`SessionRuns.CountExactly`);
- the receive function of a bind takes a net.ErrClosed of the substrate for its own close, so a
  nil Close can be trusted exactly if the device does not call it again after that
  (`Bind.CleanExactly`).

The comment on the pump in `internal/nat/deadline.go` says it can be parked offering a datagram
to a consumer that has stopped. `DeadlineConnRuns.BuffersConserved` shows that it cannot: with
as many buffers as queue slots, a pump that holds a buffer always finds a slot.

## Model

| member | source | states |
|---|---|---|
| Codec.ParseInvertsPayload | internal/negotiate/codec.go:230-257 | unmarshalling the payload of any message the marshaller accepts gives that message back |
| Codec.PayloadInvertsParse | internal/negotiate/codec.go:245-317 | whatever a payload is accepted as marshals back to that very payload: the format is canonical, no two payloads mean one message |
| Codec.Marshal | internal/negotiate/codec.go:230-243 | marshals exactly the messages within every limit, to the payload the parser is proved against, and refuses all others |
| Codec.MarshalHello | internal/negotiate/codec.go:21-44 | as Marshal, for a Hello: tier count and name limits, fixed-size key, flag and attempts |
| Codec.MarshalPunchInfo | internal/negotiate/codec.go:96-119 | as Marshal, for a PunchInfo: candidate count, a fingerprint of 0 or 32 octets, string limits |
| Codec.AppendString | internal/negotiate/codec.go:319-327 | appends a 16-bit length and the string, or refuses one over its limit |
| Codec.AppendStrings | internal/negotiate/codec.go:21-37 | the loop over a list of strings appends each in order and refuses if any is over the limit |
| Codec.Decoder.NextBytes | internal/negotiate/codec.go:285-292 | takes exactly n octets and advances the offset by n, or fails without looking past the end |
| Codec.Decoder.NextString | internal/negotiate/codec.go:294-310 | reads a length within the limit and exactly that many octets |
| Codec.Decoder.NextStrings | internal/negotiate/codec.go:46-80 | the loop reads exactly the advertised number of strings, in order, or fails |
| Codec.Decoder.Finish | internal/negotiate/codec.go:312-317 | accepts only when no octet is left over |
| Codec.UnmarshalHello | internal/negotiate/codec.go:46-94 | accepts exactly the payloads that parse as a Hello and yields that Hello |
| Codec.UnmarshalPunchInfo | internal/negotiate/codec.go:121-166 | accepts exactly the payloads that parse as a PunchInfo and yields it |
| Codec.Unmarshal | internal/negotiate/codec.go:245-257 | decodes by the kind the reader expects, never by anything in the payload |
| WireFormat.HelloLayout | internal/negotiate/codec.go:21-44 | where each field of a Hello stands in its payload |
| WireFormat.PunchInfoLayout | internal/negotiate/codec.go:96-119 | and of a PunchInfo, up to its candidates |
| WireFormat.CandidateLayout | internal/negotiate/codec.go:111-119 | and from there to its end |
| WireFormat.AttemptLayout | internal/negotiate/codec.go:168-178 | and of an attempt |
| WireFormat.NothingAround | internal/negotiate/codec.go:312-317 | a payload followed by anything, or cut short, is refused |
| WireFormat.OutOfRangeRefused | internal/negotiate/codec.go:46-166 | another version, a count over its limit and a flag that is neither zero nor one are refused whatever follows |
| Exchange.FramesInverse | internal/negotiate/negotiate.go:378-423 | a concatenation of frames, followed by anything, decodes to exactly the list of messages sent and leaves exactly what follows |
| Exchange.FrameCanonical | internal/negotiate/negotiate.go:395-409 | a frame that decodes is octet for octet the frame of the message read, and nothing beyond it is consumed |
| Exchange.SentExactly | internal/negotiate/negotiate.go:378-393 | a message that marshals is sent if and only if the lengths of its fields add up to no more than the frame limit |
| Exchange.PayloadSize | internal/negotiate/codec.go:21-228 | what a message takes on the wire, computed from the lengths of its fields, is what its payload takes |
| Exchange.SmallMessagesFit | internal/negotiate/codec.go:9-16 | so every Hello, outcome and attempt that marshals is sent, and every PunchInfo with at most 63 candidates |
| Exchange.LargestPunchInfoDoesNotFit | internal/negotiate/negotiate.go:378-393 | and the largest PunchInfo, 64 candidates and 262823 octets, marshals but is not |
| Exchange.Wire.WriteAll | internal/negotiate/negotiate.go:411-423 | over a writer that may take any prefix: on success everything is on the stream in order, on failure a prefix |
| Exchange.Wire.Encode | internal/negotiate/negotiate.go:378-393 | on success exactly the frame is appended; a message that cannot be sent puts nothing on the stream |
| Exchange.Wire.Decode | internal/negotiate/negotiate.go:395-409 | reads exactly one frame, through short reads, as the kind expected |
| Cascade.SharedCascade | internal/negotiate/negotiate.go:183-200 | the loop over the fixed cascade keeps exactly the upper tiers both sides support, by priority, then the floor |
| Cascade.PlanSymmetric | internal/negotiate/negotiate.go:153-180 | both peers derive the same branch, cascade, attempt count and fallback policy from the same two Hellos |
| Cascade.CascadeMeaning | internal/negotiate/negotiate.go:153-200 | a resolved cascade holds exactly the mutual upper tiers in priority order ending in the floor, or exactly the pinned tier and no floor |
| Cascade.ResolvesExactly | internal/negotiate/negotiate.go:153-170 | a cascade resolves if and only if neither side pins a tier or the one tier pinned is an upper tier that both support; a pinned session then has that rung alone |
| Cascade.PlanExactly | internal/tunnel/tier.go:201-278 | which plan the two Hellos lead to, each exactly: climbing needs a rung above the floor; without one a pinned session is refused, one both sides asked to probe probes, and any other stays on the floor; and what a climb then uses |
| Cascade.AttemptsBounds | internal/negotiate/negotiate.go:107-115 | the agreed count is one of the two requests, zero read as one, and more than neither; so it is between 1 and 255, and 1 exactly when some side asked for at most 1 |
| ProtocolInvariant.StepLocal | internal/tunnel/tier.go:201-672 | no step of either process breaks the invariant tying its program counter to the frames it sent and decoded |
| ProtocolInvariant.SendLocal | internal/negotiate/negotiate.go:297-376 | completing a send keeps that invariant |
| ProtocolInvariant.ReceiveLocal | internal/negotiate/negotiate.go:316-376 | decoding a frame of the expected kind keeps that invariant |
| ProtocolRuns.RunInv | internal/tunnel/tier.go:201-1014 | over every two-party run both sides keep their invariant, what each decoded is a prefix of what the other sent, and nothing was misread |
| ProtocolRuns.Lockstep | internal/tunnel/tier.go:872-999 | whatever a side is about to decode next, the other side encoded as the kind it expects |
| ProtocolRuns.NeverMisread | internal/tunnel/tier.go:230-278 | in every run, with any rung outcomes, timeouts and stream cuts, no frame is ever decoded as a kind it was not encoded from |
| ProtocolRuns.SuccessWasAcknowledged | internal/tunnel/tier.go:297-408 | a client that returns success on a tier had it up, and the host had stood it up and acknowledged the commit |
| ProtocolRuns.FloorWasNeverCommitted | internal/tunnel/tier.go:242-375 | a client that settles on the floor or fails with any error but the commit error never sent a commit, so the host never committed |
| ProtocolRuns.HostCommitWasRequested | internal/tunnel/tier.go:569-672 | a host that commits a tier was asked to by a client that had it up, and that client can only return that tier or the commit error |
| ProtocolRuns.OneRungAtATime | internal/tunnel/tier.go:308-336 | whenever both sides have a rung on the substrate it is the same tier, answering the same request: the host has closed every earlier one |
| ProtocolRuns.NoRungAfterAbandonment | internal/tunnel/tier.go:496-533 | once a side has seen its substrate abandoned it starts no further rung, however the run goes on |
| ProtocolRuns.AgentsConserved | internal/tunnel/tier.go:872-999 | every agent created is closed exactly once except one still held; an ended side holds one exactly when it is a client returning success; the attempt counter stays between 1 and the agreed count, so it never wraps |
| ProtocolRuns.PunchesAgree | internal/tunnel/tier.go:872-927 | with two or more agreed attempts and no stream failure both sides stop on the same attempt with the same verdict |
| ProtocolWitness.OneAttemptCanDiffer | internal/tunnel/tier.go:880-884 | with exactly one agreed attempt there is a run in which the verdicts differ |
| ProtocolWitness.PunchAgreementExactly | internal/tunnel/tier.go:880-921 | the verdicts agree in every run if and only if at least two attempts were agreed |
| ProtocolWitness.EveryClimbCanSucceed | internal/tunnel/tier.go:242-408 | whatever two Hellos agree to climb, some run ends with the client returning success on the first rung and the host having committed it |
| ProtocolWitness.EveryRungCanSucceed | internal/tunnel/tier.go:297-375 | and so can every later rung above the floor: some run ends with the client returning success on it and the host having committed it, after the rungs before it failed, whichever of those had come up on the host |
| ProtocolWitness.LastRungCanFail | internal/tunnel/tier.go:352-367 | when the last rung fails too, some run settles on the floor on both sides if no tier is pinned, and fails if one is |
| ProtocolWitness.EveryProbeCanLand | internal/tunnel/tier.go:1016-1029 | some run of an agreed probe connects on both sides, and both let their agents go |
| ProtocolClimb.ClimbsInOrder | internal/tunnel/tier.go:297-375 | over every run: a client at its request for rung i has begun i rungs and while it dials or commits rung i has begun i + 1, that one open; it has requested the rungs of the agreed cascade from the first and in order; and when it takes the floor, or gives up after a rung, it has tried every one above the floor unless it saw its substrate abandoned |
| ProtocolRules.OnlyAgreedRungs | internal/tunnel/tier.go:479-533 | over every run: no rung is built by the host, and none comes up on either side, but those of the agreed cascade above the floor |
| ProtocolRules.ReturnsByPolicy | internal/tunnel/tier.go:352-367 | over every run: the client returns the floor only if neither side pinned a tier, a plain failure only if one did or no plan was agreed, and success only on an agreed rung |
| ProtocolRules.ConnectsToThePeer | internal/tunnel/tier.go:931-999 | over every run: a side connects only with complete credentials that its peer sent in this very attempt |
| ProtocolRules.StreamsDecode | internal/negotiate/negotiate.go:378-423 | over every run: what a side has sent is, as octets, a concatenation of frames that decodes to exactly those messages, read as the kinds the lockstep reader expects and whatever follows |
| ProtocolRules.AbandonmentIsFinal | internal/tunnel/tier.go:322-336 | from the very event that tells a side its substrate is abandoned it has no rung, and it starts none however the run goes on |
| ProtocolEnds.StepLeft | internal/tunnel/tier.go:201-672 | every process step that changes anything strictly decreases what is left of its side |
| ProtocolEnds.EveryRunEnds | internal/tunnel/tier.go:872-921 | termination: no run, however long, holds more than a fixed number of events that move either side |
| ProtocolEnds.NeverStuck | internal/tunnel/tier.go:201-672 | in every reachable state a side that has not ended has an act that changes it |
| ProtocolEnds.AlwaysFinishes | internal/tunnel/tier.go:201-672 | so every run, wherever it stands, can be brought to an end on both sides |
| ProtocolEnds.NoDeadlock | internal/tunnel/tier.go:230-672 | deadlock freedom: in every reachable state in which neither side has ended, no stream is cut and what is being sent fits a frame, some act changes the session that is no timeout, no stop of the tier and no rung dying |
| ProtocolWitness.HostGoneStalls | internal/tunnel/tier.go:297-408 | once the host has ended this no longer holds: whatever two Hellos agree to climb, some run leaves the client waiting for a commit answer that only its deadline ends |
| FlowMux.DecodeInverse | internal/flowmux/flowmux.go:525-536 | a frame, encoded, decodes to itself; the header is five octets |
| FlowMux.DecodeCanonical | internal/flowmux/flowmux.go:247-273 | a message that decodes is octet for octet the message of its frame |
| FlowMux.Table.constructor | internal/flowmux/flowmux.go:138-160 | a new mux has empty tables and starts its IDs by role |
| FlowMux.Table.OpenStream | internal/flowmux/flowmux.go:166-178 | opens a flow under next and advances it by two; a closed mux opens none |
| FlowMux.Table.PutTombstone | internal/flowmux/flowmux.go:403-411 | adds a tombstone, giving up one existing entry only if the table is full and the ID new |
| FlowMux.Table.PutPending | internal/flowmux/flowmux.go:394-401 | records a FIN to retry only while there is room |
| FlowMux.Table.Remove | internal/flowmux/flowmux.go:419-428 | removes a flow only if it is still the one registered under its ID |
| FlowMux.Table.Take | internal/flowmux/flowmux.go:363-372 | takes the flow of an ID out of the table |
| FlowMux.Table.TakeAndTombstone | internal/flowmux/flowmux.go:378-386 | takes the flow and guards its ID in one locked region |
| FlowMux.Table.HandleFin | internal/flowmux/flowmux.go:247-310 | a FIN guards the ID, removes and ends the flow, and is acknowledged even for an unknown or closed flow |
| FlowMux.Table.Deliver | internal/flowmux/flowmux.go:622-628 | does to the flow what the specification of delivery says: FlowLaws.FlowStays and FlowOrder.ReadsInOrder say what that is |
| FlowTable.DataInParts | internal/flowmux/flowmux.go:247-351 | handling DATA is its three regions, lookup or creation, the offer to AcceptStream and delivery, one after the other; each is also an event of its own in the runs below |
| FlowMux.Table.HandleData | internal/flowmux/flowmux.go:247-351 | with nothing between its regions: delivers to a live flow; creates one only for the peer's parity, without a tombstone, and with room in the backlog |
| FlowMux.Table.Handle | internal/flowmux/flowmux.go:247-310 | sorts any message, malformed ones included, into the one transition the specification allows |
| FlowMux.Table.Accept | internal/flowmux/flowmux.go:182-203 | flows are accepted in arrival order |
| FlowMux.Table.Send | internal/flowmux/flowmux.go:647-684 | an ended flow sends nothing; otherwise exactly one DATA message, and only an accepted one touches the flow |
| FlowMux.Table.CloseFlow | internal/flowmux/flowmux.go:709-723 | with nothing between its regions: the first close removes the flow, ends it and begins its FIN, without a tombstone; later closes do nothing |
| FlowMux.Table.ShutAll | internal/flowmux/flowmux.go:430-447 | closes the mux, empties every table and ends every flow with the cause |
| FlowMux.Table.SweepTombstones | internal/flowmux/flowmux.go:475-484 | the loop drops exactly the expired tombstones |
| FlowMux.Table.SweepPending | internal/flowmux/flowmux.go:475-500 | the loop retries exactly the due FINs with retries left and drops exactly those without |
| FlowMux.Table.ReapIdle | internal/flowmux/flowmux.go:475-515 | the loop reaps exactly the idle flows, each guarded and its FIN begun |
| FlowMux.Table.Maintain | internal/flowmux/flowmux.go:475-523 | one pass does exactly that, then ends what it reaped and sends every FIN |
| FlowMux.Conn.Recv | internal/flowmux/flowmux.go:630-645 | queued payloads come out first and in order, and the cause only after them |
| FlowMux.Conn.Shut | internal/flowmux/flowmux.go:612-620 | a flow keeps the cause it was first ended with |
| FlowLaws.FlowBegins | internal/flowmux/flowmux.go:166-351 | the events that make a flow where there is none, exactly: a local open, or DATA for an ID of the peer's half that no tombstone guards; what it starts with and when |
| FlowLaws.FlowEnds | internal/flowmux/flowmux.go:247-515 | the events that take a flow out, exactly: the peer's FIN, a local close, a shutdown, an offer that finds the backlog full, a pass that finds it idle |
| FlowLaws.FlowStays | internal/flowmux/flowmux.go:622-698 | what becomes of a flow that stays: a payload that arrives goes to the end of its queue unless the queue is full, a reader takes the head, and only what arrives or is sent on it counts as activity |
| FlowLaws.InboundExactly | internal/flowmux/flowmux.go:182-310 | flows are offered to AcceptStream as they are made and accepted in that order |
| FlowLaws.EmitsExactly | internal/flowmux/flowmux.go:247-536 | what is sent, exactly: a FIN when a flow is closed, reaped or due again; an acknowledgement for every FIN received; data as it is sent; nothing else |
| FlowLaws.TombstonesExactly | internal/flowmux/flowmux.go:378-515 | short of an overflow a FIN and an idle reap guard their ID for the TTL from then, a pass lifts the guards whose time has come, and nothing else sets or lifts one |
| FlowLaws.PendingExactly | internal/flowmux/flowmux.go:388-401 | a FIN is recorded when its flow is closed here and there is room, and forgotten when it is acknowledged or everything is shut down |
| FlowLaws.PendingPass | internal/flowmux/flowmux.go:484-500 | a pass counts a due FIN once more and waits for the next interval, or gives it up when it was sent as often as configured; one not due it leaves alone |
| FlowOrder.ReadsInOrder | internal/flowmux/flowmux.go:622-645 | over every legal run: what the reader of a flow has been handed, then what is queued, is exactly what arrived on it while there was room, in the order it arrived |
| FlowOrder.KeptArrived | internal/flowmux/flowmux.go:622-645 | and that is a subsequence of all that arrived on it |
| FlowOrder.ActiveStays | internal/flowmux/flowmux.go:475-515 | over every run that does not close it otherwise: a flow that was active is not reaped before the idle time is over |
| FlowOrder.IdleGoes | internal/flowmux/flowmux.go:475-523 | a flow nothing arrived on and nothing was sent on for the idle time goes with the next pass: out of the table, guarded, and announced to the peer |
| FlowOrder.AckedIsSilent | internal/flowmux/flowmux.go:388-392 | once acknowledged a FIN is never sent again, however many passes follow, unless the flow is closed or reaped anew |
| FlowInvariant.NextOk | internal/flowmux/flowmux.go:247-523 | no event breaks: tables within limits, flows disjoint from tombstones, retries bounded, nothing live in a closed mux |
| FlowInvariant.NextWithin | internal/flowmux/flowmux.go:247-523 | no event makes a mux remember an ID it did not know, allocate or receive |
| FlowRuns.RunInv | internal/flowmux/flowmux.go:138-351 | two honest muxes over a channel that loses, repeats and reorders, their regions interleaved at will: every ID anywhere is below its side's next, and everything queued was sent |
| FlowRuns.OpenNeverCollides | internal/flowmux/flowmux.go:166-178 | the ID a side opens next is in neither side's flows, pending or tombstones and on no wire |
| FlowRuns.TablesBounded | internal/flowmux/flowmux.go:378-411 | in every reachable state both control tables respect their limits and flows are disjoint from tombstones |
| FlowRuns.ReadWasWritten | internal/flowmux/flowmux.go:622-684 | whatever is read from a flow is octet for octet something the peer wrote to the flow of the same ID |
| FlowDelivery.SideIsARun | internal/flowmux/flowmux.go:138-523 | each side of a run of two muxes is a legal run of one mux, so every result about one mux holds of both |
| FlowDelivery.DeliveredInOrder | internal/flowmux/flowmux.go:247-351 | over every run of two muxes over a hostile channel: the reader of a live flow is handed what arrived on it in that order, and whatever arrived the peer wrote to the flow of that ID |
| FlowDelivery.CloseReachesPeer | internal/flowmux/flowmux.go:709-723 | wherever a run stands, a close, its FIN delivered and its acknowledgement delivered back leave the flow gone on both sides and nothing to send again |
| FlowTeardown.RetiredStaysGone | internal/flowmux/flowmux.go:332-411 | starting from the FIN or the idle reap itself: for the TTL after it the peer's flow is not in the table at the end of any run of events that does not overflow the tombstones, late DATA, the regions of its handling and a shutdown of the mux among them |
| FlowTeardown.IdleReapGuards | internal/flowmux/flowmux.go:475-523 | a maintenance pass that does not overflow the tombstones leaves every flow it reaps out of the table and guarded for the TTL |
| FlowTeardown.OverflowExactly | internal/flowmux/flowmux.go:378-411 | exactly when the guard can be lost: a live mux keeps it through an event within the TTL, whatever the map iterations choose, if and only if the event, a FIN or a maintenance pass, does not overflow the tombstones |
| FlowTeardown.OverflowCanUnguard | internal/flowmux/flowmux.go:403-411 | and after an overflow some choice is followed by DATA that recreates the flow |
| FlowTeardown.RecreatesExactly | internal/flowmux/flowmux.go:332-351 | DATA for an ID without a flow creates one if and only if the ID is the peer's, has no tombstone and the backlog has room |
| FlowTeardown.CloseLetsDataInExactly | internal/flowmux/flowmux.go:709-723 | DATA right after a local close recreates the flow if and only if the ID is the peer's and the backlog has room |
| FlowTeardown.CloseGuardsExactly | internal/flowmux/flowmux.go:709-723 | over every run after a local close: nothing short of opening it again brings the flow back, if and only if the ID is of the side's own parity |
| FlowTeardown.OwnStaysClosed | internal/flowmux/flowmux.go:332-351 | no event but a local open gives an ID of the side's own parity a flow |
| FlowTeardown.ClosedFlowComesBack | internal/flowmux/flowmux.go:709-723 | a run from a new mux in which a closed flow comes back with late DATA |
| FlowTeardown.PendingDrains | internal/flowmux/flowmux.go:475-500 | a pending FIN is retransmitted at most the configured number of times and is gone by the next due pass, whatever else happens |
| Reassembly.ParseInverse | internal/quictun/fragment.go:112-127 | reading the header back gives the fragment that was written |
| Reassembly.FragmentValid | internal/quictun/fragment.go:171-185 | every fragment the sender cuts passes the receiver's shape check |
| Reassembly.ConcatChunks | internal/quictun/fragment.go:160-169 | the chunks of a message, joined in order, are the message |
| ReassemblyRuns.AcceptOk | internal/quictun/fragment.go:112-214 | one arrival keeps: reserved is the sum of stored totals, both caps hold, received counts the parts, only incomplete messages stay |
| ReassemblyRuns.ReserveMakesRoom | internal/quictun/fragment.go:137-141 | after reserve the newcomer always fits, so the refusal that follows it is unreachable |
| ReassemblyRuns.ReturnsWhatWasSent | internal/quictun/fragment.go:112-185 | refinement: after any arrivals of fragments of distinct messages, in any order with any losses, repeats, expiries and evictions, everything returned is the message sent under its ID |
| ReassemblyRuns.ReturnsNoMoreThanArrived | internal/quictun/fragment.go:152-169 | refinement: a message is returned no more often than any one of its fragments arrived |
| ReassemblyLaws.OthersKept | internal/quictun/fragment.go:129-214 | another message is stored after an arrival exactly if it was before, was not stored for a whole TTL yet and was not evicted; and then it is as it was |
| ReassemblyLaws.NoneStale | internal/quictun/fragment.go:200-206 | after an arrival nothing stored has been stored for a whole TTL |
| ReassemblyLaws.OldestGoFirst | internal/quictun/fragment.go:187-198 | only a message younger than none of those that stay is evicted |
| ReassemblyLaws.NoNeedlessEviction | internal/quictun/fragment.go:187-198 | nothing is evicted for a message that is stored already or that fits beside what has not expired |
| ReassemblyLaws.LastEvictionNeeded | internal/quictun/fragment.go:187-198 | and no more than it takes: without the last eviction the newcomer would not have fitted |
| ReassemblyLaws.MisfitIgnored | internal/quictun/fragment.go:131-152 | a fragment of another shape than the message stored under its ID changes nothing but what has expired, and a closed reassembler takes nothing |
| ReassemblyLaws.FragmentPlaced | internal/quictun/fragment.go:135-169 | any other fragment completes its message, which is then no longer stored, or is stored in its place beside the parts that were there |
| ReassemblyDelivery.DeliveredUnlessDisturbed | internal/quictun/fragment.go:129-214 | delivery: as long as the message does not expire and every other message that starts meanwhile finds room, any order of its fragments, with any repeats, returns it on the last missing one and not before |
| ReassemblyDelivery.DeliveredOnLast | internal/quictun/fragment.go:26-30 | as the limits are chosen for: with at most three other messages incomplete at a time, however many come and go, and all of it within one TTL, it is delivered just so |
| ReassemblyDelivery.StillPending | internal/quictun/fragment.go:129-169 | until then exactly the fragments that arrived are stored |
| ReassemblyDelivery.OneFragmentIsEnough | internal/quictun/fragment.go:112-169 | a message of one fragment is returned as it arrives: the conditions of delivery can be met |
| ReassemblyDelivery.NextInOrder | internal/quictun/fragment.go:129-169 | the fragments of a message arriving in order are stored one after the other, and the last returns the message |
| DatagramCodec.DatagramsParse | internal/quictun/fragment.go:62-88 | every datagram sent of a message parses to the fragment of its index and is valid |
| DatagramCodec.Codec.Send | internal/quictun/fragment.go:62-88 | sends the message's fragments in order under the next ID until the link fails; refuses one over the limit without using an ID |
| DatagramCodec.Codec.Receive | internal/quictun/fragment.go:112-169 | a datagram that is no valid fragment changes nothing; any other does exactly what the specification of accept says, and keeps its invariant |
| DatagramCodec.Codec.DropExpired | internal/quictun/fragment.go:200-206 | the loop removes exactly the expired messages |
| DatagramCodec.Codec.FindOldest | internal/quictun/fragment.go:189-195 | the inner loop finds a message no stored one is older than |
| DatagramCodec.Codec.Reserve | internal/quictun/fragment.go:187-198 | the loop terminates, evicts only oldest messages and only while crowded, and ends with room or nothing stored |
| DatagramCodec.Codec.Begin | internal/quictun/fragment.go:135-149 | a new message makes room and is stored blank, or is refused if there still is none |
| DatagramCodec.Codec.Fill | internal/quictun/fragment.go:152-169 | fills one part, idempotently, and returns the joined message exactly when it was the last |
| DatagramCodec.Codec.Close | internal/quictun/fragment.go:104-110 | forgets every incomplete message and accepts nothing more |
| Framing.ReadsOne | internal/udp/datagram.go:36-51 | a whole frame is read out to exactly its payload; one longer than the buffer is refused with its payload left unread |
| Framing.ReadsNext | internal/transport/datagram.go:51-75 | between datagrams one call skips empty messages, returns the next payload and is between datagrams again |
| Framing.NeverDesynchronises | internal/udp/datagram.go:36-51 | for any sequence of whole frames and empty messages call k returns payload k, later calls fail, and nothing is pending in between |
| Framing.InStepExactly | internal/udp/datagram.go:36-51 | a call ends between datagrams if and only if the buffer holds the payload |
| DatagramAdapter.Adapter.Read | internal/transport/datagram.go:51-75 | returns at most the current message, skipping empty ones; a failure of the substrate is sticky |
| DatagramAdapter.Adapter.ReadFull | internal/udp/datagram.go:36-51 | the reading loop does exactly what the specification says, and for no octets reads nothing |
| DatagramAdapter.Adapter.ReadDatagram | internal/udp/datagram.go:36-51 | reads a length and exactly that much payload, or fails |
| DatagramAdapter.Adapter.Write | internal/transport/datagram.go:80-88 | one write is one message; an empty one sends nothing |
| DatagramAdapter.Adapter.WriteDatagram | internal/udp/datagram.go:21-32 | one payload is one message, its frame; over 65535 octets is refused and nothing sent |
| DatagramAdapter.Adapter.Close | internal/transport/datagram.go:92-99 | the substrate is released once and every call reports the same result |
| EndToEnd.EveryPayloadFits | internal/quictun/fragment.go:16-27 | every payload up to 65535 octets makes a message the codec accepts, and the largest fills the limit exactly |
| EndToEnd.RunInv | internal/flowmux/flowmux.go:247-310 | the invariant of the whole stack on both sides holds over every run |
| EndToEnd.CompletedWasSent | internal/quictun/fragment.go:112-169 | in every run of both stacks a completed message is one the peer's codec was given, and decodes to a frame the peer's mux sent |
| EndToEnd.ReadsOnlyWhatWasWritten | internal/udp/datagram.go:21-51 | end to end: every payload read on a flow is octet for octet one the peer wrote to the flow of the same ID, message by message in the order handed over |
| EndToEndWitness.DatagramGetsThrough | internal/udp/datagram.go:21-51 | that is not about nothing: for any settings of the two sides every datagram the framing accepts, however many fragments it takes, is written, sent, reassembled, handed to the reader and read in some run |
| Deadlines.ChannelsAgree | internal/nat/deadline.go:268-307 | under every interleaving of sets, timers and stale callbacks no channel is closed twice, fired means the current one is closed, and every captured one is current or closed |
| Deadlines.NeverEarly | internal/nat/deadline.go:298-307 | a callback of an older generation never expires a cleared or later deadline: fired implies the deadline in force is due |
| Deadlines.NeverLost | internal/nat/deadline.go:282-293 | a due deadline has fired or its own callback still can, and then every captured channel closes |
| Deadlines.PastReleasesEveryone | internal/nat/deadline.go:268-293 | setting a past deadline closes, for good, every channel ever captured |
| DeadlineTimer.Timed.Set | internal/nat/deadline.go:268-293 | does exactly what the specification says to real channels, closing none twice |
| DeadlineTimer.Timed.Expire | internal/nat/deadline.go:298-307 | fires only its own generation, once |
| DeadlineTimer.Timed.Renew | internal/nat/deadline.go:278-281 | a new channel is made exactly when the current one has fired |
| DeadlineTimer.Timed.Current | internal/nat/deadline.go:170-173 | a read captures the current channel under the mutex |
| DeadlineConn.NeverBlocks | internal/nat/deadline.go:207-213 | whoever holds a buffer knows the channel it goes to is not full |
| DeadlineConnRuns.RunInv | internal/nat/deadline.go:104-213 | over every interleaving of the pump, any reads, sets and timers the whole invariant holds |
| DeadlineConnRuns.BuffersConserved | internal/nat/deadline.go:104-213 | each of the eight buffers is always in exactly one of free, packets, the pump, one read, or dropped; neither consume nor the pump's offer ever blocks |
| DeadlineConnRuns.SubstrateOrder | internal/nat/deadline.go:133-160 | handed out, then queued, then in the pump or lost with it, is exactly what the substrate gave, in order |
| DeadlineConnRuns.CopyReturnsWhatWasTaken | internal/nat/deadline.go:207-213 | a read returns the very datagram it took, cut to its buffer: none is overwritten before it is copied |
| DeadlineConnRuns.StopIsReportedLast | internal/nat/deadline.go:190-205 | a read reports the stop error only when everything the pump queued has been handed out |
| DeadlineConnRuns.PastDeadlineTakesNothing | internal/nat/deadline.go:175-188 | a read that starts after the deadline passed takes no datagram, however many wait and however the rest interleaves |
| DeadlineConnRuns.PastDeadlineReleases | internal/nat/deadline.go:186-205 | once the deadline has passed every read has an enabled step that brings it closer to returning |
| DeadlineConnRuns.NobodyDelays | internal/nat/deadline.go:170-205 | nobody else's step moves a read, and its own never take it further away |
| DeadlineReads.ReturnsItsDatagram | internal/nat/deadline.go:170-213 | over every run: a read that returned a datagram took exactly one of those handed out, no other read took that one, and it is that one cut to the caller's buffer |
| DeadlineReads.OthersTookNone | internal/nat/deadline.go:170-205 | a read that failed, or has not got that far, took none |
| DeadlineReads.ExpiredOnlyIfClosed | internal/nat/deadline.go:170-192 | over every run: the deadline error is returned only by a read that looked at a channel which is closed |
| DeadlineReads.NeverExpiresUnset | internal/nat/deadline.go:170-192 | so a conn whose deadline nobody ever sets never reports that it passed |
| DeadlineReads.ParkedReads | internal/nat/deadline.go:190-213 | a read that waits takes the oldest datagram queued and returns it, and its buffer is free again |
| DeadlineReads.EnteredReads | internal/nat/deadline.go:170-213 | a read that starts while the deadline has not passed gets there |
| DeadlineReads.StoppedReads | internal/nat/deadline.go:195-204 | once the pump is gone a waiting read still gets what is queued, and the stop error when nothing is |
| DeadlineReads.PumpQueues | internal/nat/deadline.go:133-160 | the pump takes a free buffer, fills it and queues it |
| DeadlineReads.PumpLeaves | internal/nat/deadline.go:133-168 | a failing substrate ends the pump and so does a stop; only what it was offering then is lost |
| DeadlineReads.DeadlineArrives | internal/nat/deadline.go:241-307 | setting the deadline: one already past fires at once, one to come when its timer runs at its time or later and not before, and none never |
| PacketConn.AfterInv | internal/quictun/packetconn.go:100-195 | over every interleaving the token is in exactly one hand and Close knows what it has seen |
| PacketConn.CleanHandOff | internal/quictun/packetconn.go:160-178 | once Close has returned nil no ReadFrom is in the substrate or ever will be, the substrate is open and the deadline cleared unless someone else set it since |
| PacketConn.AbandonedExactly | internal/quictun/packetconn.go:179-194 | Close reports an abandoned substrate exactly when it closed it |
| PacketConn.OneReader | internal/quictun/packetconn.go:100-122 | at most one ReadFrom is in the substrate |
| PacketConn.LaterReadsEnd | internal/quictun/packetconn.go:171-177 | after a clean Close a ReadFrom still ends: the token is free or held by one that is on its way out |
| PacketConn.HolderAdvances | internal/quictun/packetconn.go:100-122 | over a conn that honours deadlines the token's holder always has a step that brings it closer to giving the token back |
| PacketConn.TokenComesBack | internal/quictun/packetconn.go:160-178 | and it gives it back within eight of its own steps |
| PacketConn.CloseReleasesTheReader | internal/quictun/packetconn.go:160-178 | so from the moment Close sets a past deadline, its wait can end |
| PacketConn.OtherCallsDoNotDelay | internal/quictun/packetconn.go:100-122 | no other call sets the holder back |
| PacketConn.ConnDoesNotDelay | internal/nat/deadline.go:170-205 | nor does anything in the conn underneath, unless someone moves the deadline |
| HandOffLaws.ResultsExactly | internal/quictun/packetconn.go:100-122 | over every run: ReadFrom returns a datagram if and only if the substrate gave it one, a failure only if the substrate reported one, and the detach error only once Close has begun |
| HandOffLaws.ReadGoesThrough | internal/quictun/packetconn.go:100-122 | a ReadFrom that finds the token asks the substrate exactly if Close has not begun, returns what it was answered and gives the token back |
| HandOffLaws.CloseHandsOff | internal/quictun/packetconn.go:160-178 | Close puts the deadline in the past before it waits; with the token at hand it returns with the deadline cleared, the token back and the substrate open |
| HandOffLaws.CloseGivesUp | internal/quictun/packetconn.go:179-194 | when the token does not come back in time it closes the substrate and says so |
| Bind.AfterInv | internal/wireguard/bind.go:122-275 | over every interleaving of generations the invariant of the bind holds |
| Bind.CleanHandOff | internal/wireguard/bind.go:209-243 | once the Close of a generation returned nil its receive loop is out of the substrate for good, unless its device was told net.ErrClosed while it was open and called it again, and the deadline is cleared unless set since |
| Bind.CleanExactly | internal/wireguard/bind.go:135-143 | exactly when a nil Close can be trusted: no run leaves a loop in the substrate behind one if and only if the device does not call again an open loop that told it net.ErrClosed |
| Bind.UncleanOnlyIfRecalled | internal/wireguard/bind.go:122-190 | one generation at a time, whatever the others do: after its nil Close its loop is in the substrate only if it was there at the step that saw the report, called again by its device after an early net.ErrClosed |
| Bind.RecallIsUnclean | internal/wireguard/bind.go:138-143 | the run in which it does: the substrate itself reports net.ErrClosed, the loop passes it on, and the later Close takes the old report for its own |
| Bind.AllClosedCleanly | internal/wireguard/bind.go:209-243 | when every generation closed cleanly no loop, unless called again that way, is in the substrate, it is open and Abandoned is false |
| Bind.AbandonedExactly | internal/wireguard/bind.go:252-275 | Abandoned is set exactly when some Close took the fallback, and the substrate is closed only then |
| Bind.ClosedLoopReports | internal/wireguard/bind.go:153-190 | a loop of a closed generation can only report the close from its next look on |
| Bind.LoopAdvances | internal/wireguard/bind.go:153-190 | over a conn that honours deadlines the loop of a closed generation always has a step closer to reporting |
| Bind.LoopExits | internal/wireguard/bind.go:209-243 | and it reports within nine of its own steps |
| BindLaws.LoopExactly | internal/wireguard/bind.go:153-190 | where each answer of the substrate takes the loop: what is reported as the close, what is read over, what goes to the device |
| BindLaws.ExitedExactly | internal/wireguard/bind.go:153-190 | a generation counts as exited exactly from its own loop's report on |
| BindLaws.GenerationsExactly | internal/wireguard/bind.go:122-243 | a generation is closed by its own Close and by nothing else; an open bind refuses to be opened, a closed one has nothing to close |
| BindLaws.CloseExactly | internal/wireguard/bind.go:209-269 | the steps of a Close: what it waits for, what it clears, when it gives the substrate up and what it records then |
| BindLaws.OpenAndReceive | internal/wireguard/bind.go:122-190 | opening a closed bind starts a generation whose loop receives from the substrate and leaves the loops before it where they are |
| BindLaws.CloseHandsOff | internal/wireguard/bind.go:209-243 | closing it hands the substrate back as it was, with the deadline cleared, after its loop reported instead of asking the substrate again; and it can be opened again |
| SessionRuns.EventsAlternate | internal/tunnel/session.go:134-229 | each peer's events alternate starting with CONNECTED, and the last says whether it has a session |
| SessionRuns.EntryLeavesOnce | internal/tunnel/session.go:83-129 | every tier entry is at every moment in the table, or unregistered by its owner, or has its stop called once, exactly one of the three |
| SessionRuns.LeftForGood | internal/tunnel/session.go:113-129 | an entry that left the table never comes back |
| SessionRuns.OnlyOwnCausesEvict | internal/tunnel/session.go:83-304 | over every run: an entry leaves the table if and only if its owner unregisters it, its own peer's session is removed, its peer registers another, or everything is shut down; so a stale unregister never evicts a replacement |
| SessionRuns.NothingOutlivesShutdown | internal/tunnel/session.go:274-304 | after a shutdown no session and no tier remains, none is admitted and nothing more is reported |
| SessionRuns.CountExactly | internal/tunnel/session.go:134-196 | a session's count is begun minus ended streams after every operation if and only if no Remove or Shutdown ever hit a live session of that peer |
| SessionRuns.HandlersExactly | internal/tunnel/session.go:134-196 | what Shutdown waits for is exactly the streams begun and not ended |
| SessionRuns.ShutdownReturnsLast | internal/tunnel/session.go:300-303 | when a shutdown can return every stream ever begun has ended, and none begins or ends after it |
| SessionLaws.LeavesExactly | internal/tunnel/session.go:83-304 | an entry taken out by its owner is not stopped; taken out for any other cause its stop is decided on there and then, and for no other reason |
| SessionLaws.EntersExactly | internal/tunnel/session.go:83-107 | an entry comes into the table exactly as it is registered before a shutdown |
| SessionLaws.RemoveRetires | internal/tunnel/session.go:202-233 | an operator's disconnect takes the peer's tier out of the table and decides its stop, removes the session and reports one DISCONNECT |
| SessionLaws.SessionExactly | internal/tunnel/session.go:134-304 | over every run: a session begins with the first stream admitted, reported on the tier registered then or the floor; ends, reported, with its last stream or its removal, and unreported with a shutdown; and is counted by its own streams only |
| SessionLaws.ReportsOnlySessions | internal/tunnel/session.go:134-229 | nothing else is reported |
| SessionLaws.StopsAreCalled | internal/tunnel/session.go:95-129 | a stop decided on can be called at any time, and is called once |
| SessionLaws.ShutdownStopsAll | internal/tunnel/session.go:274-304 | a shutdown closes the manager and decides the stop of whatever was registered |
| SessionLaws.SettleIsCalls | internal/tunnel/session.go:95-107 | calling every stop owed one after the other is what the methods do after their locked region |
| SessionManager.Manager.RegisterTier | internal/tunnel/session.go:83-107 | registers and stops what it displaced; while closing it stops the new entry instead |
| SessionManager.Manager.UnregisterTier | internal/tunnel/session.go:113-124 | evicts only on identity |
| SessionManager.Manager.BeginStream | internal/tunnel/session.go:134-172 | counts a stream; the first one creates the session on the registered tier and reports it; refused once closing |
| SessionManager.Manager.EndStream | internal/tunnel/session.go:180-196 | counts down; the last one removes the session and reports it |
| SessionManager.Manager.RemovePeer | internal/tunnel/session.go:202-233 | removes the session and tier, reports once and stops the tier; nothing for a peer without a session |
| SessionManager.Manager.Shutdown | internal/tunnel/session.go:274-304 | empties both tables, stops every entry that was in the table, each once, and says whether its final wait is over |
| SessionManager.Manager.Collect | internal/tunnel/session.go:277-280 | the loop gathers each registered entry exactly once |

## Left out

- libp2p host, DHT, relay selection and stream opening: wrappers over libraries, with no hard invariant of their own.
- ICE, the QUIC and WireGuard engines, TLS pinning and key generation: foreign code, here arbitrary outcomes that keep their documented contract.
- Token encoding, CLI, JSON control channel, log records, TCP copying and the UDP flow table: plumbing, or simpler forms of what the mux and the session manager show.
- Error texts: errors are modelled by which one is returned where a caller acts on it, not by their wording.
- Two processes and goroutines as objects: `Protocol`, `DeadlineConn`, `PacketConn` and `Bind` are step relations on values, because what is proved is about every interleaving; the loops of the Go functions are their program counters.
- The accept loop and stream set of a host rung: a rung is up, closed or abandoned, and its forwarded streams are not modelled.
- The probe's result: a probe run ends like a session that found nothing, and what it logs is not modelled.
- Partly filled targets: a decode error in Go may leave the target struct half written; here it yields nothing.
- Codec.Decoder: strings are octet strings, so the model does not say that tier names are valid UTF-8, which the source does not check either.
- Exchange.Wire: a read that makes no progress and reports no error, which the standard library turns into an error, is not modelled.
- FlowRuns.RunInv: assumes fewer than 2^31 opens per side, so that flow IDs do not wrap onto IDs in use.
- EndToEnd.RunInv: assumes fewer than 2^32 messages per codec, so that message IDs are distinct; a message the mux sent may be handed to the codec at any later time, and more than once, which allows more behaviours than the code.
- FlowDelivery.DeliveredInOrder: is about a flow in the table; the reader of a flow that has left it is handed what was queued then, in the order `FlowMux.Conn.Recv` states, which the runs of two muxes leave open (`Drain`).
- EndToEnd.ReadsOnlyWhatWasWritten: says nothing about delivery or order of sending, since the channel may lose and reorder whole messages.
- DatagramCodec.Codec: a partial message is a value in the map rather than an object of its own, so `remove` compares IDs instead of pointers; callers always pass the message stored under the ID.
- The loop of the codec's `Recv`: it calls accept until a message completes, and adds nothing to it.
- FlowMux.Table.HandleData: the method runs its three regions in sequence, and `EndToEnd` takes a message in one step; what other goroutines do between the regions is covered by the events `DoDataPart` of `FlowTable`, which the runs of `FlowRuns` and `FlowTeardown` order freely. A payload put on a flow that has already ended is not kept, since nothing in the tables holds it.
- FlowMux.Table.CloseFlow: likewise; removing the flow and beginning its FIN are the events `DoClosePart`, and ending it changes no table.
- FlowMux.Table: the frame pool and the goroutines around the locked regions are not modelled; a region is atomic and its FINs are sent after it.
- Deadlines.NeverLost: a timer's callback may run at any moment from when it is due, also after it was stopped; that it runs at all is the runtime's promise.
- The write deadline: it is the same object as the read deadline, and a write does not wait on it.
- PacketConn.CleanHandOff: deadlines that quic-go or the substrate's owner sets after Close cleared its own are recorded, not excluded.
- PacketConn.TokenComesBack: counts steps, not time, so it does not say that they fit in the grace period.
- Bind.LoopExits: assumes, as wireguard-go does, that a device calls receive again until it is told the bind is closed.
- ProtocolEnds.NoDeadlock: a side whose peer has ended is not covered; in the source the peer then ends the stream, which is a `Timeout` of the model.
- ProtocolEnds.AlwaysFinishes: that a side that can move does move is the scheduler's and the timers' promise, and not modelled.
- Concurrent calls of `packetConn.Close`: they share one result through a once; one closer is modelled.
- Stream resets and closing of peers in the session manager: calls into libp2p with no effect on its tables.
- SessionManager.Manager.RegisterTier: one call at a time is modelled in place; calls that interleave between the locked region and the stop are covered by `SessionRuns`, where every stop is a step of its own.
- Wall-clock precision, mutex fairness and memory reuse: time is an integer that does not go back.
