# canbuskit, modelled and proved in Dafny

This project models the algorithmic core of canbuskit and proves its main properties:

- the ISO-TP session of `isotp/` (segmentation, flow control and reassembly of ISO 15765-2:2016), alone, as one
  end of a connection of two sessions, and over a lossy link, with the real codec in between;
- the bus-load meter of `driver/internal/backend/busload.go`: the rolling window, the relocation of transmissions
  between the host and the hardware window, the unwrapping of device clocks, bit stuffing, CRC-15 and bus time;
- the UDS request loop, the PCAN bit-timing search, and the receive fan-out.

`dafny verify dfyconfig.toml` checks everything. All times are integers (nanoseconds or microseconds, as in the
source), bytes are integers below 256, and Go's 64-bit counters are unbounded.

## How it is built

| file | content |
|---|---|
| `basics.dfy`, `arith.dfy` | shared types and division facts |
| `can.dfy`, `framing.dfy`, `pdu.dfy`, `link.dfy` | frame construction and DLC, the ISO-TP printer and parser, the path between them |
| `isotp_spec.dfy`, `session_config.dfy`, `session.dfy` | the session as functions on values, what it accepts from its caller, and as the object whose handlers update fields in place |
| `session_invariant.dfy`, `sender_termination.dfy`, `reassembly.dfy`, `receiver_progress.dfy` | one session against an arbitrary peer |
| `accounting.dfy`, `flow_control.dfy` | nothing is lost silently; what a waiting sender does with each flow status |
| `direction.dfy`, `network.dfy` | two sessions joined by two queues of CAN frames: safety |
| `address_switch.dfy`, `switch_mixing.dfy` | why no switch of the transmit address may turn a transfer back to the peer |
| `exact_delivery.dfy`, `exact_network.dfy`, `frame_counts.dfy` | progress, exact delivery and frame counts |
| `lossy_transfer.dfy`, `lossy_mixing.dfy` | one transfer over a link that drops and repeats, and what happens to two |
| `host_window.dfy`, `host_window_runs.dfy`, `hardware_window.dfy`, `hardware_window_runs.dfy` | the rolling windows, in host and in device time, against a plain record of events |
| `meter_spec.dfy`, `meter_conservation.dfy`, `meter_properties.dfy`, `meter_snapshot.dfy`, `meter_object.dfy` | the whole meter: functions, conservation, single operations, reports, and the object with its bucket arrays |
| `early_echoes.dfy`, `observed_frames.dfy`, `averaging.dfy`, `snapshot_window.dfy`, `hardware_silence.dfy` | which echo a transmission takes, what an observed frame does, over which time and over which frames a snapshot averages, and what silence does |
| `meter_exceptions.dfy` | runs of the meter that count a frame twice, again or not at all |
| `frame_key.dfy` | the key by which the meter recognises echoes |
| `clock.dfy` | the two device clocks |
| `bit_stuffing.dfy`, `crc15.dfy`, `bit_counter.dfy`, `bit_order.dfy`, `occupancy.dfy` | explicit bit lists, the CRC as polynomial division, the streaming counters, what a receiver reads back, bus time |
| `uds.dfy`, `uds_retries.dfy`, `pcan_timing.dfy`, `fanout.dfy`, `fanout_room.dfy`, `fanout_object.dfy` | the three smaller cores |

Where the source changes state in place, the operation is a method (a class for the session, the meter, the
counters, the log clock and the fan-out) proved equal to a function on values, and the properties are proved about
that function. Concurrency is a state machine: one arm of the session's select loop, or one section under the
fan-out's lock, is one step; timer expiries, full queues, drops and repetitions happen at any time. Each queue entry
of the connection carries a history tag that says which bytes of which payload it holds; no handler reads a tag.
The meter's records of frames are history in the same sense.

## Where the code does less than it seems to promise

- The empty payload on classic CAN with a padding byte other than 0 is not delivered: its one-byte Single Frame
  followed by padding reads as an escaped length. `Network.EmptyPayloadException` gives the exact outcome for every
  padding byte, `Pdu.SingleFrameRoundTrip` the exact condition for the codec.
- A payload of 2^32 bytes or more is announced with its length truncated to 32 bits; `Pdu.FirstFrameRoundTrip`
  is an if-and-only-if.
- With `MaxWaitFrames` negative a peer can keep a transfer waiting for ever: `SenderTermination.UnlimitedWaitsNeverEnd`.
- Every frame of a transfer reads the transmit address anew. Switching it away is harmless at any moment, and so is
  every switch while no transfer is active; what harms is the switch that turns an active transfer to the peer which
  did not go there (`Network.SafeSwitch`), as a UDS request can do that starts while an earlier functional one is
  still being sent (`uds/uds_client.go:384`). With two or more consecutive frames left the peer can then report a mismatch
  (`AddressSwitch.UnsafeRun`, for every payload long enough), and with one left it can deliver the beginning of one
  payload with the end of another (`SwitchMixing.OneFrameLeftMixes`).
- A receiver can be kept waiting for ever by empty consecutive frames (`ReceiverProgress.AfterEmpties`); only data is
  bounded (`ReceiverProgress.DataFramesBounded`).
- Over a lossy link a consecutive frame of one payload can complete another: `LossyMixing.LossMixesPayloads`.
- Over a link that repeats frames a Single Frame is delivered as often as it is heard, while a payload of several
  frames is delivered at most once: `LossyTransfer.AtMostOnceIff`.
- The meter counts a transmission twice when it is recorded exactly one window after the origin, the window then
  moves, and a timestamped echo arrives: its removal looks one bucket too far.
  `MeterExceptions.RightEdgeCountsTwice` is the run, `HostWindow.RemovableIffInside` the exact condition. The comment
  at `driver/internal/backend/busload.go:11` bounds the window's edge error by one bucket; that holds for the window
  itself (`HostWindowRuns.WindowErrorIsOneBucket`), not for this case.
- A timestamped echo adds a frame when its transmission is still pending but has left the host window:
  `MeterExceptions.LateEchoCountsAgain` is the run.
- An echo takes its transmission out of the host window and is then refused by the hardware window when its device
  time is older than that window's origin while the window holds a frame, so a transmission can be counted nowhere
  while it is a nanosecond old: `MeterExceptions.RefusedEchoLosesFrame` is the run, `HardwareWindow.OlderFrameRefused`
  says when a frame is refused, and `MeterProperties.EchoMovesOne` when an echo keeps the number of counted frames.
  The edge error of one bucket holds for the frames the hardware window accepts.
- Different frames with two or more data bytes can share the key by which echoes are recognised, so a received frame
  can be taken for the echo of another transmission: `FrameKey.KeysCollide`.
- The meter's clock is exact only while roll-over gaps stay below half a period, the log's clock for all gaps below
  a period: `Clock.UnwrapExactIff`.
- A device-timed frame from just before a roll-over that is heard after it is placed a whole period late; every other
  frame older by up to a second and half a period keeps its place: `Clock.PlacedWhereItBelongs`.
- The first snapshot of a meter that has only heard device-timed frames starts the host's measurement anew:
  `Averaging.FirstLookRestarts`.
- With a measured bit count and a data bit rate of 0, a rate-switching frame is charged for all its bits, while the
  model charges only the nominal phase: `Occupancy.MeasuredEqualsModel`. The meter itself never has that rate
  (`MeterSnapshot.RunSane`), so there the equality is unconditional (`MeterSnapshot.MeasuredIsModelInMeter`).
- An answer to UDS service 0x3F starts with 0x7F and is taken for a negative response: `Uds.AnswersTaken`.

## Model

| member | source | states |
|---|---|---|
| Network.EndToEndSafety | isotp/stack.go:258-292 | Main safety result. In every run of two matched sessions over FIFO links, with traffic in both directions, any interleaving of timer expiries, injected stale or foreign frames, queue-full drops and transmit-address switches (at any moment, except a switch that turns an active transfer which goes elsewhere to the peer), each end delivers an in-order subsequence of what the other started, no sequence mismatch is ever reported, and no handler slices out of range |
| Network.StepKeeps | isotp/stack.go:266-290 | Every arm of the select loop and every address switch but that one, at either end, keeps the connection invariant behind the safety result |
| Network.SwitchKeeps | isotp/stack.go:196-208 | Switching the transmit address keeps both directions in order when no transfer is active, when the old address is the peer's, or when the new one is not |
| Network.StartKeeps | isotp/tx_handler.go:12-72 | Starting a payload queues exactly the frame that opens it, so both directions stay in order |
| Network.STminKeeps | isotp/tx_handler.go:115-164 | An STmin expiry queues exactly the next slice of the payload under the next sequence number |
| Network.TakeDataKeeps | isotp/rx_handler.go:73-116 | A data frame taken from the queue extends the prefix held by the receiver or delivers the payload it belongs to |
| Network.TakeUntaggedKeeps | isotp/rx_handler.go:9-32 | Flow control, foreign and unparseable frames never disturb the data in either direction |
| Network.FlowControlSetsPace | isotp/tx_handler.go:81-90 | An automatic flow control, through padding, DLC and parser, makes the waiting sender transmit with the block size and STmin its receiver is configured with, losing nothing of what is left |
| Network.EmptyPayloadException | isotp/framing.go:94-99 | The empty payload on padded classic CAN is delivered as itself exactly for padding byte 0 or none, is lost to a parse error above 6, and otherwise arrives as that many padding bytes |
| AddressSwitch.TornTransfer | isotp/stack.go:321-329 | From any heard transfer with two or more consecutive frames left, switching to any other address leads to a moment at which the switch back makes the peer report SequenceMismatch with the expected number and its successor, because every frame is addressed anew |
| AddressSwitch.LongTransfersTear | isotp/stack.go:196-208 | Such a moment is reachable from a new connection for all linked ends, every payload that needs two consecutive frames and every other address |
| AddressSwitch.UnsafeRun | isotp/stack.go:196-208 | Converse of the safety result: for all of them, a run in which the switch back is the only step its condition excludes, and in which a mismatch is reported |
| SwitchMixing.OneFrameLeftMixes | isotp/stack.go:196-208 | The same with one consecutive frame left: for every two payloads of equal length that take two frames each, a run in which the switch back is the only excluded step and the peer delivers the beginning of one with the end of the other, which nobody started |
| Direction.DivertedIsForeign | isotp/stack.go:321-329 | A data frame sent while the address is switched away is not heard by the peer |
| Direction.SingleFrameArrives | isotp/pdu.go:48-69 | What the receiver decodes from a session-built Single Frame after padding, DLC rounding and the filter, for every payload |
| Direction.FirstFrameArrives | isotp/tx_handler.go:43-58 | A session-built First Frame fills its frame and arrives exactly |
| Direction.ConsecutiveFrameArrives | isotp/tx_handler.go:121-131 | A Consecutive Frame arrives with its own chunk followed by fill, and without fill when the chunk is full |
| Direction.FlowControlArrives | isotp/rx_handler.go:142-152 | An automatic flow control arrives with its own parameters |
| ExactNetwork.ExactlyDelivered | isotp/stack.go:258-292 | With automatic flow control, no N_Bs/N_Cr expiry, room and fitting sizes: no error, deliveries are a prefix of what was started, some step is always possible until both ends rest, and at rest both ends are Idle and exactly everything started was delivered |
| ExactNetwork.StretchIsBounded | isotp/tx_handler.go:115-164 | A stretch without new payloads takes no more steps than the work outstanding at its start, so the transfers terminate |
| ExactNetwork.StepStays | isotp/rx_handler.go:85-115 | Every benign step keeps the exact invariant: the sender waits for flow control exactly while one trigger frame or one flow control is under way |
| ExactNetwork.StepWorks | isotp/tx_handler.go:115-164 | Every benign step other than starting a payload strictly lowers the work outstanding |
| ExactNetwork.Progress | isotp/stack.go:260-290 | While anything is under way some benign step is enabled |
| ExactDelivery.TransmitExact | isotp/tx_handler.go:154-163 | The sender leaves Transmit for WaitFC at exactly the frames after which the receiver emits a flow control |
| ExactDelivery.AcceptExact | isotp/tx_handler.go:74-90 | A flow control only ever arrives while the sender waits for it |
| FrameCounts.FramesUsed | isotp/tx_handler.go:41-71 | A run at rest has used ceil((n - first chunk)/(frame length - 1)) consecutive frames and 1 + (numCF - 1)/BS flow controls (one when BS is 0) for every multi-frame payload, none for a Single Frame |
| FrameCounts.CompleteIsLast | isotp/tx_handler.go:121-129 | The frame that completes a payload carries the number given by the closed form |
| LossyTransfer.AllOrNothing | isotp/rx_handler.go:34-103 | Over a link that drops and immediately repeats frames at will, with arbitrary flow control: a payload sent as several frames is delivered exactly once as sent or not at all, although the last frame carries fill; one sent as a Single Frame is delivered as often as that frame is heard with room, and nothing else |
| LossyTransfer.AtMostOnceIff | isotp/rx_handler.go:34-44 | No run delivers a payload twice if and only if it is sent as several frames (or is the empty payload whose frame does not parse) |
| LossyTransfer.AcceptExpected | isotp/rx_handler.go:85-103 | The expected frame extends the prefix or completes the payload |
| LossyTransfer.AcceptLate | isotp/rx_handler.go:79-93 | A frame accepted after a gap of a multiple of 16 leaves the payload incomplete for good |
| LossyMixing.LossMixesPayloads | isotp/rx_handler.go:73-116 | For any two payloads of equal length that take two frames each: losing the consecutive frame of the first and the First Frame of the second, with one flow control repeated, delivers the beginning of the first with the end of the second |
| Reassembly.DeliversExactly | isotp/rx_handler.go:34-116 | For arbitrary frame streams, both directions: an event delivers a payload exactly when there is room and it is a Single Frame with that payload or the Consecutive Frame completing the latest First Frame with frames numbered 1..15,0,1,...; the payload is the first TotalSize <= MaxPayloadSize bytes |
| Reassembly.AlwaysFollows | isotp/rx_handler.go:46-116 | The receive state mirrors the history at every point: waiting exactly while the latest First Frame is open, buffer equal to the collected data |
| ReceiverProgress.AfterEmpties | isotp/rx_handler.go:73-116 | Any number of correctly numbered empty Consecutive Frames leaves the receiver waiting with the same bytes |
| ReceiverProgress.DataProgresses | isotp/rx_handler.go:85-103 | Accepted data strictly lowers the number of missing bytes, and nothing but a First Frame raises it |
| ReceiverProgress.DataFramesBounded | isotp/rx_handler.go:85-103 | One reassembly accepts at most as many non-empty Consecutive Frames as bytes were missing |
| SessionInvariant.NeverStuck | isotp/stack.go:279-290 | In every reachable state each timer is armed exactly in its state, so a busy half always has an expiry pending and the stale-expiry and empty-buffer guards never fire |
| SessionInvariant.StepKeepsInv | isotp/stack.go:301-319 | Every enabled step keeps timer/state coupling, buffer and block-counter bounds and reset-on-Idle, and never raises the errors of the unreachable branches |
| SessionInvariant.UnsentStepKeepsInv | isotp/stack.go:369-376 | A step whose frame cannot be handed over, which happens only while the session is being closed, resets the half that sends it, sends nothing else, and delivers and reports the same |
| SessionInvariant.InitiateTxKeeps | isotp/tx_handler.go:12-72 | Starting a payload never fails to encode and emits exactly one frame |
| SessionInvariant.STminTimeoutKeeps | isotp/tx_handler.go:115-164 | An STmin expiry never fails to encode and emits exactly one frame |
| SessionInvariant.FlowControlKeeps | isotp/tx_handler.go:74-111 | Flow control keeps the sender invariant and sends nothing |
| SessionInvariant.FirstFrameKeeps | isotp/rx_handler.go:46-71 | A First Frame leaves the receiver Idle or waiting for missing bytes within the size limit |
| SessionInvariant.ConsecutiveFrameKeeps | isotp/rx_handler.go:73-116 | A Consecutive Frame keeps the buffer below the frame length and the block counter below the block size |
| SessionInvariant.SingleFrameCapacity | isotp/tx_handler.go:17-24 | A payload is sent as a Single Frame up to exactly 7 bytes on classic CAN and 62 on CAN FD |
| Accounting.NothingLostSilently | isotp/stack.go:258-292 | In every run, whatever the peer, the timers and the application do: payloads started = sent completely + reported as failed + the one under way; payloads whose first frame was heard = delivered + reported as failed + the one being collected |
| Accounting.StepIsAccounted | isotp/stack.go:260-290 | The same for one step, and every error of a step has its own cause in that step: which timer, which frame, a full queue, a size, a number |
| Accounting.BeginsAfresh | isotp/rx_handler.go:34-71 | A frame that begins a payload has the same effect on a receiver that is collecting another one as on an idle one, but for exactly one error naming the interruption |
| FlowControl.OverflowEnds | isotp/tx_handler.go:101-105 | From the encoded frame on: in WaitFC an overflow flow control ends the transfer, with all transmit state and timers reset, exactly one error, the receive half untouched and nothing sent |
| FlowControl.ContinueGoesOn | isotp/tx_handler.go:81-90 | ContinueToSend starts a block at the block size and STmin of the frame, with the bytes left unchanged and no error |
| FlowControl.UnexpectedIgnored | isotp/tx_handler.go:75-79 | A flow control nobody waits for has no effect at all |
| FlowControl.WaitLimit | isotp/tx_handler.go:92-99 | A waiting sender survives exactly MaxWaitFrames WAITs in a row, silently; the next one ends the transfer with exactly one error |
| FlowControl.IdleQueuesNoData | isotp/stack.go:258-292 | On a connection an idle end queues no data frame, whatever the peer, the timers and the application do, until it starts a payload |
| FlowControl.OverflowStopsPayload | isotp/tx_handler.go:101-105 | After the peer has reported overflow no further frame of that payload is ever queued, and the error is reported once |
| SenderTermination.AcceptedStepDecreases | isotp/tx_handler.go:74-164 | With a WAIT limit every accepted flow control or expiry goes to Idle or lowers (bytes left, WaitFC above Transmit, WAITs left) |
| SenderTermination.TransferIsBounded | isotp/tx_handler.go:74-164 | No peer keeps a transfer alive for more accepted events than a number fixed by its first state |
| SenderTermination.UnlimitedWaitsNeverEnd | isotp/tx_handler.go:92-99 | A waiting transfer survives any number of WAIT frames if and only if the limit is disabled |
| SessionObject.New | isotp/stack.go:59-93 | A session is made exactly for an accepted configuration and a valid address, idle, with the normalised configuration |
| SessionConfig.NormalizeExact | isotp/config.go:51-80 | Exactly the accepted configurations come through, each unchanged but for the two limits, where zero stands for 16 MiB and for 8 |
| SessionConfig.ElevenBits | isotp/address.go:26-42 | An address is valid exactly when both identifiers have 11 bits |
| SessionConfig.EveryUsable | isotp/config.go:70-82 | Every usable configuration can be asked for, so the results about all such configurations are about sessions that exist |
| SessionObject.Session.Select | isotp/stack.go:266-290 | One iteration of the loop that goes on does exactly the specified step, whether its frame can be handed over or not: whole new state, frames, deliveries, errors, queues |
| SessionObject.Session.End | isotp/stack.go:265-299 | The arms that end the loop stop all three timers and leave the rest |
| SessionObject.Session.ProcessRx | isotp/rx_handler.go:9-32 | Filter, parse, dispatch |
| SessionObject.Session.InitiateTx | isotp/tx_handler.go:12-72 | In-place start of a payload, proved equal to the specified one, with the abort of an unsent frame; the encoding error branches are shown dead |
| SessionObject.Session.HandleTxFlowControl | isotp/tx_handler.go:74-111 | In-place flow-control handling, equal to the specified one |
| SessionObject.Session.HandleTxTransmit | isotp/tx_handler.go:115-164 | In-place consecutive-frame sending, equal to the specified one, with the abort of an unsent frame |
| SessionObject.Session.HandleRxSingleFrame | isotp/rx_handler.go:34-44 | In-place Single Frame reception, equal to the specified one |
| SessionObject.Session.HandleRxFirstFrame | isotp/rx_handler.go:46-71 | In-place First Frame reception, equal to the specified one, with the reset when the flow control is not sent |
| SessionObject.Session.HandleRxConsecutiveFrame | isotp/rx_handler.go:73-116 | In-place Consecutive Frame reception, equal to the specified one, with the reset when the flow control is not sent |
| SessionObject.Session.StopReceiving | isotp/stack.go:301-308 | Resets the receive half |
| SessionObject.Session.StopSending | isotp/stack.go:310-319 | Resets the transmit half, keeping the remote parameters |
| SessionObject.Session.SendFlowControl | isotp/rx_handler.go:127-152 | One flow control with the given status and the own parameters on the base address, none in manual mode, and whether it was handed over |
| SessionObject.Session.SetTxAddress | isotp/stack.go:196-208 | Switches the transmit address exactly to a pair of two valid identifiers, or back to the base address; anything else is refused without effect |
| SessionObject.Session.SendContext | isotp/stack.go:221-246 | Too long, closed, queued, cancelled or waiting: which of them a call meets, and that only a queued payload changes the queue |
| SessionObject.DeliversAtMostOne | isotp/rx_handler.go:34-116 | A step delivers at most one payload and only with room |
| Pdu.SingleFrameRoundTrip | isotp/framing.go:91-111 | Encode, append any fill, parse gives the payload back if and only if it is not the empty classic payload followed by a non-zero byte |
| Pdu.FirstFrameRoundTrip | isotp/framing.go:114-137 | A First Frame parses back exactly if and only if its length fits 32 bits; a longer one is rejected or read with the truncated length |
| Pdu.ConsecutiveFrameRoundTrip | isotp/framing.go:140-149 | A Consecutive Frame parses back with its data followed by the fill |
| Pdu.FlowControlRoundTrip | isotp/framing.go:72-88 | A flow control parses back exactly whatever follows it |
| Pdu.FirstFrameCanonical | isotp/pdu.go:70-89 | Whatever parses as a First Frame is what the encoder writes for it, across the 4095/4096 switch |
| Pdu.ConsecutiveFrameCanonical | isotp/pdu.go:90-91 | Whatever parses as a Consecutive Frame re-encodes to the same bytes |
| Pdu.PublicFirstFrame | isotp/framing.go:25-36 | The public First Frame encoder refuses exactly a length that is not positive, needs more than 32 bits, is covered by the chunk or makes the frame too long; the rest parses back exactly |
| Pdu.PublicEncoders | isotp/framing.go:18-62 | Whatever the other public encoders accept parses back as what was asked for |
| Pdu.FlowControlDecoding | isotp/pdu.go:30-39 | Parsed flow status is legal, legal STmin bytes decode injectively, and no STmin exceeds 127 ms |
| Pdu.SingleFrameGrammar | isotp/pdu.go:48-69 | Exactly which byte strings parse as which Single Frame, both directions |
| Pdu.FirstFrameGrammar | isotp/pdu.go:70-89 | Exactly which byte strings parse as which First Frame: 12 bits, or 32 bits most significant byte first when 12 are too few, and never one that covers the whole payload |
| Pdu.ConsecutiveFrameGrammar | isotp/pdu.go:90-91 | Exactly which byte strings parse as which Consecutive Frame |
| Pdu.FlowControlGrammar | isotp/pdu.go:92-104 | Exactly which byte strings parse as which flow control |
| Pdu.STminSteps | isotp/pdu.go:30-39 | STmin counts whole milliseconds up to 127 and steps of 100 microseconds from 0xF1 to 0xF9; every reserved byte means the longest time any byte can mean |
| Pdu.FlowControlClamps | isotp/framing.go:72-80 | A configured STmin outside a byte of milliseconds asks for the longest time |
| Pdu.BigEndianRoundTrip | isotp/pdu.go:80 | The 32-bit length read back is the length modulo 2^32 |
| Link.CrossesLink | isotp/stack.go:331-367 | Bytes of any allowed length cross padding, DLC rounding and the receive filter and arrive followed by a known fill; full frames arrive unchanged |
| Link.MakeTxMsg | isotp/stack.go:331-367 | The in-place padding loop produces the payload followed by padding up to the target length |
| Link.PaddingMeetsDLC | isotp/stack.go:386-406 | The padding targets are expressible lengths and agree with the DLC table |
| Link.FilterRejects | isotp/stack.go:162-173 | The filter accepts exactly received 11-bit frames with a DLC valid for their format |
| Link.PaddedLength | isotp/stack.go:331-367 | Padding keeps the data, fills with the padding byte, and reaches 8 bytes on classic CAN and the least sufficient CAN FD length from 8 on; without a padding byte nothing is appended |
| Can.DLCRoundsUpTight | can/can.go:200-236 | DLC rounding picks the smallest expressible length that holds the payload |
| Can.DLCTable | can/can.go:226-243 | A DLC up to 8 is its own length, those up to 15 are the seven longer lengths in order, and any other means no data |
| Can.NewFrameContract | can/can.go:157-188 | A frame is refused for exactly the bad ID, flag or length combinations; an accepted one holds the payload and zeros up to its DLC length |
| HostWindowRuns.WindowErrorIsOneBucket | driver/internal/backend/busload.go:9-15 | After any sequence of additions and looks at non-decreasing times the bucket sum of frames and of nanoseconds lies between the exact total over [now - window + slot, now] and over [now - window, now] |
| HostWindow.RotateTracks | driver/internal/backend/busload.go:355-384 | Rotation keeps every bucket equal to the unmoved records placed in it, whatever it drops |
| HostWindow.AddTracks | driver/internal/backend/busload.go:222-237 | An addition changes exactly the bucket of its own record |
| HostWindow.RemoveTracks | driver/internal/backend/busload.go:247-261 | Removing a record placed strictly before its right edge takes out exactly that record, however many rotations lie between, and nothing if it has aged out |
| HostWindow.RemovalIndex | driver/internal/backend/busload.go:252-255 | The removal looks in the bucket that holds the record if and only if the record lies before its right edge or the window has not moved since |
| HostWindow.RemovableIffInside | driver/internal/backend/busload.go:222-261 | A frame can be removed exactly at every later time if and only if the clock was not one whole window past the origin when it was added |
| HostWindow.SumIsExact | driver/internal/backend/busload.go:177-182 | The bucket sum is exactly the records neither moved nor dropped |
| HostWindow.SumWithinOneBucket | driver/internal/backend/busload.go:222-237 | That sum is within one bucket of the exact window, also with relocations |
| HostWindow.BackwardsAdd | driver/internal/backend/busload.go:222-237 | When host time has gone back, a frame less than one bucket before the origin is counted in the first bucket, because the division truncates; an older one is not counted |
| SnapshotWindow.SnapshotWithinOneBucket | driver/internal/backend/busload.go:161-180 | After every ordered run without a transmission on the right edge, what a snapshot counts lies within one millisecond bucket of the unmoved frames of the last second, in host time, and of the recorded frames of the last second, in device time |
| SnapshotWindow.OneHostFrameUntil | driver/internal/backend/busload.go:222-237 | A frame without device time, heard by a new meter, is counted by a snapshot for exactly one second |
| MeterConservation.EveryFrameCountedOnce | driver/internal/backend/busload.go:85-155 | Over any run in time order without a transmission recorded on the right edge: the buckets of each window sum to exactly the frames recorded for it that are neither relocated nor aged out, no record is moved twice, and the frames handed in are exactly those counted plus those aged out, refused or forgotten by the hardware window, taken for echoes, or of no duration |
| MeterConservation.StepKeeps | driver/internal/backend/busload.go:120-161 | Every operation keeps the invariant: pending entries are backed by distinct records, moved only when confirmed |
| MeterConservation.RelocateKeeps | driver/internal/backend/busload.go:239-245 | A relocation moves the record of its pending entry and no other |
| MeterConservation.AddHardwareKeeps | driver/internal/backend/busload.go:263-289 | A hardware insertion, with all its rotations and a possible clock restart, records its frame or counts it as refused, counts what it forgets, and keeps the buckets true to the record |
| HardwareWindow.RotateHwTracks | driver/internal/backend/busload.go:328-353 | A hardware rotation keeps every bucket equal to the frames recorded in it, and drops no record while its bucket is inside |
| HardwareWindow.PutHardwareTracks | driver/internal/backend/busload.go:269-289 | A frame with any device time, in order or not, goes into the bucket that covers it or is refused; every bucket still holds exactly its records |
| HardwareWindow.AcceptedIsRecorded | driver/internal/backend/busload.go:263-289 | An accepted frame is recorded at its device time, in a bucket that encloses it; the earlier records stay unless the clock restarted or no bucket held one any more; a refused frame changes no record |
| HardwareWindow.HardwareWithinOneBucket | driver/internal/backend/busload.go:328-353 | The one-bucket edge error in device time: the sum lies between the recorded frames of the last window less one bucket and those of the last window, counted back from the latest device time seen |
| HardwareWindowRuns.RunHw | driver/internal/backend/busload.go:56-215 | In every run of the meter, in any order of time, the hardware buckets hold exactly the frames recorded in them |
| HardwareWindowRuns.DeviceTimeErrorIsOneBucket | driver/internal/backend/busload.go:11 | So the documented edge error holds for the hardware window after every run, in device time |
| HardwareWindow.OlderFrameRefused | driver/internal/backend/busload.go:269-279 | A frame is refused exactly when it is older than the origin while some bucket holds a frame |
| HardwareSilence.SnapshotCarriesOn | driver/internal/backend/busload.go:169-171 | A snapshot rotates the hardware window to the latest device time plus the host time passed since, to the microsecond, never back, and changes neither clock nor record |
| HardwareSilence.InsertionCarriesOn | driver/internal/backend/busload.go:263-271 | So does an insertion, before it places its frame |
| HardwareSilence.SilenceEmpties | driver/internal/backend/busload.go:321-353 | After every run, a snapshot at least one window and one microsecond after the last frame that moved the device clock finds the hardware window empty |
| HardwareSilence.OneFrameUntil | driver/internal/backend/busload.go:321-353 | A device-timed frame heard by a new meter is counted by a snapshot if and only if less than one second and one microsecond of host time has passed |
| MeterProperties.RelocationMovesOne | driver/internal/backend/busload.go:239-245 | A relocation takes exactly the pending frame out of the host window (nothing if aged out) and puts exactly one frame with the observed occupancy into the hardware window, or none if that is refused |
| MeterProperties.LookalikeCountsOnce | driver/internal/backend/busload.go:148-160 | A received frame without device time adds one frame exactly when no transmission with its key was recorded within 100 ms; otherwise nothing is counted and that transmission stops waiting |
| MeterProperties.EchoMovesOne | driver/internal/backend/busload.go:132-137 | A device-timed echo that confirms a transmission, after the rotations: the counted total changes by exactly the transmission if it is still in a host bucket and by exactly the echo if the hardware window accepts it, so the number of frames is unchanged if and only if both or neither |
| MeterProperties.StrayEchoWaits | driver/internal/backend/busload.go:138-147 | An echo that matches no transmission changes neither window: with a device time it waits, otherwise it is dropped |
| EarlyEchoes.RecordedWithoutEcho | driver/internal/backend/busload.go:85-105 | Without a waiting echo in time under its key, a recorded transmission stays unconfirmed in the host window with its own bus time; the hardware window is untouched, and every echo in time goes on waiting |
| EarlyEchoes.RecordedWithEcho | driver/internal/backend/busload.go:94-105 | Otherwise exactly the first such echo stops waiting and the newest transmission is confirmed; the older ones go on waiting, less the oldest when 256 wait |
| EarlyEchoes.EchoMovesRecorded | driver/internal/backend/busload.go:99-105 | And the transmission is at once out of the host window and in the hardware window, at the device time and with the bus time of the echo, unless that refuses it |
| EarlyEchoes.FindEarlyFirst | driver/internal/backend/busload.go:94-98 | The search for an early echo returns the first match, and the end of the list only when there is none |
| EarlyEchoes.ExpireEarlyExact | driver/internal/backend/busload.go:419-427 | Expiry keeps exactly the echoes no older than 100 ms, each as often as it was there |
| EarlyEchoes.ExpireEarlyAppend | driver/internal/backend/busload.go:419-427 | And keeps their order |
| EarlyEchoes.EchoesAreTimed | driver/internal/backend/busload.go:141-148 | In every run only echoes with a device time wait |
| ObservedFrames.LookalikeConsumes | driver/internal/backend/busload.go:151-158 | A received frame taken for an echo removes exactly the first transmission with its key recorded within 100 ms; nothing is counted when that was confirmed or the frame has no device time |
| ObservedFrames.LookalikeMovesOne | driver/internal/backend/busload.go:151-158 | If it was not confirmed and the frame has a device time, the transmission is moved there and charged what the frame is |
| ObservedFrames.EchoConfirms | driver/internal/backend/busload.go:135-140 | An echo confirms exactly the first unconfirmed transmission with its key |
| ObservedFrames.StrayEchoQueues | driver/internal/backend/busload.go:141-148 | An echo nobody awaits waits behind the others when it has a device time, and only when 256 wait already does the oldest make room |
| ObservedFrames.ReceivedIsCharged | driver/internal/backend/busload.go:120-160 | Observing a received frame that is nobody's echo counts it exactly once with its bus time, the measured one when a bit count is given: in the hardware window at its device time, or in the host window without one |
| ObservedFrames.EchoIsCharged | driver/internal/backend/busload.go:120-150 | Observing a device-timed echo moves the first transmission that awaits it and is no older than a second, and charges it the bus time of the echo |
| ObservedFrames.MeasuredThroughEOF | driver/internal/backend/busload.go:115-132 | A measured count ends three bits before the model's: a frame measured at its modelled length is charged exactly what the model charges |
| ObservedFrames.OnlyFreshWaits | driver/internal/backend/busload.go:409-427 | After every operation of a configured meter no transmission waits for more than a second and no echo for more than 100 ms |
| MeterProperties.HardwarePlacement | driver/internal/backend/busload.go:280-285 | A hardware frame goes into the bucket that covers its device time |
| MeterSnapshot.SnapshotReports | driver/internal/backend/busload.go:163-215 | After every run, in any order of time and on the right edge or not, a snapshot never divides by zero, averages over at most one window, and reports the occupied share capped at one |
| MeterSnapshot.RunSane | driver/internal/backend/busload.go:56-215 | In every run no bucket is negative, the device clock never falls below its first time, and both bit rates stay positive |
| MeterSnapshot.MeasuredIsModelInMeter | driver/internal/backend/busload.go:62-69 | In every run a measured bit count equal to the model's own is charged exactly what the model charges |
| Averaging.AveragesOverLongest | driver/internal/backend/busload.go:182-204 | A snapshot averages over the longer of the host's and the device's age, up to one window, and over a whole window when neither has an age |
| Averaging.MeasuresSinceFirstLook | driver/internal/backend/busload.go:355-360 | A meter looked at first has been measuring since that moment, whatever follows |
| Averaging.FirstLookRestarts | driver/internal/backend/busload.go:355-360 | Device-timed frames alone start the measurement, but the first look starts it anew: only the device's age remembers them |
| MeterProperties.FindFirst | driver/internal/backend/busload.go:397-407 | The search returns the first match, and the end of the list only when there is none |
| MeterProperties.ExpireExact | driver/internal/backend/busload.go:409-417 | Expiry keeps exactly the transmissions no older than the echo limit |
| MeterProperties.ListsStayShort | driver/internal/backend/busload.go:138-145 | At most 256 transmissions and 256 early echoes wait, whatever happens |
| MeterExceptions.RightEdgeRemovalMisses | driver/internal/backend/busload.go:228-255 | A transmission recorded on the right edge is missed by its removal one nanosecond later |
| MeterExceptions.RightEdgeCountsTwice | driver/internal/backend/busload.go:228-255 | The run that shows it: one transmission handed in, two frames counted, for every frame and bit rate |
| MeterExceptions.LateEchoCountsAgain | driver/internal/backend/busload.go:132-137 | With every step inside the right edge: a transmission whose bucket has been dropped but which is still pending counts no more, and its timestamped echo brings the count back to one |
| MeterExceptions.RefusedEchoLosesFrame | driver/internal/backend/busload.go:239-279 | With every step in order and inside the right edge, for all frames and times within the echo limit: a transmission whose echo is older than another received frame is counted nowhere, however young |
| FrameKey.ComputeKey | driver/internal/backend/busload.go:429-444 | The hashing loop computes the specified key, wrapping at 64 bits |
| FrameKey.EchoHasKey | driver/internal/backend/busload.go:429-444 | A frame and its echo share their key, whatever direction, device time, rate switch and the bytes beyond the DLC |
| FrameKey.KeySeparates | driver/internal/backend/busload.go:429-444 | Frames with different 11-bit identifiers, DLCs or formats never share a key, and one data byte is told apart |
| FrameKey.OneByteSeparates | driver/internal/backend/busload.go:429-444 | Frames that differ in exactly one of the data bytes covered by the DLC never share a key |
| FrameKey.KeysCollide | driver/internal/backend/busload.go:429-444 | Two data bytes are not: a family of pairs of different frames with the same key |
| MeterObject.ShiftDown | driver/internal/backend/busload.go:379-382 | The in-place copy and clear is the shifted window |
| MeterObject.Total | driver/internal/backend/busload.go:176-182 | The summing loop computes the bucket sum |
| MeterObject.AnyFrames | driver/internal/backend/busload.go:273-277 | The search loop tells whether any bucket holds a frame |
| MeterObject.BusLoadMeter.Configure | driver/internal/backend/busload.go:56-83 | Defaults for zero bit rates and a complete reset |
| MeterObject.BusLoadMeter.Rotate | driver/internal/backend/busload.go:355-384 | In-place rotation, equal to the specified one |
| MeterObject.BusLoadMeter.AddDurationLocked | driver/internal/backend/busload.go:222-237 | In-place addition, equal to the specified one |
| MeterObject.BusLoadMeter.RemoveHostLocked | driver/internal/backend/busload.go:247-261 | In-place removal, equal to the specified one |
| MeterObject.BusLoadMeter.RotateHardware | driver/internal/backend/busload.go:328-353 | In-place hardware rotation, equal to the specified one |
| MeterObject.BusLoadMeter.Timestamp | driver/internal/backend/busload.go:291-319 | The clock update, with the reset of the hardware window on a device restart |
| MeterObject.BusLoadMeter.AddHardwareLocked | driver/internal/backend/busload.go:263-289 | In-place hardware insertion, equal to the specified one |
| MeterObject.BusLoadMeter.RelocatePending | driver/internal/backend/busload.go:239-245 | In-place relocation, equal to the specified one |
| MeterObject.BusLoadMeter.PushPending | driver/internal/backend/busload.go:386-395 | Expire, drop the oldest of 256, append |
| MeterObject.BusLoadMeter.FindPending | driver/internal/backend/busload.go:397-407 | The search loop finds the specified index |
| MeterObject.BusLoadMeter.ExpirePending | driver/internal/backend/busload.go:409-417 | The filter loop keeps what the specification keeps |
| MeterObject.BusLoadMeter.ExpireEarlyTx | driver/internal/backend/busload.go:419-427 | The filter loop for early echoes |
| MeterObject.BusLoadMeter.RecordTx | driver/internal/backend/busload.go:85-106 | Whole new state of a recorded transmission under the key of its frame, early echo included |
| MeterObject.BusLoadMeter.ObserveWithBitCount | driver/internal/backend/busload.go:120-161 | Whole new state of an observed frame under its key |
| MeterObject.BusLoadMeter.Snapshot | driver/internal/backend/busload.go:163-215 | Whole new state of a snapshot and what it reports |
| Clock.UnwrapExactIff | driver/internal/backend/busload.go:291-319 | For gaps below the period, the meter clock shows true elapsed time at every point of a run if and only if every roll-over gap is below half a period (rounded up); it then agrees with the log clock |
| Clock.LogClockExact | driver/internal/backend/timestamp.go:16-32 | The log clock shows true elapsed time for all gaps below the period |
| Clock.StampKeepsOrder | driver/internal/backend/busload.go:291-326 | For any reported times, the latest time never falls below the first one |
| Clock.HwStep | driver/internal/backend/busload.go:300-318 | One frame: short roll-overs and plain steps advance the clock by the true gap; a long roll-over leaves it standing or restarts it |
| Clock.PlacedWhereItBelongs | driver/internal/backend/busload.go:291-319 | A later frame is placed at its true distance after the clock; a frame older by up to a second and half a period keeps its true distance before it if it is of the same period, and otherwise lands exactly one period late |
| Clock.OlderOrRestarted | driver/internal/backend/busload.go:300-313 | Without roll-overs an older frame keeps its place for up to a second; beyond that the device counts as restarted |
| Clock.LogClockStands | driver/internal/backend/timestamp.go:22-31 | The log clock stands still for an older frame that no roll-over explains |
| Clock.RelativeLogClock.Observe | driver/internal/backend/timestamp.go:16-32 | The in-place update, equal to the specified one, and the two results |
| Clock.RelativeLogClock.Reset | driver/internal/backend/timestamp.go:9-11 | Back to the initial clock |
| BitCounter.CounterTracksStuffing | driver/internal/backend/busload.go:653-668 | The streaming counter always equals the length, last bit and last run of the explicitly stuffed list |
| BitCounter.CanBitCounter.Count | driver/internal/backend/busload.go:653-668 | One bit counted in place is one bit appended to the list |
| BitCounter.CanBitCounter.AddCRC | driver/internal/backend/busload.go:635-645 | The loop counts the value's bits, most significant first, and runs them through the CRC register |
| BitCounter.CanBitCounter.Add | driver/internal/backend/busload.go:647-651 | The loop counts the low bits of a 32-bit word, most significant first, without the CRC register |
| BitCounter.WordBitsAreRegister | driver/internal/backend/busload.go:518 | The 15 bits counted for the CRC sequence are the register, most significant bit first |
| BitOrder.BitsRead | driver/internal/backend/busload.go:596-600 | The bits counted for a value, read back first bit first, are the value modulo 2^n |
| BitOrder.WordBitsNext | driver/internal/backend/busload.go:647-651 | The bits counted for a word end with its least significant bit, and before it come those of the word shifted right |
| BitOrder.ClassicHeaderReads | driver/internal/backend/busload.go:507-513 | The 19 header bits of a classic frame read as identifier * 128 + DLC |
| BitOrder.FDNominalReads | driver/internal/backend/busload.go:549-560 | The 17 bits of an FD frame up to the rate switch read as identifier * 32 + 4 + BRS |
| BitOrder.PayloadReads | driver/internal/backend/busload.go:514-516 | The data field is the bytes in order |
| BitOrder.ClassicFrameReads | driver/internal/backend/busload.go:500-518 | A receiver that drops the stuff bits of a counted classic frame finds its identifier, its DLC, its data bytes in order and a CRC sequence that empties the register |
| BitOrder.FDFrameReads | driver/internal/backend/busload.go:544-567 | The same for the dynamically stuffed part of an FD frame: identifier, rate switch, DLC and data bytes in order |
| BitCounter.CanFDStuffCounter.Count | driver/internal/backend/busload.go:602-625 | The same run for both phases; only the current phase grows |
| BitCounter.CanFDStuffCounter.Add | driver/internal/backend/busload.go:596-600 | The loop counts the value's bits in the given phase |
| BitCounter.ClassicCANFrameBits | driver/internal/backend/busload.go:502-526 | Equals the stuffed length of header, data and CRC sequence plus the unstuffed trailer |
| BitCounter.CanFDFrameBits | driver/internal/backend/busload.go:544-583 | Nominal and data counts equal the split of the stuffed list at the rate switch, the run continuing over it |
| BitCounter.ClassicBounds | driver/internal/backend/busload.go:500-526 | 47 + 8p <= bits <= 55 + 10p for p data bytes |
| BitCounter.FDBounds | driver/internal/backend/busload.go:528-583 | Both phases together lie between the unstuffed length, with the CRC field of the standard and twelve bits of trailer, and a quarter more; the nominal phase of a rate-switching frame has 29 to 33 bits, and the data phase is empty without a switch |
| BitCounter.CRCFieldIsStandard | driver/internal/backend/busload.go:528-532 | The fixed length of the FD CRC field is that of ISO 11898-1: a CRC of 17 bits up to 16 data bytes and 21 beyond, a stuff count of 4, a fixed stuff bit before and after each four bits, a delimiter |
| BitStuffing.NeverSixEqual | driver/internal/backend/busload.go:653-668 | A stuffed list never has six equal bits in a row |
| BitStuffing.UnstuffStuffed | driver/internal/backend/busload.go:653-668 | Unstuffing a stuffed list gives the original bits |
| BitStuffing.StuffingBound | driver/internal/backend/busload.go:653-668 | 4 * inserted + run <= n, so at most (n - 1)/4 bits are inserted |
| Crc15.CrcIsRemainder | driver/internal/backend/busload.go:635-645 | The register holds the remainder of the message times x^15 divided by the generator polynomial |
| Crc15.GeneratorIsCAN | driver/internal/backend/busload.go:641-643 | The generator is x^15 + x^14 + x^10 + x^8 + x^7 + x^4 + x^3 + 1 |
| Crc15.ReceiverSeesZero | driver/internal/backend/busload.go:635-645 | A message followed by its own CRC sequence empties the register |
| Occupancy.MeasuredEqualsModel | driver/internal/backend/busload.go:446-484 | With the model's own total the measured occupancy is exactly the model's if and only if not (a rate-switching frame meets a zero data bit rate while the nominal one is set) |
| Occupancy.SplitIsProportional | driver/internal/backend/busload.go:470-482 | The split sums to the measured total and is within half a bit of proportional before clamping; the upper clamp never acts |
| Occupancy.MeasuredBetweenRates | driver/internal/backend/busload.go:462-484 | For a data rate at least as fast, the result lies between the all-data time less 1 ns and the all-nominal time |
| Occupancy.OccupancyIsPositive | driver/internal/backend/busload.go:446-456 | Every frame occupies time at any 32-bit rate, so no recorded frame is skipped |
| Occupancy.RateIsPerSecond | driver/internal/backend/busload.go:493-498 | k times as many bits as the bit rate says take exactly k seconds |
| Occupancy.PhasesAtTheirRates | driver/internal/backend/busload.go:446-456 | A frame without a rate switch takes its bits at the nominal rate; one with a switch takes its data phase at the data rate and between 29 and 33 bits at the nominal one |
| Occupancy.FrameCountBounds | driver/internal/backend/busload.go:486-491 | At least 47 bits in all, data bits exactly for a rate switch |
| PcanTiming.FindPCANBitTiming | driver/internal/backend/pcan.go:698-729 | Success gives exactly the bit rate within all limits with the least sample-point error over every feasible triple, ties to the smallest prescaler and then the smallest second segment; an error means no feasible triple exists |
| PcanTiming.Search | driver/internal/backend/pcan.go:703-724 | The nested loops keep the best of the candidates visited so far |
| PcanTiming.FeasibleIsCandidate | driver/internal/backend/pcan.go:702-713 | The triples the loops visit are exactly the feasible ones |
| PcanTiming.SampleErrorBound | driver/internal/backend/pcan.go:703 | No error reaches the initial 101, so the first candidate is always taken |
| PcanTiming.SampleErrorExact | driver/internal/backend/pcan.go:714-720 | The error is the distance from 80 of the whole percent of the bit time at which the first segment ends |
| Uds.RequestBound | uds/uds_client.go:364-432 | For every environment: at most MaxRetries + 1 sends, a retry only after NRC 0x21, total wait at most (MaxRetries+1)*(Timeout + MaxResponsePending*ResponsePendingTimeout) + MaxRetries*RetryDelay, and an error-free response is the answer to this service or suppressed |
| Uds.RequestEnds | uds/uds_client.go:400-425 | The caller gets the last attempt's own response and error, or the error that cut a pause |
| Uds.AttemptsMade | uds/uds_client.go:393-425 | The attempts are the first ones the environment offers, in order |
| UdsRetries.RetryLimit | uds/uds_client.go:393-425 | An ECU that is busy n times and then gives its final reply, whichever: the caller gets that reply if and only if n <= MaxRetries, else the busy refusal after exactly MaxRetries + 1 sends; every pause is waited in full |
| UdsRetries.CutPauseEnds | uds/uds_client.go:394-398 | A pause that is cut ends the request with that error, no response and no further send |
| UdsRetries.OneReply | uds/uds_client.go:473-501 | A refusal of this service ends the attempt with its code, the positive response ends it without an error, and silence is a time-out, or success when a positive response was suppressed |
| UdsRetries.EndedFromOutside | uds/uds_client.go:438-472 | A failed send, a done context, a closed client and a closed transport end the attempt at once, each with its own error |
| UdsRetries.PendingRestarts | uds/uds_client.go:481-489 | A chain of pending replies within the limit leaves the attempt as if it had just begun to wait, with the pending time-out from the last of them on |
| UdsRetries.SilentAfterPending | uds/uds_client.go:464-468 | An ECU that falls silent after such a chain is given up exactly one pending time-out later |
| UdsRetries.SilenceIsSuccessIff | uds/uds_client.go:146-154 | For a whole request silence is success exactly for the eleven services with a sub-function, two bytes or more, and the top bit of the second set |
| Uds.RequestLoop | uds/uds_client.go:388-432 | The retry loop equals the recursive specification; the code after it is unreachable |
| Uds.RequestWithContext | uds/uds_client.go:364-386 | Empty payload, bad options and bad addressing are refused before anything is sent |
| Uds.RefusedExact | uds/uds_client.go:364-386 | A request is made exactly for a payload, options in range and a usable address; the error names the first that fails |
| Uds.AwaitSound | uds/uds_client.go:457-503 | An outcome means what it says, a pending reply never surfaces as a refusal, and each extension costs at most one pending timeout |
| Uds.PendingLimit | uds/uds_client.go:481-489 | A final answer after a chain of timely pending replies gets through exactly when the chain is no longer than the limit; otherwise the first reply beyond it is returned with the error |
| Uds.ForeignIgnored | uds/uds_client.go:473-500 | A message for another service never changes the outcome, wherever it arrives |
| Uds.AnswersTaken | uds/uds_client.go:473-501 | Every answer is taken, except that an answer to service 0x3F of three bytes or more is never recognised |
| Uds.SingleRequestLoop | uds/uds_client.go:435-504 | The waiting loop equals the recursive specification |
| Uds.NormalizeExact | uds/uds_client.go:166-190 | Options are refused for exactly the negative values and a non-positive timeout; the rest come through unchanged, but for zeros that stand for five seconds and 16 pending replies |
| Fanout.FanoutSafe | driver/internal/backend/fanout.go:41-95 | In every interleaving of subscribe, unsubscribe, dispatch, close and receive: nothing is closed twice or sent to after close; between dispatches each subscriber's accepted frames are, in order, those dispatched while subscribed less exactly the drops; a finished close has closed everything |
| Fanout.StepKeeps | driver/internal/backend/fanout.go:41-95 | Every lock-level step keeps the invariant |
| Fanout.CloseAllFinishes | driver/internal/backend/fanout.go:92-94 | A started close can always close another channel until none is left |
| FanoutRoom.OfferDropsIffFull | driver/internal/backend/fanout.go:73-78 | A send drops its frame exactly when the subscriber is not receiving and its buffer is full; otherwise the frame is accepted, last |
| FanoutRoom.RoomLosesNothing | driver/internal/backend/fanout.go:41-79 | In every interleaving a subscriber has lost exactly the frames whose send found it so; one that always had room, or asked for room for all that was dispatched, has between dispatches been handed everything |
| FanoutObject.RxFanout.Subscribe | driver/internal/backend/fanout.go:41-53 | A new channel, already closed when the fan-out is closed |
| FanoutObject.RxFanout.Unsubscribe | driver/internal/backend/fanout.go:56-65 | The channel is subscribed no more and closed, unless a concurrent close has taken it and will still close it |
| FanoutObject.RxFanout.Dispatch | driver/internal/backend/fanout.go:69-79 | Every subscriber is offered the frame exactly once and misses it exactly when it is not waiting and has no room; nobody else is touched, and the loop is a run of the machine |
| FanoutObject.RxFanout.TakeAll | driver/internal/backend/fanout.go:81-90 | The part under the lock: nothing stays subscribed, and exactly the first caller is left with the channels to close |
| FanoutObject.RxFanout.CloseTaken | driver/internal/backend/fanout.go:92-94 | One close after the lock is released, with other calls in between: an open channel is closed and one fewer remains |
| FanoutObject.RxFanout.CloseAll | driver/internal/backend/fanout.go:81-95 | Run without interference, every channel ends up closed except those another close still has to close, and the loop is a run of the machine |

## Left out

- Network.EndToEndSafety: needs FIFO links without loss, payloads below 2^32 bytes, no misread empty payload and no switch that turns a transfer back to the peer (see above); loss is treated in LossyTransfer and LossyMixing.
- Network.SafeSwitch: that an excluded switch harms is shown by runs (`AddressSwitch.UnsafeRun`, `SwitchMixing.OneFrameLeftMixes`); a peer that waits for nothing survives it.
- LossyTransfer.AllOrNothing: covers one transfer, because the property fails for two (`LossyMixing.LossMixesPayloads`), and payloads below 2^32 bytes.
- ExactNetwork.ExactlyDelivered: assumes automatic flow control and no expiry of the two long timers, since every such expiry aborts a transfer.
- SenderTermination.TransferIsBounded: bounds the sender only; the receiver's counterpart is `ReceiverProgress.DataFramesBounded`, for frames with data.
- HardwareWindowRuns.DeviceTimeErrorIsOneBucket: speaks of the frames accepted since the clock last restarted or the empty window was last opened, relative to the latest device time the window was rotated to; how far snapshots and insertions rotate it is in HardwareSilence.
- MeterObject.BusLoadMeter.Snapshot: computes the load as an exact rational number, not in floating point.
- SessionObject.Session.SendContext: describes one moment of a call; a call that waits looks again later, and a missing context is refused before.
- SessionObject.New: leaves out the goroutines and the subscription.
- SessionObject.Session.FireError: keeps every error, while the program drops errors beyond ten waiting ones.
- Uds.SingleRequestLoop: events and times come from an oracle, the deadline fires when nothing arrives by then, and blocking in a send takes no waiting time.
- Uds.RequestWithContext: the outcome of switching the transmit address is a parameter, and so are the lock, the nil context and the client's own closing.
- Fanout.FanoutSafe: allows one dispatch at a time, as the single dispatcher goroutine does; telemetry counts become the per-channel drop count.
- The fields of the session that belong to one half are components of two records, and timers are armed or not; durations play no part, only the remote STmin is kept.
- Full transmit channels of a running session, failing drivers (`bus.Send`), goroutine shutdown and `Close`.
- Wrap-around of 64-bit counters and timestamps.
- The hardware window's use of 0 as "no origin yet" for a device that reports time 0: the program never hands it one.
- Configuration defaults and validation of the CAN drivers.
- Vendor backends, their logging and telemetry, the auto driver, the driver lifecycle, and the NRC texts: no algorithm to prove.
- The rest of the PCAN backend and the PCAN FD bit-rate string around the timing search.
