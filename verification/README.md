# A verified model of the OmniXtend TileLink-over-Ethernet link

The program is an endpoint of a reliable link: TileLink messages travel in TLoE frames over
a network that may lose them.  This project models the link in Dafny and proves what it is
for: every message arrives exactly once and in order, credits are neither lost nor made,
queues do not overflow, and a memory read or written through the link behaves as a memory
on which the requests are executed one after another.

## How the project is laid out

| files | contents |
|---|---|
| `Options`, `SeqNum`, `Bits`, `TileLink`, `FlowSpec` | wrapping numbers, bytes and words, message sizes, credit arithmetic |
| `LinkSpec`, `HostSpec` | `TX`, `RX`, `slide_window`, `retransmit`, scheduler and memory server as step functions on values |
| `CircularQueue`, `FlowControl`, `Endpoint`, `Server`, `Connection` | the same operations in place, as classes and loops; every method is proved equal to its step function |
| `World`, `Invariant` | two endpoints and two lossy FIFOs, their steps and runs, and the invariant |
| `LinkFacts`, `TransmitProof`, `ReceiveProof`, `CreditProof`, `SystemProof` | every step keeps the invariant |
| `Theorems`, `MemoryProof`, `Scheduler`, `AckedSeq` | what follows for every state of every run |
| `TxRules`, `RxRules`, `ServerRules`, `OpeningRules`, `RunRules` | when each operation acts and what it does, in bytes and numbers, for every endpoint and in runs |
| `Codec`, `Framing`, `Layout` | frames and messages as bytes, and back, and where each field lies |
| `Handshake`, `HandshakeFacts` | the two opening loops as turns, and what a turn does |
| `Connect`, `ConnectInv`, `ConnectProof`, `ConnectTheorems` | a connection from its cold start, with and without loss, up to and into the steady state |
| `ConnectMoves`, `ConnectAgreement`, `ConnectExample` | how a run goes on, exactly when the two sides can still agree, and two runs that go wrong |
| `Picture`, `Turns`, `FirstRead`, `StaleRun`, `StaleAck` | why parked acks have to be fresh, and a run that lets one grow stale |

Start with `Theorems.dfy`, `MemoryProof.SequentialMemory` and `ConnectTheorems.dfy`;
the predicates they use are defined in `World.dfy` and `Invariant.dfy`.

## How the system is modelled

* A **run** is any sequence of steps in any interleaving: an endpoint's user queues a message,
  an endpoint transmits (`select_buffer` and `TX`), receives the oldest frame in flight (`RX`),
  serves (`tl_handler` and `add_channel_flow_credits`), or the network drops any frame in
  flight.  The main loop, which runs transmit, receive and serve in turn, is a special case
  (`Servers.Endpoint.Iterate`).
* **Time** is an argument `now` of the steps, so timeouts happen or not as the run likes.
* **Exit.**  `BUG_ON` and `exit` set a status; an endpoint with such a status takes no more
  steps.  Nothing else is specified about the state in which the process ends.
* **History.**  Beside the endpoint, a `Node` carries history: all frames ever sent, how many
  were accepted, the messages delivered.  No step reads it to decide what the endpoint does.
  Frames in flight carry the unbounded numbers their 22-bit fields stand for.
* **Opening** (`Connect`).  A side is in its opening loop or runs; once the loop has returned it
  transmits, receives, serves and is asked like any other, whether or not its peer has returned.
  The network may lose any frame from the first one on.  While a side is opening, its node stands
  for what the peer can tell of it: its opening frames count as sent and none as accepted.
* **Run hypothesis** (`World.FreshAck`).  An ack waiting in `ack_buffer` is less than 2^21
  behind `next_rx_seq` when `TX` takes it out.  The code does nothing to ensure it: such acks
  wait while the window is full.  `Theorems.AckIsSafeIff` proves that this bound is exactly
  what separates a harmless ack from one that drops an unaccepted frame.  Runs do break it:
  `StaleAck.AckOfEveryAge` constructs, for every k, a run that leaves an ack 3k + 1 numbers old
  in front, and `StaleAck.UnacceptedFrameDropped` takes one of them past 2^21 and through TX and
  RX to the dropped frame.  The freshness of all other acks is derived.
* **Messages** are on channels A to E, as long as their header says and at most 40 bytes in
  all, and reads ask for at most 32 bytes (`TileLink.Admissible`).  `Framing.FramingExact`
  proves that 40 is exactly where framing begins to damage messages.
* **Absent sizes.**  A message without data, or with an opcode the size tables do not list,
  gets its size as `1ULL << -1`, which C leaves undefined.  It is read as 0 bytes.  The
  channel D opcodes 3 and 7 would then have no flits and are excluded.
* The steady state starts with empty queues, each side expecting the number the other sends
  next, and 1024 credits on channels A to E.  `ConnectTheorems` proves the same results for a
  connection from its cold start.

### Where code and comments differ

* An out-of-sequence frame is said to be answered with a NAK.  The parked NAK's number is used,
  but `TX` copies only `seq_num_ack` from it and sends `TLOE_ACK`, so two such endpoints never
  send a NAK (`Theorems.NoNakInFlight`).  The model follows the code; the NAK branch of `serve_ack` is modelled for any peer.
* The comment beside `MEM_SIZE` says 8 GB; the constant is 4 GB, as in the model.
* The test for data in `tlmsg_get_data_size` takes the opcodes of channels A, B and C together, so
  hints, permission requests and some answers without data are sized as if they had it
  (`TileLink.SizedAsNamedIff` says which).
* `acked_seq` is meant to be the newest ack.  Acks of frames that are parked are not recorded, so
  nothing keeps the next one recorded near the last, and one more than 2^21 ahead is forgotten
  (`AckedSeq.ForgottenExample`).  `AckedSeq.AckedIsNewestIff` says exactly when it is the newest
  recorded in every state of a run.  Only the status output reads it.
* The comparison of sequence numbers is meant as a circular order.  At distance exactly 2^21 it
  is not stable under adding 1 to both numbers (`SeqNum.CmpNextCommutes`, `SeqNum.CmpNextExample`).
* The slave accepts opening frames in any order, and no opening frame is in the retransmit ring.
  If one is lost the slave may take announcements twice and is left with 2048 credits on the
  channels above the one it returned on (`ConnectTheorems.CreditsRightIff`,
  `ConnectExample.LostAnnouncementDoublesCredits`).
* Whether the numbers of the two sides still come to agree depends on what is on its way
  (`ConnectAgreement.AgreeableIff`).  While both are opening they can.  Once both run, the slave
  must have the master's last opening frame, number 5, or the frames from the one it expects up to
  number 5 must be on their way in that order: it is not enough that frame 5 arrives.  Once only
  the slave runs, its announcements from the one the master expects up to the last must be on
  their way in that order.  Once only the master runs, every channel the slave lacks must be
  announced by a frame on its way, and the rest must follow as before.  A slave that has exited
  accepts nothing more.  If an opening slave that lacks a channel takes a frame the master sent
  after its announcements, it never leaves its loop (`ConnectProof.StuckStaysStuck`,
  `ConnectExample.LostAnnouncementLeavesSlave`).

## Model

| member | source | states |
|---|---|---|
| `MemoryProof.SequentialMemory` | tloe_endpoint.c:115-146 | in every run with losses, timeouts and any interleaving where only the master asks, the responses it has accepted are a prefix of the answers a zeroed memory gives to its requests one by one in the order asked; no request is refused and no response dropped |
| `MemoryProof.AnswerReadsLastWrites` | tilelink_handler.c:70-94 | the answer to a read carries, at every address it covers, the byte most recently written there by an earlier request, 0 if none |
| `MemoryProof.AnswerKinds` | tilelink_handler.c:44-94 | the i-th answer is on channel D, names the i-th request's source, and is AccessAckData of the size asked for a read, AccessAck without data and of size 0 for a write; every other header field, err among them, is 0 |
| `ServerRules.HandlesExactly` | tilelink_handler.c:190-219 | for every endpoint: the handler does nothing while no message is there or 99 responses wait; else it exits if the oldest message is a read or write past 4 GB, and if not consumes it, adds its flits to what is to be returned, and memory byte by byte, the one answer, the counts and everything left alone are as stated |
| `ServerRules.OffsetIsLowBytes` | tilelink_handler.c:47-48 | the address is the first four payload bytes, least significant first; the next four are ignored |
| `MemoryProof.MemoryIsLastWrite` | tilelink_handler.c:44-50 | after any requests every byte of the memory is the last one written to it |
| `MemoryProof.HandleAccess` | tilelink_handler.c:190-219 | a handled Get or PutFullData updates the memory, leaves exactly one response and drops none |
| `MemoryProof.StepKeepsServer` | tloe_endpoint.c:115-146 | every step keeps memory and pending responses equal to those of the requests handled so far |
| `MemoryProof.AcceptedArePrefix` | tloe_endpoint.c:142-144 | in any state with the invariant the master's accepted responses are a prefix of the sequential answers |
| `Theorems.ExactlyOnceInOrder` | tloe_transmitter.c:78-193 | in both directions and every state: delivered messages, messages in unaccepted frames and the message held over are, in this order, all that TX was given; delivered ones are a prefix of those framed |
| `Theorems.WindowsAreConsecutive` | tloe_transmitter.c:173-184 | at most four frames, numbered consecutively modulo 2^22, the last one prev(next_tx_seq) |
| `Theorems.AcksAreSafe` | retransmission.c:35-53 | every ack in flight names a frame its sender had accepted when it left, less than 2^21 before the one it then expected; every parked ack names the duplicate it is for, or the last frame accepted when it arrived; whatever ack arrives next, only accepted frames leave the window |
| `Theorems.AckIsSafeIff` | tloe_seq_mgr.c:3-16 | while the front frame is unaccepted, an ack less than a circle old drops no unaccepted frame if and only if it is less than 2^21 behind (or exactly 2^21 with the front in the lower half) |
| `Theorems.FramesAreWellClassified` | tloe_receiver.h:20-27 | every data frame in flight is within four of what is expected, and normal, duplicate, out of sequence mean equal, less, greater in unbounded numbers |
| `Theorems.CreditsAreConserved` | flowcontrol.c:68-127 | per direction and channel, credits held, flits in unaccepted frames, flits in the inbox, credits to return and credits in unaccepted frames always add up to 1024 |
| `RunRules.CreditsCountBytes` | tilelink_msg.c:23-34 | the same with every message counted by the bytes it is framed in, eight to a credit, the last credit begun counting whole |
| `RunRules.HeldOverIff` | tloe_transmitter.c:106-127 | in every state of every run, a message handed to TX is held over if and only if four frames are unacknowledged or it has more bytes than eight times its channel's credits; otherwise it is alone in the new last frame of the window and its flits are paid |
| `RunRules.LastCreditSpent` | flowcontrol.c:57-66 | so a message that costs exactly the credits left is sent and leaves none |
| `RunRules.TransmitsInRuns` | tloe_transmitter.c:78-193 | in every state of every run, for every message TX is given, it sends what `TxRules` says it must, in that order, and nothing else |
| `TxRules.TxSendsExactly` | tloe_transmitter.c:106-184 | for every endpoint and request: a new frame is sent and next_tx_seq advances if and only if the window has room and the request can be paid, ack_buffer is not empty, or there is no request and some channel has credit to return; the request leaves if and only if there is room and it can be paid; number, ack, message, credit (the largest power of two of the fullest channel) and all that is spent follow, and without a frame nothing is spent |
| `TxRules.TxOrder` | tloe_transmitter.c:86-191 | the frames TX sends are one ack-only frame if one is owed, one per half timeout of a full window, the new frame, and on a timeout the whole window with its acks up to date, in this order and no others |
| `TxRules.FlagsExactly` | tloe_transmitter.c:86-104 | afterwards no ack-only frame is owed, and one is noted and counted for a half timeout |
| `RxRules.ReceivesExactly` | tloe_receiver.c:144-213 | for every endpoint and frame: an ack-only frame does no more than its ack; the frame expected is taken in with its messages, its credit and an ack owed if it is empty, or the process exits for want of room; any other leaves the ack it should, or the process exits because 2047 wait |
| `Theorems.InboxNeverOverflows` | tloe_receiver.c:54-57 | the "tl_msg_buffer overflow" exit is unreachable: never more than 5120 of 9999 slots are in use |
| `Theorems.NoResponseDropped` | tilelink_handler.c:60-90 | the "buffer is full" branches of the handlers are unreachable: drop_response_cnt stays 0 on both sides in every run |
| `Theorems.NoNakInFlight` | tloe_transmitter.c:138-150 | every frame either side ever puts in flight says ACK, although ack_buffer holds NAKs |
| `Theorems.TimeoutsResendWindows` | tloe_transmitter.c:78-193 | in every state and for every message TX is given: it sends its ack-only frames and the new frame if any, then, if and only if the front had timed out, every frame of the window including the new one, once, in order, changed only in the ack, leaving the window's frames intact |
| `LinkFacts.TxGoesBackN` | tloe_transmitter.c:78-193 | the same of any endpoint whose window is numbered consecutively up to next_tx_seq |
| `Theorems.WireIsFaithful` | tloe_frame.c:79-118 | every frame ever in flight is a 56-byte packet from which the receiver recovers exactly that frame |
| `Theorems.StepsAreDefined` | tloe_endpoint.c:122-145 | a running endpoint can always take each of its steps, and exits only on a full ack_buffer or an access outside the memory |
| `Theorems.DeliveredBetween` | tloe_receiver.c:34-79 | what is delivered between two states of a run is exactly the messages of the frames the other side numbered from the one expected first up to the one expected last |
| `SystemProof.StepKeepsInv` | tloe_endpoint.c:115-146 | every step of either endpoint and every loss keeps the two-endpoint invariant |
| `SystemProof.StartHasInv` | tloe_endpoint.c:33-75 | two endpoints with an open connection and empty queues have the invariant |
| `SystemProof.RunKeepsInv` | tloe_endpoint.c:115-146 | the invariant holds throughout every run from a state that has it |
| `SystemProof.TransmitKeepsInv` | tloe_transmitter.c:78-193 | TX with a fresh enough parked ack keeps the invariant |
| `SystemProof.ReceiveKeepsInv` | tloe_receiver.c:144-213 | RX on any frame in flight keeps the invariant and sends nothing |
| `SystemProof.ServeKeepsInv` | tilelink_handler.c:190-219 | the handler keeps the invariant |
| `SystemProof.LoseKeepsInv` | tloe_ns_thread.c:93-124 | dropping any frame in flight keeps the invariant |
| `TransmitProof.TransmitEffect` | tloe_transmitter.c:106-191 | TX either adds one frame with the next number to the window and uses up one parked ack, or changes no number; all it sends are ack-only frames, that frame and copies from the window |
| `TransmitProof.SendsKeepsForward` | tloe_transmitter.c:78-193 | all TX sends is a recent enough copy of its history for the receiver to classify it |
| `TransmitProof.SendsKeepsBackward` | tloe_transmitter.c:138-150 | all acks TX sends name accepted frames less than 2^21 old |
| `ReceiveProof.ReceiveEffect` | tloe_receiver.c:144-213 | RX slides the window and then ignores, accepts or parks the frame, exactly by type and class |
| `ReceiveProof.SlideIsSafe` | retransmission.c:35-53 | sliding on an ack in flight removes exactly the frames it covers, all of them accepted |
| `ReceiveProof.ClassifyRefines` | tloe_receiver.h:20-27 | the wrapping classification of a frame in flight is the order of the unbounded numbers |
| `ReceiveProof.ParkedAckIsSafe` | tloe_receiver.c:81-133 | the ack parked for a duplicate names that frame, the one for an out-of-sequence frame the last frame accepted |
| `ReceiveProof.AcceptedIsNext` | tloe_receiver.c:183-200 | a frame accepted as normal is the oldest the peer sent that was not accepted before |
| `CreditProof.SpendsKeepsCredit` | flowcontrol.c:89-127 | TX moves credit between sender, frames and returns without changing the total |
| `CreditProof.HearsKeepsCredit` | flowcontrol.c:68-87 | accepting a frame keeps both totals, parking or ignoring one too |
| `CreditProof.ReturnsKeepsCredit` | tloe_endpoint.c:142-144 | consuming a message turns its flits into credit to return, keeping the total |
| `CreditProof.InboxBounded` | flowcontrol.h:8-9 | conservation bounds the inbox by the credits granted to the sender |
| `LinkFacts.SlideIsExact` | retransmission.c:40-52 | on a fresh ack slide_window removes exactly the frames up to it, across any wrap |
| `LinkFacts.OldAckIsHarmlessIff` | retransmission.c:43-45 | an ack from before the window leaves it alone if and only if it is less than 2^21 behind the front (midpoint included when the front is in the lower half) |
| `LinkFacts.TimeoutResendsWindow` | tloe_transmitter.c:186-191 | a timeout resends every frame of the window once, in order, with a refreshed ack, and keeps the window's frames |
| `LinkFacts.NakResendsRest` | tloe_receiver.c:15-32 | a NAK from any peer that is fresh enough for the comparison and not ahead of the window removes the frames it covers and resends all others once, in order |
| `LinkFacts.RetransmitKeepsFrames` | retransmission.c:6-33 | retransmit changes no frame in the window |
| `LinkFacts.ResentAreFromWindow` | retransmission.c:14-27 | whatever is resent is a frame of the window with prev(next_rx_seq) as ack |
| `LinkFacts.TxEffect` | tloe_transmitter.c:78-193 | TX as a whole changes only flags and send times beyond the one frame it may build |
| `SeqNum.CmpAntisymmetric` | tloe_seq_mgr.c:3-16 | the comparison is antisymmetric and 0 only on equal numbers |
| `SeqNum.CmpIsSerialOrder` | tloe_seq_mgr.c:3-16 | it is the order of section 3.2 of RFC 1982 with SERIAL_BITS = 22 wherever that order is defined |
| `SeqNum.CmpRefines` | tloe_seq_mgr.c:3-16 | on numbers less than 2^21 apart before wrapping it is the unbounded comparison, over any number of wraps |
| `SeqNum.CmpExact` | tloe_endpoint.h:12-13 | up to a full circle apart, the later number is judged later exactly below 2^21, or at 2^21 in the lower half |
| `SeqNum.CmpTransitiveOnArc` | tloe_seq_mgr.c:3-16 | transitive within any arc shorter than 2^21 |
| `SeqNum.NextPrevInverse` | tloe_seq_mgr.c:18-27 | next and prev stay in range and undo each other |
| `SeqNum.CmpNextCommutes` | tloe_seq_mgr.c:3-27 | next preserves the comparison if and only if the pair is not 2^21 apart with one number about to wrap |
| `SeqNum.CmpPrevCommutes` | tloe_seq_mgr.c:3-23 | prev preserves the comparison if and only if the pair is not 2^21 apart with one number at 0 |
| `SeqNum.CmpNextExample` | tloe_seq_mgr.c:3-27 | 2^22-1 and 2^21-1 are such a pair: the comparison turns round |
| `AckedSeq.KeepsNewerIff` | tloe_seq_mgr.c:53-57 | of two acks at any distance the newer is kept if and only if the distance around the circle is less than 2^21, or 2^21 with the newer in the lower half |
| `AckedSeq.AckedIsNewestIff` | tloe_receiver.c:168-178 | in every state of a run acked_seq is the newest ack recorded, on numbers before wrapping, if and only if each ack met this condition with the newest before it when it was recorded |
| `SeqNum.NextRefines` | tloe_seq_mgr.c:25-27 | next is adding 1 before wrapping |
| `SeqNum.PrevRefines` | tloe_seq_mgr.c:18-23 | prev is subtracting 1 before wrapping |
| `FlowSpec.SelectMax` | flowcontrol.h:34-46 | the first channel holding the largest value |
| `FlowSpec.LargestPow` | flowcontrol.h:48-50 | the exponent of the largest power of two not above the value |
| `FlowSpec.SelectedChannelHasCredit` | tloe_transmitter.c:155-159 | a selected channel other than 0 has credit, so the logarithm is defined, fits 5 bits and the subtraction cannot underflow; 0 is selected only if nothing is left to return |
| `FlowSpec.DrainReturnsEverything` | flowcontrol.c:122-127 | draining a value takes exactly popcount steps whose powers of two add up to it |
| `FlowSpec.DrainExponentsDecrease` | flowcontrol.c:122-127 | the exponents strictly decrease and stay below 32 |
| `TileLink.FlitsHoldBytes` | tilelink_msg.c:23-34 | the flits of a message are the fewest that hold all its bytes, header and data |
| `TileLink.SizedAsNamedIff` | tilelink_msg.c:71-106 | a message is sized with data as its opcode's name says, unless it is opcode 5 or 7 on channel A or B, or 0, 2 or 3 on channel C |
| `TileLink.HeaderWords` | tilelink_msg.c:36-69 | the header is two words on channels A to C and for grants, one on channel E and for the other answers |
| `TileLink.FlitsPositive` | tilelink_msg.c:23-34 | every well-formed message has at least one flit, an admissible one at most six |
| `CircularQueues.CircularQueue.constructor` | util/circular_queue.c:11-25 | an empty ring |
| `CircularQueues.CircularQueue.IsEmpty` | util/circular_queue.c:42-44 | true exactly if the ring holds nothing |
| `CircularQueues.CircularQueue.IsFull` | util/circular_queue.c:46-48 | true exactly if size - 1 elements are held |
| `CircularQueues.CircularQueue.Enqueue` | util/circular_queue.c:50-57 | appends, or refuses and changes nothing exactly when size - 1 elements are held |
| `CircularQueues.CircularQueue.Dequeue` | util/circular_queue.c:60-69 | removes and returns the oldest element, nothing when empty |
| `CircularQueues.CircularQueue.GetFront` | util/circular_queue.c:71-73 | the oldest element without removing it, nothing when empty |
| `CircularQueues.CircularQueue.Traverse` | retransmission.c:14-15 | the modular traversal from front to rear visits exactly the elements, oldest first |
| `FlowControls.FlowControl.constructor` | flowcontrol.c:9-17 | 2^7 credits and nothing to return on every channel |
| `FlowControls.FlowControl.SetCredit` | flowcontrol.c:19-22 | one channel set to a power of two, its returns cleared, the others untouched |
| `FlowControls.FlowControl.SelectMaxCreditChannel` | flowcontrol.h:34-46 | the loop finds the specified channel, which has credit unless it is 0 |
| `FlowControls.FlowControl.CreditDec` | flowcontrol.c:57-112 | pays if and only if the channel is not 0 and holds at least the message's flits and not 2^32 - 1; then exactly these leave it, else it answers -1 and changes nothing |
| `FlowControls.FlowControl.CreditInc` | flowcontrol.c:68-87 | adds the announced power of two, none on channel 0 |
| `FlowControls.FlowControl.AddFlowCredits` | flowcontrol.c:118-120 | adds the flits to what is to be returned on the channel |
| `FlowControls.FlowControl.GetOutgoingCredits` | flowcontrol.c:122-127 | takes the largest power of two out of the channel |
| `FlowControls.FlowControl.CheckAllChannels` | flowcontrol.c:24-54 | true exactly if A to E all hold more than 2^7 |
| `Endpoints.Link.constructor` | tloe_endpoint.c:39-68 | numbers, queues and their sizes, credits and flags of a fresh endpoint |
| `Endpoints.Link.SlideWindow` | retransmission.c:35-53 | the ring loop is the specified slide and touches nothing else |
| `Endpoints.Link.Retransmit` | retransmission.c:6-33 | the ring loop sends the specified frames and stamps the elements in place |
| `Endpoints.Link.SendAcks` | tloe_transmitter.c:86-104 | the pending ack-only frame and the one per half timeout on a full window |
| `Endpoints.Link.ParkAndCount` | tloe_transmitter.c:161-184 | the frame joins the window as sent and next_tx_seq advances; the enqueue cannot fail |
| `Endpoints.Link.EmitFrame` | tloe_transmitter.c:138-184 | the frame with the oldest parked ack, or prev(next_rx_seq), and the largest power of two of the selected channel |
| `Endpoints.Link.SendFrame` | tloe_transmitter.c:106-184 | the early exits and the frame built otherwise are those of the step function; `TxRules.TxSendsExactly` says when and what |
| `Endpoints.Link.TX` | tloe_transmitter.c:78-193 | new state, frames sent and message returned are those of the step function, whose sending `TxRules.TxSendsExactly`, `TxOrder` and `FlagsExactly` determine |
| `Endpoints.Link.ServeAck` | tloe_receiver.c:15-32 | slide, then on a NAK resend from the number after it |
| `Endpoints.Link.Accept` | tloe_receiver.c:34-79 | numbers, messages, credit and ack-only flag of an in-order frame; exit when a message does not fit |
| `Endpoints.Link.Park` | tloe_receiver.c:81-133 | the ack of a duplicate or out-of-sequence frame joins ack_buffer; exit when that is full |
| `Endpoints.Link.RX` | tloe_receiver.c:144-213 | new state and frames sent are those of the step function |
| `Servers.Endpoint.constructor` | tilelink_handler.c:14-30 | empty buffers of 10000 and 100 slots around a link, a counter of 4 and a zeroed memory |
| `Servers.Endpoint.SelectBuffer` | tloe_endpoint.c:98-113 | the message picked and the counter and buffers left are those of the step function |
| `Servers.Endpoint.HandlePut` | tilelink_handler.c:44-68 | the bytes stored, exactly one response or a counted drop, exit when out of bounds |
| `Servers.Endpoint.HandleGet` | tilelink_handler.c:70-94 | the response of `GetResponse`, whose whole header `MemoryProof.AnswerKinds` states, with the bytes loaded; exit when out of bounds |
| `Servers.Endpoint.Dispatch` | tilelink_handler.c:120-188 | the handler the table names for the channel and opcode |
| `Servers.Endpoint.Serve` | tilelink_handler.c:190-219 | new state and status are those of the step function `Handle`, which `ServerRules.HandlesExactly` determines |
| `Servers.Endpoint.Send` | tloe_endpoint.c:125-138 | the held-over message or the next selected one goes to TX, and what TX returns is held over |
| `Servers.Endpoint.Iterate` | tloe_endpoint.c:122-145 | one turn of the main loop is a transmit, a receive and a serve step of the model |
| `Servers.TransmitKeepsShape` | tloe_endpoint.c:125-138 | after TX all buffers and numbers are still within their bounds |
| `Servers.HandleByParts` | tilelink_handler.c:203-214 | dequeuing the message before its handler runs comes to the same as after |
| `Scheduler.MessagesPolledWithinFour` | tloe_endpoint.c:98-113 | any four consecutive calls of select_buffer poll message_buffer at least once |
| `Scheduler.PollsFourApart` | tloe_endpoint.c:98-113 | while responses wait, exactly the three calls after a poll of message_buffer take responses, oldest first, and the fourth polls again |
| `Scheduler.PollsWhenNoResponse` | tloe_endpoint.c:98-113 | while none wait every call polls message_buffer and takes its oldest message, if any |
| `Scheduler.ResponseWithinTwo` | tloe_endpoint.c:98-113 | a waiting response is returned by the current call or the next |
| `Scheduler.ConsumedInOrder` | tloe_endpoint.c:98-113 | over any run of calls both buffers are consumed first in first out, nothing lost or repeated |
| `Codec.WireHeaderRoundTrip` | tloe_frame.h:17-28 | packing the 5/3/1/1/22/22/2/1/4/3-bit header into 64 bits and unpacking recovers every field |
| `Codec.WireWordRoundTrip` | tloe_frame.h:17-28 | every 64-bit word is the packing of the header read from it |
| `Codec.TlHeaderRoundTrip` | tilelink_msg.h:54-65 | the TileLink header word recovers every field |
| `Layout.WireFieldsAt` | tloe_frame.h:17-28 | the frame header word is the sum of its fields at bits 0, 5, 8, 9, 10, 32, 54, 56, 57 and 61 |
| `Layout.TlFieldsAt` | tilelink_msg.h:54-65 | the message header word is the sum of its fields at bits 0, 26, 38, 40, 48, 52, 56, 57, 60 and 63 |
| `Layout.PacketByteAt` | tloe_frame.c:79-98 | byte i of the packet is byte 7 - i of the header word, and so on for every flit |
| `Layout.WireByteAt` | tloe_frame.c:11-48 | the packet of every frame an endpoint sends, byte by byte: header word, message from flit 0 on, zeros, and the mask in the sixth flit |
| `Codec.PacketRoundTrip` | tloe_frame.c:79-118 | parsing the big-endian packet of a frame recovers all header fields and flits, for every number of flits |
| `Codec.PacketIsEncoding` | tloe_frame.c:100-118 | every packet is the encoding of exactly the frame parsed from it |
| `Codec.FrameToPacket` | tloe_frame.c:79-98 | the loop writes the encoding into the first size bytes of the buffer and nothing beyond |
| `Codec.PacketToFrame` | tloe_frame.c:100-118 | the loop reads exactly the frame the packet encodes |
| `Framing.ExtractMessages` | tloe_receiver.c:44-62 | the mask loop finds as many messages as the mask has bits set, and the one of bit p, taken from flit p, comes after those of the set bits below it |
| `Framing.MaskedExtracts` | tloe_receiver.c:44-62 | the same of the specification, for every mask |
| `Framing.ExtractsWhatLies` | tloe_frame.c:37-57 | a message that lies whole at any flit of a frame is the one extracted there |
| `Framing.FramingExact` | tloe_frame.c:18-62 | a message survives framing if and only if it is at most 40 bytes long or its last flit equals the mask written over it |
| `Framing.LongMessageCorrupted` | tloe_frame.c:18-35 | every 48-byte message whose last flit does not begin with byte 1 arrives changed |
| `Framing.LongMessageExample` | tloe_frame.c:18-35 | a 32-byte write is such a message |
| `Framing.MsgsRoundTrip` | tloe_transmitter.c:45-61 | no message or one admissible message is framed in 56 bytes and extracted unchanged |
| `Framing.WireRoundTrip` | tloe_frame.c:79-118 | framing, serialising, parsing and extracting returns the frame with the same messages, hence the same flit count at both ends |
| `Connections.ServeRound` | tloe_connection.c:82-107 | the five opening frames of `Round`, which `OpeningRules.MasterTurnExactly` and `SlaveTurnExactly` state field by field, leaving next_tx_seq at 5 |
| `Connections.ReceiveMaster` | tloe_connection.c:35-54 | the expected frame sets its channel's credit and the numbers, any other changes nothing |
| `Connections.ReceiveSlave` | tloe_connection.c:56-81 | from the first opening frame on, every frame sets its channel's credit and the numbers |
| `Connections.OpenMaster` | tloe_connection.c:122-146 | the loop and the frame after it are the specified run, for any frames received and any timer |
| `Connections.OpenSlave` | tloe_connection.c:148-173 | the loop and the frame after it are the specified run, for any frames received and any timer |
| `OpeningRules.MasterTurnExactly` | tloe_connection.c:122-146 | every turn of the master's loop: five announcements, acknowledging the number before the one expected, if and only if the timer has run out; the frame heard taken if and only if it has that number; the final frame if and only if all of A to E then hold more than 2^7 |
| `OpeningRules.SlaveTurnExactly` | tloe_connection.c:148-173 | the same of the slave, which serves from the frame that opens the connection on and takes every frame from it on |
| `OpeningRules.OpeningsAcknowledge` | tloe_connection.c:82-107 | in every run, whatever is lost, each announcement put in flight acknowledges the last frame its sender had taken, and the final frame the last one it ever took |
| `Handshake.MasterFillsPrefix` | tloe_connection.c:35-54 | under any loss, repetition or delay next_rx_seq = k means channels 1 to k hold 2^10 credits and the rest 2^7, and the master returns exactly at k = 5 |
| `HandshakeFacts.MasterAgainstSlave` | tloe_connection.c:122-173 | the same against a real slave that itself hears anything, the master hearing any selection of its frames |
| `HandshakeFacts.SlaveTakesOpening` | tloe_connection.c:56-80 | a turn on an announcement fills its channel and leaves the slave expecting the number after it, whatever it expected before |
| `ConnectProof.StepKeepsGood` | tloe_connection.c:122-173 | every turn of an opening loop, every step of a side that has returned and every loss keeps the steady-state invariant, an opening side counting as one that has accepted nothing, unless an opening slave takes a frame the master sent after its announcements |
| `ConnectProof.StuckStaysStuck` | tloe_connection.c:56-80 | a slave that does so while it lacks a channel never returns, whatever happens |
| `ConnectTheorems.StuckNeverReturns` | tloe_connection.c:156-170 | so in no later state of the run has it returned |
| `ConnectProof.ConnRunKeeps` | tloe_connection.c:122-173 | one of the two holds throughout every run from a cold start, whatever is lost |
| `ConnectInv.ReturnKeepsInv` | tloe_connection.c:122-173 | a side that returns from open_conn with 1024 credits per channel takes its place in the invariant, its grant counting every announcement it may still accept |
| `ConnectTheorems.BothRunIsGood` | tloe_connection.c:122-173 | so whenever both sides run the steady-state invariant holds, with repeated opening frames and early messages still in flight |
| `ConnectTheorems.HandshakeAgrees` | tloe_connection.c:56-173 | opened without loss, however often rounds are resent and whatever a side sends as soon as it has returned: all of A to E account for 1024 credits on both sides, each side expects the other's next number less what is unacknowledged, and just after the master's last opening frame is accepted these are 6 and next_tx_seq less the window |
| `ConnectTheorems.LosslessInStep` | tloe_connection.c:56-81 | without loss the slave hears the announcements one by one, and the steady-state invariant holds in every state |
| `ConnectTheorems.AgreedNumbersMeet` | tloe_connection.c:142-143 | with any loss: once the slave has accepted the master's last opening frame both pairs of numbers agree |
| `ConnectTheorems.JustAgreed` | tloe_connection.c:142-143 | at that moment the slave expects 6 and all the master sent since is in its window |
| `ConnectTheorems.CreditsFollowReturn` | tloe_connection.c:71-76 | with any loss: the slave's credits, wherever they are, add up to 1024 on the channels up to that of the announcement it returned on and to 2048 on those above |
| `ConnectTheorems.CreditsRightIff` | tloe_connection.c:71-76 | so all five are right if and only if it returned on channel E's |
| `ConnectTheorems.UnusedSlaveHolds` | flowcontrol.c:68-87 | on a connection not used yet the slave itself holds those 1024 and 2048 credits |
| `ConnectTheorems.MasterCreditsRight` | tloe_connection.c:35-54 | the master's credits are right whatever was lost |
| `ConnectTheorems.NumbersMeetIff` | tloe_connection.c:142-143 | with any loss: while both sides run, the slave expects a number the master is about to send or has yet to see acknowledged if and only if it has accepted the master's last opening frame; the master's number always fits the slave's |
| `ConnectAgreement.AgreeableIff` | tloe_connection.c:122-173 | in every state of every run, whatever was lost: some continuation of the run reaches agreement if and only if both sides are opening, or the frames the receiving side needs and will not be sent again are on their way in the order needed (one condition each for the three other cases) |
| `ConnectAgreement.LostForEver` | tloe_connection.c:122-173 | once that condition fails it fails in every later state, and none is one of agreement |
| `ConnectAgreement.FollowsIff` | tloe_connection.c:35-54 | "on their way in order" is the subsequence relation: places one after another hold the numbers |
| `ConnectAgreement.DroppedLastNeverAgrees` | tloe_connection.c:142-143 | in particular, once the master's last opening frame is dropped no later state is one of agreement |
| `ConnectTheorems.ConnectionIsReliable` | tloe_endpoint.c:115-146 | from a cold start and with any loss from the first frame on: once both sides run, messages arrive exactly once and in order both ways and no inbox overflows |
| `ConnectTheorems.ConnectionServesMemory` | tloe_endpoint.c:115-146 | and if only the master asks, the responses it has accepted are a prefix of the answers of a sequential memory |
| `ConnectExample.LostAnnouncementDoublesCredits` | tloe_connection.c:56-173 | a run of both loops in which one announcement is lost: both sides return and agree on the numbers, and the slave holds 2048 credits on C, D and E |
| `ConnectExample.LostAnnouncementLeavesSlave` | tloe_connection.c:56-173 | from every cold start a run in which one announcement is lost, the master returns, and the slave stays in its loop for ever |
| `Picture.TransmitScene` | tloe_transmitter.c:78-193 | TX of an endpoint with no message and no credit to send, in terms of counts: the ack-only frames due, one empty frame if an ack is parked and the window not full, the whole window again on a timeout, and the window, send times, parked acks and flags left |
| `Picture.ReceiveScene` | tloe_receiver.c:144-213 | RX of an empty frame, in terms of counts: the window covered by its ack goes, and the frame is ignored, accepted with an ack owed, or parked |
| `Turns.ShownClosed` | tloe_endpoint.c:122-145 | a turn of either main loop, or a loss, leads from a picture some run reaches to a picture some run reaches |
| `FirstRead.ReadShown` | tloe_endpoint.c:122-145 | a run in which a byte is read: request, response and both credits sent, nothing left to do but acknowledge |
| `StaleRun.Cycle` | tloe_transmitter.c:86-191 | with a full window and one parked ack, a timeout whose first resent frame is lost ends with three more frames accepted, all acknowledged, and the same ack still parked |
| `StaleRun.EmptiedDrawn` | tloe_transmitter.c:86-191 | after that read and any number of such timeouts the window can empty at once, leaving the ack in front |
| `StaleAck.AckOfEveryAge` | tloe_transmitter.c:138-150 | for every k there is a run, every ack taken out on the way being fresh, after which the next ack to be taken out is 3k + 1 numbers old while the peer's first frame is unaccepted |
| `StaleAck.StaleIsReachable` | tloe_transmitter.c:138-150 | so a run reaches a state with an ack more than 2^21 old in front |
| `StaleAck.UnacceptedFrameDropped` | retransmission.c:35-53 | and two more steps of the code drop a frame the peer never accepted |
| `StaleAck.StaleAckDropsFrame` | tloe_transmitter.c:138-150 | in every state of the invariant in which TX takes out an ack more than 2^21 old while the peer's first frame is unaccepted, two steps make the peer drop that frame |

## Left out

- Sockets, message queues and the fabric table (tloe_ether.c, tloe_mq.c, tloe_fabric.c): one lossy FIFO per direction stands for them.
- The network simulator's command line and threads (tloe_ns.c, tloe_ns_thread.c): only its relay-or-drop step is used.
- The user interface, argument parsing and status output of tloe_endpoint.c: an arbitrary step puts messages into message_buffer.
- tloe_nsm.c and the TEST, WDE and DEBUG builds: the default build, in which the drop hooks never drop, is modelled.
- Clocks (timeout.c): the time is an argument of every step.
- Memory allocation, freeing, locking and data races: allocation succeeds and each step is atomic.
- Retransmit buffer elements as heap objects: the ring holds their values, so aliasing of an element outside the ring is not captured.
- Closing a connection (tloe_connection.c:178-274): a short overwrite of the numbers with no invariant to keep.
- Peers outside the protocol: header channels 6 and 7, messages on channel 0, packets over 528 bytes, messages over 40 bytes in runs.
- Liveness and absence of deadlock: a request without credit and with no parked ack also blocks returning credits (tloe_transmitter.c:116-127).
- That ack_buffer never fills: the code does not bound it, and its exit is modelled as a status.
- Sending of NAKs: TX never sends one, so only their reception is modelled.
- The inc_cnt, inc_value, dec_cnt and dec_value statistics of flowcontrol.c, and get_earliest_element: nothing reads them.
- ConnectTheorems.HandshakeAgrees: the slave's credits are right only without loss while opening, because opening frames are not in the retransmit ring; ConnectTheorems.CreditsRightIff gives the exact condition for the credits with loss, and ConnectAgreement.AgreeableIff that for the numbers.
- MemoryProof.SequentialMemory: only the master issues requests and they are reads and full writes inside the memory, because the handler ignores the other opcodes and exits on an access outside it.
- Endpoints.Link.RX: says only which status results when the inbox overflows, because the process has then exited.
