/**
 The link layer as functions on values: what TX, RX, slide_window and retransmit do to
 an endpoint (tloe_transmitter.c, tloe_receiver.c, retransmission.c).
 */
module LinkSpec {
  import opened Options
  import opened SeqNum
  import opened TileLink
  import opened FlowSpec

  const TLOE_NAK: int := 0
  const TLOE_ACK: int := 1

  const TYPE_NORMAL: int := 0
  const TYPE_ACKONLY: int := 1
  const TYPE_OPEN_CONNECTION: int := 2

  const WINDOW_SIZE: int := 4
  const ACK_CAPACITY: int := 2047      // create_queue(2048) holds one less
  const INBOX_CAPACITY: int := 9999    // create_queue(10000)
  const TIMEOUT_TIME: int := 100000
  const HALF_TIMEOUT: int := 50000     // TIMEOUT_TIME >> 1

  /** A TLoE frame: the header fields the protocol reads and the messages its mask selects. */
  datatype Frame = Frame(ftype: int, seqNum: int, seqAck: int, ack: int, chan: nat, credit: nat,
                         msgs: seq<Msg>)

  datatype ElemState = Init | Sent | Resent

  /** RetransmitBufferElement */
  datatype Elem = Elem(state: ElemState, sendTime: int, frame: Frame)

  /** Why the process called exit, if it did. */
  datatype Status = Running | AckBufferFull | InboxOverflow | OutOfBounds

  datatype Counters = Counters(ack: nat, dup: nat, oos: nat, ackOnly: nat)

  /** The link-layer fields of tloe_endpoint_t; queues are their contents, oldest first. */
  datatype Ep = Ep(status: Status, nextTx: int, nextRx: int, ackedSeq: int,
                   window: seq<Elem>, ackBuf: seq<Frame>, inbox: seq<Msg>,
                   credits: seq<int>, flow: seq<int>,
                   ackPending: bool, ackSent: bool, cnt: Counters)

  /** What one call of TX leaves behind: state, frames put on the wire, message not sent. */
  datatype TxOut = TxOut(ep: Ep, frames: seq<Frame>, unsent: Option<Msg>)

  datatype RxOut = RxOut(ep: Ep, frames: seq<Frame>)

  /** The shape every endpoint has: vectors of the right length and 22-bit numbers. */
  predicate Shape(e: Ep) {
    && IsVector(e.credits) && IsVector(e.flow)
    && IsSeq(e.nextTx) && IsSeq(e.nextRx) && IsSeq(e.ackedSeq)
    && |e.window| <= WINDOW_SIZE && |e.ackBuf| <= ACK_CAPACITY && |e.inbox| <= INBOX_CAPACITY
  }

  // ----- Retransmission (retransmission.c) -----

  /** slide_window: drop frames from the front while they are not after ack. */
  function Slide(w: seq<Elem>, ack: int): (r: seq<Elem>)
    ensures |r| <= |w|
  {
    if w != [] && Cmp(w[0].frame.seqNum, ack) <= 0 then Slide(w[1..], ack) else w
  }

  predicate MustResend(el: Elem, from: int) {
    Cmp(el.frame.seqNum, from) >= 0
  }

  /** The frames retransmit sends: those not before `from`, with a refreshed ack. */
  function ResentFrames(w: seq<Elem>, from: int, nextRx: int): seq<Frame> {
    if w == [] then []
    else (if MustResend(w[0], from) then [w[0].frame.(seqAck := Prev(nextRx))] else [])
         + ResentFrames(w[1..], from, nextRx)
  }

  /** The window after retransmit: same frames, resent ones stamped. */
  function ResentWindow(w: seq<Elem>, from: int, now: int): (r: seq<Elem>)
    ensures |r| == |w|
  {
    if w == [] then []
    else [if MustResend(w[0], from) then Elem(Resent, now, w[0].frame) else w[0]]
         + ResentWindow(w[1..], from, now)
  }

  function Retransmit(e: Ep, from: int, now: int): RxOut {
    RxOut(e.(window := ResentWindow(e.window, from, now)), ResentFrames(e.window, from, e.nextRx))
  }

  // ----- TX (tloe_transmitter.c) -----

  /** send_ackonly_frame */
  function AckOnlyFrame(e: Ep): Frame {
    Frame(TYPE_ACKONLY, e.nextTx, Prev(e.nextRx), TLOE_ACK, 0, 0, [])
  }

  function SendPendingAck(e: Ep): RxOut {
    if e.ackPending then RxOut(e.(ackPending := false), [AckOnlyFrame(e)]) else RxOut(e, [])
  }

  /** With a full window, one ack-only frame per half timeout. */
  function SendHalfTimeoutAck(e: Ep, now: int): RxOut {
    if |e.window| == WINDOW_SIZE && !e.ackSent && now - e.window[0].sendTime >= HALF_TIMEOUT then
      RxOut(e.(ackSent := true, cnt := e.cnt.(ackOnly := e.cnt.ackOnly + 1)), [AckOnlyFrame(e)])
    else RxOut(e, [])
  }

  /** Does TX reach the point where it builds a frame? */
  predicate BuildsFrame(e: Ep, req: Option<Msg>)
    requires |e.credits| == |e.flow| == CHANNEL_NUM
    requires req.Some? ==> req.value.header.chan < CHANNEL_NUM
  {
    && |e.window| < WINDOW_SIZE
    && !(req.None? && e.ackBuf == [] && SelectMaxCreditChannel(e.flow) == 0)
    && !(req.Some? && !CanPay(e.credits, req.value) && e.ackBuf == [])
  }

  predicate CarriesRequest(e: Ep, req: Option<Msg>)
    requires |e.credits| == CHANNEL_NUM
    requires req.Some? ==> req.value.header.chan < CHANNEL_NUM
  {
    req.Some? && CanPay(e.credits, req.value)
  }

  /** The frame TX builds: the request if it is paid for, a parked ack if there is one, credit if any. */
  function NormalFrame(e: Ep, req: Option<Msg>): Frame
    requires IsVector(e.credits) && IsVector(e.flow)
    requires req.Some? ==> req.value.header.chan < CHANNEL_NUM
  {
    var target := SelectMaxCreditChannel(e.flow);
    Frame(TYPE_NORMAL, e.nextTx,
          if e.ackBuf == [] then Prev(e.nextRx) else e.ackBuf[0].seqAck,
          TLOE_ACK,
          target,
          if target == 0 then 0 else (SelectedChannelHasCredit(e.flow); LargestPow(e.flow[target])),
          if CarriesRequest(e, req) then [req.value] else [])
  }

  /** Lines 106-184 of TX. */
  function SendNormal(e: Ep, req: Option<Msg>, now: int): TxOut
    requires IsVector(e.credits) && IsVector(e.flow)
    requires req.Some? ==> req.value.header.chan < CHANNEL_NUM
  {
    if !BuildsFrame(e, req) then TxOut(e, [], req)
    else
      var f := NormalFrame(e, req);
      var target := SelectMaxCreditChannel(e.flow);
      TxOut(e.(credits := if CarriesRequest(e, req) then Pay(e.credits, req.value) else e.credits,
               ackBuf := if e.ackBuf == [] then [] else e.ackBuf[1..],
               flow := if target == 0 then e.flow else (SelectedChannelHasCredit(e.flow); TakeFlow(e.flow, target)),
               window := e.window + [Elem(Sent, now, f)],
               nextTx := Next(e.nextTx)),
            [f],
            if CarriesRequest(e, req) then None else req)
  }

  /** Lines 186-191: resend the whole window when its front has timed out. */
  function ResendOnTimeout(e: Ep, now: int): RxOut {
    if e.window != [] && now - e.window[0].sendTime >= TIMEOUT_TIME then
      Retransmit(e, e.window[0].frame.seqNum, now)
    else RxOut(e, [])
  }

  function TxStep(e: Ep, req: Option<Msg>, now: int): TxOut
    requires IsVector(e.credits) && IsVector(e.flow)
    requires req.Some? ==> req.value.header.chan < CHANNEL_NUM
  {
    var p1 := SendPendingAck(e);
    var p2 := SendHalfTimeoutAck(p1.ep, now);
    var p3 := SendNormal(p2.ep, req, now);
    var p4 := ResendOnTimeout(p3.ep, now);
    TxOut(p4.ep, p1.frames + p2.frames + p3.frames + p4.frames, p3.unsent)
  }

  // ----- RX (tloe_receiver.c) -----

  datatype ReqType = ReqNormal | ReqDuplicate | ReqOos

  /** tloe_rx_get_req_type */
  function Classify(seqNum: int, nextRx: int): ReqType {
    var d := Cmp(seqNum, nextRx);
    if d == 0 then ReqNormal else if d < 0 then ReqDuplicate else ReqOos
  }

  /** serve_ack */
  function ServeAck(e: Ep, f: Frame, now: int): RxOut {
    var e1 := e.(window := Slide(e.window, f.seqAck));
    var r := if f.ack == TLOE_NAK then Retransmit(e1, Next(f.seqAck), now) else RxOut(e1, []);
    RxOut(r.ep.(cnt := r.ep.cnt.(ack := r.ep.cnt.ack + 1)), r.frames)
  }

  /** serve_normal_request and serve_zero_tlmsg_request; overflow of the inbox exits */
  function Accept(e: Ep, f: Frame): Ep
    requires |e.credits| == CHANNEL_NUM && f.chan < CHANNEL_NUM
  {
    if |e.inbox| + |f.msgs| > INBOX_CAPACITY then e.(status := InboxOverflow)
    else e.(nextRx := Next(f.seqNum),
            ackedSeq := UpdateAcked(e.ackedSeq, f.seqAck),
            inbox := e.inbox + f.msgs,
            ackPending := e.ackPending || f.msgs == [],
            credits := AddCredit(e.credits, f.chan, f.credit))
  }

  /** The frame parked in ack_buffer for a duplicate, or for an out-of-sequence arrival */
  function ParkedAck(e: Ep, f: Frame): Frame {
    if Classify(f.seqNum, e.nextRx) == ReqDuplicate then
      Frame(f.ftype, f.seqNum, f.seqNum, TLOE_ACK, 0, 0, [])
    else
      Frame(f.ftype, f.seqNum, Prev(e.nextRx), TLOE_NAK, 0, 0, [])
  }

  /** serve_duplicate_request, serve_oos_request; a full ack_buffer exits */
  function Park(e: Ep, f: Frame): Ep {
    if |e.ackBuf| >= ACK_CAPACITY then e.(status := AckBufferFull)
    else e.(ackBuf := e.ackBuf + [ParkedAck(e, f)],
            cnt := if Classify(f.seqNum, e.nextRx) == ReqDuplicate
                   then e.cnt.(dup := e.cnt.dup + 1) else e.cnt.(oos := e.cnt.oos + 1))
  }

  function RxStep(e: Ep, f: Frame, now: int): RxOut
    requires |e.credits| == CHANNEL_NUM && f.chan < CHANNEL_NUM
  {
    var a := ServeAck(e, f, now);
    var e1 := a.ep.(ackSent := false);
    if f.ftype == TYPE_ACKONLY then
      RxOut(e1.(ackedSeq := UpdateAcked(e1.ackedSeq, f.seqAck)), a.frames)
    else if Classify(f.seqNum, e1.nextRx) == ReqNormal then RxOut(Accept(e1, f), a.frames)
    else RxOut(Park(e1, f), a.frames)
  }
}
