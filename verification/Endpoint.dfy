/**
 tloe_endpoint_t: the rings, the credits and the numbers, updated in place by TX, RX and
 the main loop, each proved to be the step function of LinkSpec or HostSpec.
 */
module Endpoints {
  import opened Options
  import opened SeqNum
  import opened TileLink
  import opened FlowSpec
  import opened LinkSpec
  import opened CircularQueues
  import opened FlowControls

  ghost predicate Distinct5(a: object, b: object, c: object, d: object, e: object) {
    a != b && a != c && a != d && a != e && b != c && b != d && b != e && c != d && c != e && d != e
  }

  /** slide_window on the ring alone */
  method SlideRing(q: CircularQueue<Elem>, ack: int)
    requires q.Valid()
    modifies q`front
    ensures q.Valid() && q.Contents() == Slide(old(q.Contents()), ack)
  {
    var front := q.GetFront();
    while front.Some?
      invariant q.Valid()
      invariant front == if q.Contents() == [] then None else Some(q.Contents()[0])
      invariant Slide(q.Contents(), ack) == Slide(old(q.Contents()), ack)
      decreases |q.Contents()|
    {
      if Cmp(front.value.frame.seqNum, ack) > 0 {
        break;
      }
      var _ := q.Dequeue();
      front := q.GetFront();
    }
  }

  lemma Seam(done: seq<Elem>, w: seq<Elem>, k: nat, x: Elem)
    requires |done| == k < |w|
    ensures (done + w[k..])[k] == w[k]
    ensures (done + w[k..])[k := x] == (done + [x]) + w[k + 1..]
  {
  }

  /** retransmit on the ring alone: frames to send, elements stamped in place */
  method ResendRing(q: CircularQueue<Elem>, from: int, nextRx: int, now: int) returns (frames: seq<Frame>)
    requires q.Valid()
    modifies q.data
    ensures q.Valid() && q.Contents() == ResentWindow(old(q.Contents()), from, now)
    ensures frames == ResentFrames(old(q.Contents()), from, nextRx)
  {
    frames := [];
    ghost var w := q.Contents();
    var k := 0;
    var i := q.front;
    while i != q.rear
      invariant q.Valid() && k <= |w| == q.Count() && i < q.size
      invariant i == if k < |w| then q.Slot(k) else q.rear
      invariant q.Contents() == ResentWindow(w[..k], from, now) + w[k..]
      invariant frames == ResentFrames(w[..k], from, nextRx)
      decreases |w| - k
    {
      var element := q.data[i];
      q.ContentsAt(k);
      q.NextSlot(k);
      ResentSnoc(w, k, from, nextRx, now);
      assert element == w[k];
      if MustResend(element, from) {
        frames := frames + [element.frame.(seqAck := Prev(nextRx))];
        q.Replace(k, Elem(Resent, now, element.frame));
      }
      i := CircularQueues.Step(i, q.size);
      k := k + 1;
    }
    assert w[..k] == w;
  }

  lemma OneMore(before: seq<Msg>, msgs: seq<Msg>, i: nat)
    requires i < |msgs|
    ensures (before + msgs[..i]) + [msgs[i]] == before + msgs[..i + 1]
  {
  }

  /** The messages of a frame into the ring, up to the first that finds it full */
  method DeliverRing(q: CircularQueue<Msg>, msgs: seq<Msg>) returns (ok: bool)
    requires q.Valid()
    modifies q`rear, q.data
    ensures q.Valid()
    ensures ok <==> |old(q.Contents())| + |msgs| <= q.size - 1
    ensures ok ==> q.Contents() == old(q.Contents()) + msgs
  {
    ghost var before := q.Contents();
    var i := 0;
    ok := true;
    while i < |msgs| && ok
      invariant q.Valid() && i <= |msgs|
      invariant ok ==> q.Contents() == before + msgs[..i]
      invariant !ok ==> |before| + |msgs| > q.size - 1
      decreases |msgs| - i, ok
    {
      ok := q.Enqueue(msgs[i]);
      if ok {
        OneMore(before, msgs, i);
        i := i + 1;
      }
    }
    assert msgs[..|msgs|] == msgs;
  }

  class Link {
    const fc: FlowControl
    const window: CircularQueue<Elem>    // retransmit_buffer
    const ackBuf: CircularQueue<Frame>   // ack_buffer
    const inbox: CircularQueue<Msg>      // tl_msg_buffer
    var status: Status
    var nextTx: int
    var nextRx: int
    var ackedSeq: int
    var ackPending: bool                 // should_send_ackonly_frame
    var ackSent: bool                    // ackonly_frame_sent
    var cnt: Counters

    ghost function Repr(): set<object> {
      {this} + fc.Repr() + window.Repr() + ackBuf.Repr() + inbox.Repr()
    }

    ghost predicate Separate() {
      && (window as object) != ackBuf && (window as object) != inbox && (ackBuf as object) != inbox
      && Distinct5(fc.credits, fc.flow, window.data, ackBuf.data, inbox.data)
    }

    ghost predicate Valid()
      reads Repr()
    {
      && Separate()
      && fc.Valid() && window.Valid() && ackBuf.Valid() && inbox.Valid()
      && window.size == WINDOW_SIZE + 1 && ackBuf.size == ACK_CAPACITY + 1 && inbox.size == INBOX_CAPACITY + 1
    }

    ghost function View(): Ep
      requires Valid()
      reads Repr()
    {
      Ep(status, nextTx, nextRx, ackedSeq, window.Contents(), ackBuf.Contents(), inbox.Contents(),
         fc.credits[..], fc.flow[..], ackPending, ackSent, cnt)
    }

    /** The link part of tloe_endpoint_init. */
    constructor ()
      ensures Valid() && status == Running
      ensures nextTx == 0 && nextRx == 0 && ackedSeq == MAX_SEQ_NUM
      ensures window.Contents() == [] && ackBuf.Contents() == [] && inbox.Contents() == []
      ensures window.size == 5 && ackBuf.size == 2048 && inbox.size == 10000
      ensures fc.credits[..] == [128, 128, 128, 128, 128, 128] && fc.flow[..] == [0, 0, 0, 0, 0, 0]
      ensures !ackPending && !ackSent && cnt == Counters(0, 0, 0, 0)
    {
      fc := new FlowControl();
      window := new CircularQueue<Elem>(5);
      ackBuf := new CircularQueue<Frame>(2048);
      inbox := new CircularQueue<Msg>(10000);
      status := Running;
      nextTx, nextRx, ackedSeq := 0, 0, MAX_SEQ_NUM;
      ackPending, ackSent := false, false;
      cnt := Counters(0, 0, 0, 0);
    }

    // ----- Retransmission -----

    /** slide_window */
    method SlideWindow(ack: int)
      requires Valid()
      modifies window`front
      ensures Valid()
      ensures View() == old(View()).(window := Slide(old(View()).window, ack))
    {
      SlideRing(window, ack);
    }

    /** retransmit: resend every window frame not before `from`, stamping it in place */
    method Retransmit(from: int, now: int) returns (frames: seq<Frame>)
      requires Valid()
      modifies window.data
      ensures Valid()
      ensures RxOut(View(), frames) == LinkSpec.Retransmit(old(View()), from, now)
    {
      frames := ResendRing(window, from, nextRx, now);
    }

    // ----- TX -----

    /** The first two blocks of TX: at most two ack-only frames. */
    method SendAcks(now: int) returns (frames: seq<Frame>)
      requires Valid()
      modifies this`ackPending, this`ackSent, this`cnt
      ensures Valid()
      ensures var p1 := SendPendingAck(old(View()));
              var p2 := SendHalfTimeoutAck(p1.ep, now);
              View() == p2.ep && frames == p1.frames + p2.frames
    {
      frames := [];
      if ackPending {
        frames := [Frame(TYPE_ACKONLY, nextTx, Prev(nextRx), TLOE_ACK, 0, 0, [])];
        ackPending := false;
      }
      if window.IsFull() && !ackSent {
        var front := window.GetFront();
        if now - front.value.sendTime >= HALF_TIMEOUT {
          ackSent := true;
          frames := frames + [Frame(TYPE_ACKONLY, nextTx, Prev(nextRx), TLOE_ACK, 0, 0, [])];
          cnt := cnt.(ackOnly := cnt.ackOnly + 1);
        }
      }
    }

    /** Lines 138-150 of TX: the oldest parked ack, if there is one, replaces the fresh one. */
    method TakeAck() returns (ack: int)
      requires Valid()
      modifies ackBuf`front
      ensures Valid()
      ensures var e := old(View());
              && ack == (if e.ackBuf == [] then Prev(e.nextRx) else e.ackBuf[0].seqAck)
              && View() == e.(ackBuf := if e.ackBuf == [] then [] else e.ackBuf[1..])
    {
      ack := Prev(nextRx);
      if !ackBuf.IsEmpty() {
        var ackFrame := ackBuf.Dequeue();
        ack := ackFrame.value.seqAck;
      }
    }

    /** Lines 155-159 of TX: the power of two to return on the selected channel. */
    method TakeCredit(target: nat) returns (credit: nat)
      requires Valid() && target < CHANNEL_NUM && (target != 0 ==> fc.flow[target] > 0)
      modifies fc.flow
      ensures Valid()
      ensures var e := old(View());
              && credit == (if target == 0 then 0 else LargestPow(e.flow[target]))
              && View() == e.(flow := if target == 0 then e.flow else TakeFlow(e.flow, target))
    {
      credit := 0;
      if target != 0 {
        credit := fc.GetOutgoingCredits(target);
      }
    }

    /** Lines 161-184 of TX: a copy into the window, the frame out, the next number. */
    method ParkAndCount(f: Frame, now: int)
      requires Valid() && |window.Contents()| < WINDOW_SIZE
      modifies this`nextTx, window`rear, window.data
      ensures Valid()
      ensures View() == old(View()).(window := old(View()).window + [Elem(Sent, now, f)],
                                     nextTx := Next(old(nextTx)))
    {
      ghost var w := window.Contents();
      var enqueued := window.Enqueue(Elem(Init, now, f));
      assert enqueued;   // the BUG_ON behind enqueue_retransmit_buffer is not reached
      window.Replace(window.Count() - 1, Elem(Sent, now, f));
      assert window.Contents() == w + [Elem(Sent, now, f)];
      nextTx := Next(nextTx);
    }

    /** Lines 115-120 of TX: pay for the request if there is one; no messages if it cannot be paid. */
    method PayFor(req: Option<Msg>) returns (msgs: seq<Msg>)
      requires Valid()
      requires req.Some? ==> req.value.header.chan < CHANNEL_NUM
      modifies fc.credits
      ensures Valid()
      ensures var e := old(View());
              && msgs == (if CarriesRequest(e, req) then [req.value] else [])
              && View() == e.(credits := if CarriesRequest(e, req) then Pay(e.credits, req.value) else e.credits)
    {
      msgs := [];
      if req.Some? {
        var dec := fc.CreditDec(req.value);
        if dec != -1 {
          msgs := [req.value];
        }
      }
    }

    /** Lines 138-184 of TX: the frame, with its ack and the credit it returns. */
    method EmitFrame(msgs: seq<Msg>, target: nat, now: int) returns (f: Frame)
      requires Valid() && |window.Contents()| < WINDOW_SIZE
      requires target < CHANNEL_NUM && (target != 0 ==> fc.flow[target] > 0)
      modifies this`nextTx, fc.flow, ackBuf`front, window`rear, window.data
      ensures Valid()
      ensures var e := old(View());
              && f == Frame(TYPE_NORMAL, e.nextTx, if e.ackBuf == [] then Prev(e.nextRx) else e.ackBuf[0].seqAck,
                            TLOE_ACK, target, if target == 0 then 0 else LargestPow(e.flow[target]), msgs)
              && View() == e.(ackBuf := if e.ackBuf == [] then [] else e.ackBuf[1..],
                              flow := if target == 0 then e.flow else TakeFlow(e.flow, target),
                              window := e.window + [Elem(Sent, now, f)], nextTx := Next(e.nextTx))
    {
      var ack := TakeAck();
      var credit := TakeCredit(target);
      f := Frame(TYPE_NORMAL, nextTx, ack, TLOE_ACK, target, credit, msgs);
      ParkAndCount(f, now);
    }

    /** Lines 106-184 of TX. */
    method SendFrame(req: Option<Msg>, target: nat, now: int) returns (frames: seq<Frame>, unsent: Option<Msg>)
      requires Valid() && target == SelectMaxCreditChannel(fc.flow[..])
      requires req.Some? ==> req.value.header.chan < CHANNEL_NUM
      modifies this`nextTx, fc.credits, fc.flow, ackBuf`front, window`rear, window.data
      ensures Valid()
      ensures TxOut(View(), frames, unsent) == SendNormal(old(View()), req, now)
    {
      ghost var e := View();
      SelectedChannelHasCredit(e.flow);
      frames, unsent := [], req;
      if window.IsFull() {
        return;
      }
      if req.None? && ackBuf.IsEmpty() && target == 0 {
        return;
      }
      var msgs := PayFor(req);
      if req.Some? && msgs == [] && ackBuf.IsEmpty() {
        return;
      }
      assert BuildsFrame(e, req);
      var f := EmitFrame(msgs, target, now);
      assert f == NormalFrame(e, req);
      frames := [f];
      unsent := if msgs == [] then req else None;
    }

    /** Lines 186-191 of TX. */
    method ResendTimedOut(now: int) returns (frames: seq<Frame>)
      requires Valid()
      modifies window.data
      ensures Valid()
      ensures RxOut(View(), frames) == ResendOnTimeout(old(View()), now)
    {
      frames := [];
      var front := window.GetFront();
      if front.Some? && now - front.value.sendTime >= TIMEOUT_TIME {
        frames := Retransmit(front.value.frame.seqNum, now);
      }
    }

    /** TX: the frames put on the wire, and the message if it has to wait */
    method TX(req: Option<Msg>, now: int) returns (frames: seq<Frame>, unsent: Option<Msg>)
      requires Valid()
      requires req.Some? ==> req.value.header.chan < CHANNEL_NUM
      modifies this, fc.credits, fc.flow, ackBuf`front, window`rear, window.data
      ensures Valid()
      ensures TxOut(View(), frames, unsent) == TxStep(old(View()), req, now)
    {
      var target := fc.SelectMaxCreditChannel();
      var acks := SendAcks(now);
      var normal, held := SendFrame(req, target, now);
      var resent := ResendTimedOut(now);
      frames := acks + normal + resent;
      unsent := held;
    }

    // ----- RX -----

    method ResendOnNak(f: Frame, now: int) returns (frames: seq<Frame>)
      requires Valid()
      modifies window.data
      ensures Valid()
      ensures RxOut(View(), frames) == if f.ack == TLOE_NAK then LinkSpec.Retransmit(old(View()), Next(f.seqAck), now)
                                       else RxOut(old(View()), [])
    {
      frames := [];
      if f.ack == TLOE_NAK {
        frames := Retransmit(Next(f.seqAck), now);
      }
    }

    /** serve_ack */
    method ServeAck(f: Frame, now: int) returns (frames: seq<Frame>)
      requires Valid()
      modifies this`cnt, window`front, window.data
      ensures Valid()
      ensures RxOut(View(), frames) == LinkSpec.ServeAck(old(View()), f, now)
    {
      SlideWindow(f.seqAck);
      frames := ResendOnNak(f, now);
      cnt := cnt.(ack := cnt.ack + 1);
    }

    /** The mask loop: every message into tl_msg_buffer, exit when one does not fit */
    method Deliver(msgs: seq<Msg>) returns (ok: bool)
      requires Valid()
      modifies inbox`rear, inbox.data
      ensures Valid()
      ensures ok <==> |old(View()).inbox| + |msgs| <= INBOX_CAPACITY
      ensures ok ==> View() == old(View()).(inbox := old(View()).inbox + msgs)
    {
      ok := DeliverRing(inbox, msgs);
    }

    /** serve_normal_request and serve_zero_tlmsg_request */
    method Accept(f: Frame)
      requires Valid() && f.chan < CHANNEL_NUM
      modifies this, fc.credits, inbox`rear, inbox.data
      ensures Valid()
      ensures var r := LinkSpec.Accept(old(View()), f);
              status == r.status && (|old(View()).inbox| + |f.msgs| <= INBOX_CAPACITY ==> View() == r)
    {
      ghost var e := View();
      nextRx := Next(f.seqNum);
      ackedSeq := UpdateAcked(ackedSeq, f.seqAck);
      if f.msgs != [] {
        var ok := Deliver(f.msgs);
        if !ok {
          status := InboxOverflow;
          return;
        }
      } else {
        ackPending := true;
        assert e.inbox + [] == e.inbox;
      }
      fc.CreditInc(f.chan, f.credit);
    }

    /** The enqueue into ack_buffer */
    method ParkFrame(parked: Frame) returns (ok: bool)
      requires Valid()
      modifies ackBuf`rear, ackBuf.data
      ensures Valid()
      ensures ok <==> |old(View()).ackBuf| < ACK_CAPACITY
      ensures View() == if ok then old(View()).(ackBuf := old(View()).ackBuf + [parked]) else old(View())
    {
      ok := ackBuf.Enqueue(parked);
    }

    /** serve_duplicate_request and serve_oos_request */
    method Park(f: Frame)
      requires Valid() && Classify(f.seqNum, nextRx) != ReqNormal
      modifies this`status, this`cnt, ackBuf`rear, ackBuf.data
      ensures Valid()
      ensures View() == LinkSpec.Park(old(View()), f)
    {
      var dup := Classify(f.seqNum, nextRx) == ReqDuplicate;
      var parked := if dup then f.(seqAck := f.seqNum, ack := TLOE_ACK, chan := 0, credit := 0, msgs := [])
                    else f.(seqAck := Prev(nextRx), ack := TLOE_NAK, chan := 0, credit := 0, msgs := []);
      assert parked == ParkedAck(View(), f);
      var enqueued := ParkFrame(parked);
      if !enqueued {
        status := AckBufferFull;
        return;
      }
      if dup {
        cnt := cnt.(dup := cnt.dup + 1);
      } else {
        cnt := cnt.(oos := cnt.oos + 1);
      }
    }

    /** RX on a received frame */
    method RX(f: Frame, now: int) returns (frames: seq<Frame>)
      requires Valid() && f.chan < CHANNEL_NUM && status.Running?
      modifies this, fc.credits, window`front, window.data, ackBuf`rear, ackBuf.data, inbox`rear, inbox.data
      ensures Valid()
      ensures var r := RxStep(old(View()), f, now);
              && frames == r.frames && status == r.ep.status
              && (status != InboxOverflow ==> View() == r.ep)
    {
      frames := ServeAck(f, now);
      ackSent := false;
      if f.ftype == TYPE_ACKONLY {
        ackedSeq := UpdateAcked(ackedSeq, f.seqAck);
        return;
      }
      if Classify(f.seqNum, nextRx) == ReqNormal {
        Accept(f);
      } else {
        Park(f);
      }
    }
  }

  lemma ResentSnoc(w: seq<Elem>, k: nat, from: int, nextRx: int, now: int)
    requires k < |w|
    ensures ResentFrames(w[..k + 1], from, nextRx)
         == ResentFrames(w[..k], from, nextRx)
            + (if MustResend(w[k], from) then [w[k].frame.(seqAck := Prev(nextRx))] else [])
    ensures ResentWindow(w[..k + 1], from, now) + w[k + 1..]
         == (ResentWindow(w[..k], from, now) + w[k..])
            [k := if MustResend(w[k], from) then Elem(Resent, now, w[k].frame) else w[k]]
  {
    assert w[..k + 1] == w[..k] + [w[k]];
    FramesSnoc(w[..k], w[k], from, nextRx);
    WindowSnoc(w[..k], w[k], from, now);
    Seam(ResentWindow(w[..k], from, now), w, k, if MustResend(w[k], from) then Elem(Resent, now, w[k].frame) else w[k]);
  }

  lemma {:induction false} FramesSnoc(w: seq<Elem>, el: Elem, from: int, nextRx: int)
    ensures ResentFrames(w + [el], from, nextRx)
         == ResentFrames(w, from, nextRx)
            + (if MustResend(el, from) then [el.frame.(seqAck := Prev(nextRx))] else [])
  {
    if w != [] {
      FramesSnoc(w[1..], el, from, nextRx);
      assert (w + [el])[1..] == w[1..] + [el];
    }
  }

  lemma {:induction false} WindowSnoc(w: seq<Elem>, el: Elem, from: int, now: int)
    ensures ResentWindow(w + [el], from, now)
         == ResentWindow(w, from, now) + [if MustResend(el, from) then Elem(Resent, now, el.frame) else el]
  {
    if w != [] {
      WindowSnoc(w[1..], el, from, now);
      assert (w + [el])[1..] == w[1..] + [el];
    }
  }
}
