/** What TxStep and RxStep do, in the terms the invariant proofs need. */
module LinkFacts {
  import opened Options
  import opened SeqNum
  import opened TileLink
  import opened FlowSpec
  import opened LinkSpec

  /** Same frames, whatever their state and send time. */
  predicate SameFrames(w: seq<Elem>, v: seq<Elem>) {
    |w| == |v| && forall k :: 0 <= k < |w| ==> w[k].frame == v[k].frame
  }

  /** retransmit leaves the window's frames and their order alone. */
  lemma {:induction false} RetransmitKeepsFrames(w: seq<Elem>, from: int, now: int)
    ensures SameFrames(w, ResentWindow(w, from, now))
  {
    if w != [] {
      RetransmitKeepsFrames(w[1..], from, now);
      var r := ResentWindow(w, from, now);
      forall k | 0 <= k < |w| ensures w[k].frame == r[k].frame {
        if k > 0 {
          assert r[k] == ResentWindow(w[1..], from, now)[k - 1] && w[k] == w[1..][k - 1];
        }
      }
    }
  }

  predicate IsResend(f: Frame, w: seq<Elem>, nextRx: int) {
    exists k :: 0 <= k < |w| && f == w[k].frame.(seqAck := Prev(nextRx))
  }

  lemma {:induction false} ResentAreFromWindow(w: seq<Elem>, from: int, nextRx: int)
    ensures forall i :: 0 <= i < |ResentFrames(w, from, nextRx)| ==>
              IsResend(ResentFrames(w, from, nextRx)[i], w, nextRx)
  {
    if w != [] {
      var rest := ResentFrames(w[1..], from, nextRx);
      ResentAreFromWindow(w[1..], from, nextRx);
      var all := ResentFrames(w, from, nextRx);
      forall i | 0 <= i < |all| ensures IsResend(all[i], w, nextRx) {
        if MustResend(w[0], from) && i == 0 {
          assert all[0] == w[0].frame.(seqAck := Prev(nextRx));
        } else {
          var j := if MustResend(w[0], from) then i - 1 else i;
          assert all[i] == rest[j];
          var k :| 0 <= k < |w[1..]| && rest[j] == w[1..][k].frame.(seqAck := Prev(nextRx));
          assert w[k + 1] == w[1..][k];
        }
      }
    }
  }

  lemma SendNormalIgnoresFlags(e: Ep, e2: Ep, req: Option<Msg>, now: int)
    requires IsVector(e.credits) && IsVector(e.flow)
    requires req.Some? ==> req.value.header.chan < CHANNEL_NUM
    requires e2 == e.(ackPending := e2.ackPending, ackSent := e2.ackSent, cnt := e2.cnt)
    ensures var s, s2 := SendNormal(e, req, now), SendNormal(e2, req, now);
            && s2.ep == s.ep.(ackPending := e2.ackPending, ackSent := e2.ackSent, cnt := e2.cnt)
            && s2.frames == s.frames && s2.unsent == s.unsent
  {
    assert BuildsFrame(e2, req) == BuildsFrame(e, req);
    if BuildsFrame(e, req) {
      assert NormalFrame(e2, req) == NormalFrame(e, req);
    }
  }

  /** The two optional ack-only frames at the head of TX. */
  lemma AckPhases(e: Ep, now: int)
    ensures var p1 := SendPendingAck(e);
            var p2 := SendHalfTimeoutAck(p1.ep, now);
            && p2.ep == e.(ackPending := false, ackSent := p2.ep.ackSent, cnt := p2.ep.cnt)
            && forall f :: f in p1.frames + p2.frames ==> f == AckOnlyFrame(e)
  {
  }

  /** The resend at the tail of TX. */
  lemma ResendPhase(e: Ep, now: int)
    ensures var p := ResendOnTimeout(e, now);
            && SameFrames(e.window, p.ep.window)
            && p.ep == e.(window := p.ep.window)
            && forall f :: f in p.frames ==> IsResend(f, p.ep.window, e.nextRx)
  {
    var w := e.window;
    var p := ResendOnTimeout(e, now);
    if w != [] && now - w[0].sendTime >= TIMEOUT_TIME {
      var from := w[0].frame.seqNum;
      RetransmitKeepsFrames(w, from, now);
      ResentAreFromWindow(w, from, e.nextRx);
      forall f | f in p.frames ensures IsResend(f, p.ep.window, e.nextRx) {
        var i :| 0 <= i < |p.frames| && p.frames[i] == f;
        assert IsResend(ResentFrames(w, from, e.nextRx)[i], w, e.nextRx);
        var k :| 0 <= k < |w| && f == w[k].frame.(seqAck := Prev(e.nextRx));
        assert f == p.ep.window[k].frame.(seqAck := Prev(e.nextRx));
      }
    }
  }

  /**
   TX is SendNormal up to flags, counters and send times; everything it puts on the wire
   is an ack-only frame, the new frame, or a copy of a window frame with a fresh ack.
   */
  lemma TxEffect(e: Ep, req: Option<Msg>, now: int)
    requires IsVector(e.credits) && IsVector(e.flow)
    requires req.Some? ==> req.value.header.chan < CHANNEL_NUM
    ensures var t, s := TxStep(e, req, now), SendNormal(e, req, now);
            && SameFrames(s.ep.window, t.ep.window)
            && t.ep == s.ep.(window := t.ep.window, ackPending := false, ackSent := t.ep.ackSent, cnt := t.ep.cnt)
            && t.unsent == s.unsent
    ensures forall f :: f in TxStep(e, req, now).frames ==>
              || f == AckOnlyFrame(e) || f in SendNormal(e, req, now).frames
              || IsResend(f, TxStep(e, req, now).ep.window, e.nextRx)
  {
    AckPhases(e, now);
    var p1 := SendPendingAck(e);
    var p2 := SendHalfTimeoutAck(p1.ep, now);
    SendNormalIgnoresFlags(e, p2.ep, req, now);
    var p3 := SendNormal(p2.ep, req, now);
    ResendPhase(p3.ep, now);
    var p4 := ResendOnTimeout(p3.ep, now);
    assert p3.ep.nextRx == e.nextRx;
    assert TxStep(e, req, now).frames == (p1.frames + p2.frames) + p3.frames + p4.frames;
  }

  // ----- The window as consecutive numbers -----

  /** Consecutive modular numbers starting at the ghost number base. */
  predicate Consecutive(w: seq<Elem>, base: int) {
    forall k :: 0 <= k < |w| ==> w[k].frame.seqNum == (base + k) % SEQ_MOD
  }

  /**
   On an ack that is not ahead of the window and less than 2^21 behind its front,
   slide_window drops exactly the frames the ack covers.
   */
  lemma {:induction false} SlideIsExact(w: seq<Elem>, base: int, ackG: int)
    requires |w| <= WINDOW_SIZE && Consecutive(w, base)
    requires base - HALF < ackG < base + |w|
    ensures Slide(w, ackG % SEQ_MOD) == w[if ackG < base then 0 else ackG + 1 - base..]
  {
    if w != [] {
      CmpRefines(base, ackG);
      if ackG >= base {
        forall k | 0 <= k < |w[1..]| ensures w[1..][k].frame.seqNum == (base + 1 + k) % SEQ_MOD {
          assert w[1..][k] == w[k + 1];
          assert base + 1 + k == base + (k + 1);
        }
        SlideIsExact(w[1..], base + 1, ackG);
        var j := ackG + 1 - base;
        assert w[1..][j - 1..] == w[j..];
      }
    }
  }

  /**
   The bound in SlideIsExact is sharp: on an ack from before the window, less than a full
   circle old, slide_window leaves the window alone if and only if the ack is less than
   2^21 behind the front (or exactly 2^21 with the front in the lower half of the circle);
   otherwise it discards a frame that was never acknowledged.
   */
  lemma OldAckIsHarmlessIff(w: seq<Elem>, base: int, ackG: int)
    requires w != [] && Consecutive(w, base)
    requires 0 < base - ackG < SEQ_MOD
    ensures Slide(w, ackG % SEQ_MOD) == w
       <==> base - ackG < HALF || (base - ackG == HALF && base % SEQ_MOD < HALF)
  {
  }

  lemma SlideShrinks(w: seq<Elem>, ack: int)
    ensures Slide(w, ack) == w || |Slide(w, ack)| < |w|
  {
  }

  // ----- Go-back-N -----

  /** Every element of w resent once, in order, with a refreshed ack and nothing else changed. */
  predicate ResentEntirely(w: seq<Elem>, frames: seq<Frame>, w': seq<Elem>, nextRx: int, now: int) {
    && |frames| == |w| == |w'|
    && forall k :: 0 <= k < |w| ==>
         frames[k] == w[k].frame.(seqAck := Prev(nextRx)) && w'[k] == Elem(Resent, now, w[k].frame)
  }

  lemma {:induction false} ResendsEverything(w: seq<Elem>, base: int, fromG: int, nextRx: int, now: int)
    requires Consecutive(w, base) && fromG <= base && base + |w| - fromG < HALF
    ensures var from := fromG % SEQ_MOD;
            ResentEntirely(w, ResentFrames(w, from, nextRx), ResentWindow(w, from, now), nextRx, now)
  {
    if w != [] {
      assert w[0].frame.seqNum == (base + 0) % SEQ_MOD;
      CmpRefines(base, fromG);
      var rest := w[1..];
      forall k | 0 <= k < |rest| ensures rest[k].frame.seqNum == (base + 1 + k) % SEQ_MOD {
        assert rest[k] == w[k + 1];
        assert base + 1 + k == base + (k + 1);
      }
      ResendsEverything(rest, base + 1, fromG, nextRx, now);
      var fs, v := ResentFrames(w, fromG % SEQ_MOD, nextRx), ResentWindow(w, fromG % SEQ_MOD, now);
      forall k | 0 <= k < |w|
        ensures fs[k] == w[k].frame.(seqAck := Prev(nextRx)) && v[k] == Elem(Resent, now, w[k].frame)
      {
        if k > 0 {
          assert fs[k] == ResentFrames(rest, fromG % SEQ_MOD, nextRx)[k - 1];
          assert v[k] == ResentWindow(rest, fromG % SEQ_MOD, now)[k - 1];
          assert w[k] == rest[k - 1];
        }
      }
    }
  }

  /** On a timeout of its front the whole window is resent. */
  lemma TimeoutResendsWindow(e: Ep, base: int, now: int)
    requires Consecutive(e.window, base) && |e.window| <= WINDOW_SIZE
    requires e.window != [] && now - e.window[0].sendTime >= TIMEOUT_TIME
    ensures var p := ResendOnTimeout(e, now);
            ResentEntirely(e.window, p.frames, p.ep.window, e.nextRx, now) && p.ep == e.(window := p.ep.window)
  {
    assert e.window[0].frame.seqNum == (base + 0) % SEQ_MOD;
    ResendsEverything(e.window, base, base, e.nextRx, now);
  }

  predicate TimedOut(w: seq<Elem>, now: int) {
    w != [] && now - w[0].sendTime >= TIMEOUT_TIME
  }

  /** The ack-only frames at the head of TX. */
  function AckFrames(e: Ep, now: int): seq<Frame> {
    var p := SendPendingAck(e);
    p.frames + SendHalfTimeoutAck(p.ep, now).frames
  }

  /**
   All that TX sends: the ack-only frames, the new frame if there is one, and then, if and
   only if the front had timed out, every frame of the window that now includes the new
   one, once, in order, changed only in its ack.
   */
  predicate GoesBackN(e: Ep, req: Option<Msg>, now: int)
    requires IsVector(e.credits) && IsVector(e.flow)
    requires req.Some? ==> req.value.header.chan < CHANNEL_NUM
  {
    var t, s := TxStep(e, req, now), SendNormal(e, req, now);
    var head, w := AckFrames(e, now) + s.frames, s.ep.window;
    if TimedOut(e.window, now) then
      && |t.frames| == |head| + |w| && t.frames[..|head|] == head
      && ResentEntirely(w, t.frames[|head|..], t.ep.window, e.nextRx, now)
    else t.frames == head && t.ep.window == w
  }

  /** The frame TX adds continues the window and does not change what is at its front. */
  lemma SendNormalExtends(e: Ep, req: Option<Msg>, base: int, now: int)
    requires IsVector(e.credits) && IsVector(e.flow)
    requires req.Some? ==> req.value.header.chan < CHANNEL_NUM
    requires Consecutive(e.window, base) && |e.window| <= WINDOW_SIZE
    requires e.nextTx == (base + |e.window|) % SEQ_MOD
    ensures var w := SendNormal(e, req, now).ep.window;
            && Consecutive(w, base) && |w| <= WINDOW_SIZE
            && (TimedOut(w, now) <==> TimedOut(e.window, now))
    ensures SendNormal(e, req, now).ep.nextRx == e.nextRx
  {
  }

  lemma TxGoesBackN(e: Ep, req: Option<Msg>, base: int, now: int)
    requires IsVector(e.credits) && IsVector(e.flow)
    requires req.Some? ==> req.value.header.chan < CHANNEL_NUM
    requires Consecutive(e.window, base) && |e.window| <= WINDOW_SIZE
    requires e.nextTx == (base + |e.window|) % SEQ_MOD
    ensures GoesBackN(e, req, now)
  {
    AckPhases(e, now);
    var p1 := SendPendingAck(e);
    var p2 := SendHalfTimeoutAck(p1.ep, now);
    SendNormalIgnoresFlags(e, p2.ep, req, now);
    SendNormalExtends(e, req, base, now);
    var p3 := SendNormal(p2.ep, req, now);
    var p4 := ResendOnTimeout(p3.ep, now);
    var head := AckFrames(e, now) + SendNormal(e, req, now).frames;
    if TimedOut(e.window, now) {
      TimeoutResendsWindow(p3.ep, base, now);
    }
    assert TxStep(e, req, now).frames == head + p4.frames;
    assert (head + p4.frames)[|head|..] == p4.frames;
  }

  /**
   On a NAK from any peer, fresh enough for the comparison, the frames it covers leave the
   window and all the others are resent.
   */
  lemma NakResendsRest(e: Ep, f: Frame, base: int, ackG: int, now: int)
    requires Consecutive(e.window, base) && |e.window| <= WINDOW_SIZE
    requires f.ack == TLOE_NAK && f.seqAck == ackG % SEQ_MOD
    requires base + WINDOW_SIZE - HALF < ackG < base + |e.window|
    ensures var j := if ackG < base then 0 else ackG + 1 - base;
            var r := ServeAck(e, f, now);
            && j <= |e.window|
            && ResentEntirely(e.window[j..], r.frames, r.ep.window, e.nextRx, now)
            && r.ep == e.(window := r.ep.window, cnt := r.ep.cnt)
  {
    var w := e.window;
    var j := if ackG < base then 0 else ackG + 1 - base;
    SlideIsExact(w, base, ackG);
    NextRefines(ackG);
    var rest := w[j..];
    forall k | 0 <= k < |rest| ensures rest[k].frame.seqNum == (base + j + k) % SEQ_MOD {
      assert rest[k] == w[j + k];
      assert base + j + k == base + (j + k);
    }
    ResendsEverything(rest, base + j, ackG + 1, e.nextRx, now);
  }

  // ----- Shape -----

  lemma SendNormalKeepsShape(e: Ep, req: Option<Msg>, now: int)
    requires Shape(e)
    requires req.Some? ==> req.value.header.chan < CHANNEL_NUM
    ensures Shape(SendNormal(e, req, now).ep)
    ensures SendNormal(e, req, now).unsent in {None, req}
  {
    var s := SendNormal(e, req, now);
    if BuildsFrame(e, req) {
      SelectedChannelHasCredit(e.flow);
      assert IsVector(s.ep.credits) && IsVector(s.ep.flow);
      assert s.ep.nextTx == (e.nextTx + 1) % SEQ_MOD;
    }
  }

  lemma TxKeepsShape(e: Ep, req: Option<Msg>, now: int)
    requires Shape(e)
    requires req.Some? ==> req.value.header.chan < CHANNEL_NUM
    ensures Shape(TxStep(e, req, now).ep)
    ensures TxStep(e, req, now).unsent in {None, req}
    ensures TxStep(e, req, now).ep.status == e.status && TxStep(e, req, now).ep.inbox == e.inbox
  {
    TxEffect(e, req, now);
    SendNormalKeepsShape(e, req, now);
    var s, t := SendNormal(e, req, now), TxStep(e, req, now);
    ShapeIgnoresFlags(s.ep, t.ep);
  }

  lemma ShapeIgnoresFlags(e: Ep, e': Ep)
    requires Shape(e) && |e'.window| == |e.window|
    requires e' == e.(window := e'.window, ackPending := e'.ackPending, ackSent := e'.ackSent, cnt := e'.cnt)
    ensures Shape(e')
  {
  }

  lemma ServeAckKeepsShape(e: Ep, f: Frame, now: int)
    requires Shape(e)
    ensures var a := ServeAck(e, f, now).ep;
            Shape(a) && a == e.(window := a.window, cnt := a.cnt)
  {
  }

  lemma RxKeepsShape(e: Ep, f: Frame, now: int)
    requires Shape(e) && f.chan < CHANNEL_NUM && IsSeq(f.seqAck)
    ensures Shape(RxStep(e, f, now).ep)
    ensures var i := RxStep(e, f, now).ep.inbox;
            i == e.inbox || i == e.inbox + f.msgs
  {
    ServeAckKeepsShape(e, f, now);
    var a := ServeAck(e, f, now).ep;
    var e1 := a.(ackSent := false);
    assert Shape(e1);
    AcceptKeepsShape(e1, f);
    ParkKeepsShape(e1, f);
  }

  lemma AcceptKeepsShape(e: Ep, f: Frame)
    requires Shape(e) && f.chan < CHANNEL_NUM && IsSeq(f.seqAck)
    ensures Shape(Accept(e, f))
    ensures Accept(e, f).inbox == e.inbox || Accept(e, f).inbox == e.inbox + f.msgs
  {
  }

  lemma ParkKeepsShape(e: Ep, f: Frame)
    requires Shape(e)
    ensures Shape(Park(e, f)) && Park(e, f).inbox == e.inbox
  {
  }
}
