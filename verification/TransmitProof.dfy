/** TX keeps both directions of the invariant. */
module TransmitProof {
  import opened Options
  import opened SeqNum
  import opened TileLink
  import opened FlowSpec
  import opened LinkSpec
  import opened HostSpec
  import opened World
  import opened Invariant
  import opened LinkFacts

  /**
   What a transmit step does to the sequence-number side of a node: either nothing but
   flags and send times, or one frame f more in the history and at the back of the
   window, with one parked ack, if any, used up.
   */
  predicate Sends(n: Node, n': Node, built: bool, f: Frame) {
    var e, e' := n.h.link, n'.h.link;
    && n' == n.(h := n'.h, sent := n'.sent, parked := n'.parked, taken := n'.taken)
    && e'.status == e.status && e'.nextRx == e.nextRx && e'.inbox == e.inbox
    && (forall k :: 0 <= k < |e.window| && k < |e'.window| ==> e'.window[k].frame == e.window[k].frame)
    && (if built then
          && |e.window| < WINDOW_SIZE
          && n'.sent == n.sent + [f]
          && e'.nextTx == Next(e.nextTx)
          && |e'.window| == |e.window| + 1 && e'.window[|e.window|].frame == f
          && f.seqNum == e.nextTx
          && f.seqAck == (if e.ackBuf == [] then Prev(e.nextRx) else e.ackBuf[0].seqAck)
          && f.ftype == TYPE_NORMAL && f.ack == TLOE_ACK
          && e'.ackBuf == (if e.ackBuf == [] then [] else e.ackBuf[1..])
          && n'.parked == (if n.parked == [] then [] else n.parked[1..])
        else
          && n'.sent == n.sent && e'.nextTx == e.nextTx && |e'.window| == |e.window|
          && e'.ackBuf == e.ackBuf && n'.parked == n.parked)
  }

  /** What can be on the wire after such a step. */
  predicate MayEmit(g: Frame, n: Node, n': Node, built: bool, f: Frame) {
    || g == AckOnlyFrame(n.h.link)
    || (built && g == f)
    || IsResend(g, n'.h.link.window, n.h.link.nextRx)
  }

  lemma SendNormalEffect(e: Ep, req: Option<Msg>, now: int)
    requires IsVector(e.credits) && IsVector(e.flow)
    requires req.Some? ==> req.value.header.chan < CHANNEL_NUM
    ensures var s, built := SendNormal(e, req, now), BuildsFrame(e, req);
            var f := NormalFrame(e, req);
            && s.ep.status == e.status && s.ep.nextRx == e.nextRx && s.ep.inbox == e.inbox
            && f.seqNum == e.nextTx && f.ftype == TYPE_NORMAL && f.ack == TLOE_ACK
            && f.seqAck == (if e.ackBuf == [] then Prev(e.nextRx) else e.ackBuf[0].seqAck)
            && (if built then
                  && |e.window| < WINDOW_SIZE
                  && s.ep.window == e.window + [Elem(Sent, now, f)]
                  && s.ep.nextTx == Next(e.nextTx)
                  && s.ep.ackBuf == (if e.ackBuf == [] then [] else e.ackBuf[1..])
                  && s.frames == [f]
                else s.ep == e && s.frames == [])
  {
  }

  /** The request a node would hand to TX, and the frame TX would make of it. */
  function Request(n: Node): Option<Msg> {
    Choose(n.h).chosen
  }

  lemma ChooseKeepsLink(h: Host)
    requires HostShape(h)
    ensures Choose(h).host.link == h.link
    ensures Choose(h).chosen.Some? ==> WellSized(Choose(h).chosen.value)
  {
  }

  lemma TransmitLink(n: Node, now: int)
    requires HostShape(n.h)
    ensures Request(n).Some? ==> WellSized(Request(n).value)
    ensures AfterTransmit(n, now).h.link == TxStep(n.h.link, Request(n), now).ep
    ensures AfterTransmit(n, now).h.pending == TxStep(n.h.link, Request(n), now).unsent
    ensures HostSpec.Transmit(n.h, now).frames == TxStep(n.h.link, Request(n), now).frames
  {
    ChooseKeepsLink(n.h);
  }

  lemma TransmitEmits(n: Node, n': Node, now: int, req: Option<Msg>, g: Frame)
    requires HostShape(n.h) && (req.Some? ==> WellSized(req.value))
    requires n'.h.link == TxStep(n.h.link, req, now).ep && g in TxStep(n.h.link, req, now).frames
    ensures MayEmit(g, n, n', BuildsFrame(n.h.link, req), NormalFrame(n.h.link, req))
  {
    TxEffect(n.h.link, req, now);
    SendNormalEffect(n.h.link, req, now);
  }

  lemma TransmitEffect(n: Node, now: int)
    requires HostShape(n.h) && |n.parked| == |n.h.link.ackBuf|
    ensures Request(n).Some? ==> WellSized(Request(n).value)
    ensures Sends(n, AfterTransmit(n, now), BuildsFrame(n.h.link, Request(n)), NormalFrame(n.h.link, Request(n)))
    ensures forall g :: g in HostSpec.Transmit(n.h, now).frames ==>
              MayEmit(g, n, AfterTransmit(n, now), BuildsFrame(n.h.link, Request(n)), NormalFrame(n.h.link, Request(n)))
  {
    TransmitLink(n, now);
    TransmitSends(n, now);
    forall g | g in HostSpec.Transmit(n.h, now).frames
      ensures MayEmit(g, n, AfterTransmit(n, now), BuildsFrame(n.h.link, Request(n)), NormalFrame(n.h.link, Request(n)))
    {
      TransmitEmits(n, AfterTransmit(n, now), now, Request(n), g);
    }
  }

  lemma TransmitSends(n: Node, now: int)
    requires HostShape(n.h) && |n.parked| == |n.h.link.ackBuf|
    ensures Request(n).Some? ==> WellSized(Request(n).value)
    ensures Sends(n, AfterTransmit(n, now), BuildsFrame(n.h.link, Request(n)), NormalFrame(n.h.link, Request(n)))
  {
    ChooseKeepsLink(n.h);
    var e, req := n.h.link, Request(n);
    TxEffect(e, req, now);
    SendNormalEffect(e, req, now);
    TransmitRelates(n, now, TxStep(e, req, now), BuildsFrame(e, req), NormalFrame(e, req));
  }

  lemma TransmitRelates(n: Node, now: int, t: TxOut, built: bool, f: Frame)
    requires HostShape(n.h) && |n.parked| == |n.h.link.ackBuf|
    requires Choose(n.h).host.link == n.h.link
    requires Request(n).Some? ==> Request(n).value.header.chan < CHANNEL_NUM
    requires t == TxStep(n.h.link, Request(n), now)
    requires t.ep.status == n.h.link.status && t.ep.nextRx == n.h.link.nextRx && t.ep.inbox == n.h.link.inbox
    requires f.seqNum == n.h.link.nextTx && f.ftype == TYPE_NORMAL && f.ack == TLOE_ACK
    requires f.seqAck == (if n.h.link.ackBuf == [] then Prev(n.h.link.nextRx) else n.h.link.ackBuf[0].seqAck)
    requires built ==> && |n.h.link.window| < WINDOW_SIZE
                       && t.ep.nextTx == Next(n.h.link.nextTx)
                       && t.ep.ackBuf == (if n.h.link.ackBuf == [] then [] else n.h.link.ackBuf[1..])
                       && SameFrames(n.h.link.window + [Elem(Sent, now, f)], t.ep.window)
    requires !built ==> && t.ep.nextTx == n.h.link.nextTx && t.ep.ackBuf == n.h.link.ackBuf
                        && SameFrames(n.h.link.window, t.ep.window)
    ensures Sends(n, AfterTransmit(n, now), built, f)
  {
  }

  lemma ChosenAdmissible(n: Node)
    requires AllAdmissible(n.h.msgBuf) && AllAdmissible(n.h.respBuf) && AllAdmissible(Held(n))
    ensures Request(n).Some? ==> Admissible(Request(n).value)
  {
    if n.h.pending.Some? {
      assert Admissible(Held(n)[0]);
    }
  }

  lemma BuiltFrameOk(e: Ep, req: Option<Msg>)
    requires IsVector(e.credits) && IsVector(e.flow)
    requires req.Some? ==> Admissible(req.value)
    ensures FrameOk(NormalFrame(e, req))
  {
    SelectedChannelHasCredit(e.flow);
  }

  // ----- Channels -----

  lemma FwdAppend(s: Node, r: Node, fwd: seq<Flight>, more: seq<Flight>, lag: int)
    requires FwdInv(s, r, fwd, lag)
    requires forall i :: 0 <= i < |more| ==> FwdOk(s, r, more[i], lag) && more[i].txSnap == GTx(s)
    ensures FwdInv(s, r, fwd + more, lag)
  {
  }

  lemma BwdAppend(s: Node, r: Node, bwd: seq<Flight>, more: seq<Flight>)
    requires BwdInv(s, r, bwd)
    requires forall i :: 0 <= i < |more| ==> BwdOk(s, r, more[i]) && more[i].rxSnap == Seen(r)
    ensures BwdInv(s, r, bwd + more)
  {
  }

  /** Sending more does not disturb frames already in flight. */
  lemma FwdStable(s: Node, s': Node, r: Node, fwd: seq<Flight>, lag: int)
    requires FwdInv(s, r, fwd, lag)
    requires s'.txOff == s.txOff && s'.open == s.open && |s.sent| <= |s'.sent| && s'.sent[..|s.sent|] == s.sent
    ensures FwdInv(s', r, fwd, lag)
  {
  }

  // ----- The sending direction -----

  lemma SendsKeepsWindow(n: Node, n': Node, built: bool, f: Frame)
    requires Sends(n, n', built, f) && (built ==> FrameOk(f))
    requires SentInv(n) && WindowInv(n)
    ensures SentInv(n') && WindowInv(n')
    ensures Base(n') == Base(n)
  {
    NextRefines(GTx(n));
    if built {
      var w, w' := n.h.link.window, n'.h.link.window;
      forall k | 0 <= k < |w'| ensures w'[k].frame == n'.sent[|n'.sent| - |w'| + k] {
        if k < |w| {
          assert w'[k].frame == w[k].frame == n.sent[|n.sent| - |w| + k];
        }
      }
    }
  }

  /** A frame in the window, resent, is a proper forward flight. */
  lemma WindowFrameForward(n: Node, p: Node, k: int, g: Frame, lag: int)
    requires SentInv(n) && WindowInv(n) && Meets(n, p) && WINDOW_SIZE + n.open <= lag
    requires 0 <= k < |n.h.link.window| && SameButAck(g, n.h.link.window[k].frame)
    ensures FwdOk(n, p, Tag(g, GTx(n), Seen(n)), lag)
  {
    var i := |n.sent| - |n.h.link.window| + k;
    assert n.h.link.window[k].frame == n.sent[i];
    assert g.seqNum == (n.txOff + i) % SEQ_MOD && FrameOk(n.sent[i]);
    UnwrapExact(n.txOff + i, GTx(n));
  }

  lemma EmittedForward(n: Node, n': Node, built: bool, f: Frame, p: Node, g: Frame, lag: int)
    requires Sends(n, n', built, f) && MayEmit(g, n, n', built, f)
    requires n.h.link.nextTx == GTx(n) % SEQ_MOD && n.open <= |n.sent|
    requires SentInv(n') && WindowInv(n') && Meets(n', p) && WINDOW_SIZE + n.open <= lag
    ensures FwdOk(n', p, Tag(g, GTx(n'), Seen(n')), lag)
  {
    UnwrapExact(GTx(n), GTx(n'));
    if built && g == f {
      WindowFrameForward(n', p, |n.h.link.window|, g, lag);
    } else if IsResend(g, n'.h.link.window, n.h.link.nextRx) {
      var k :| 0 <= k < |n'.h.link.window| && g == n'.h.link.window[k].frame.(seqAck := Prev(n.h.link.nextRx));
      WindowFrameForward(n', p, k, g, lag);
    }
  }

  lemma WindowNumber(n: Node, k: nat)
    requires SentInv(n) && WindowInv(n) && k < |n.h.link.window|
    ensures Unwrap(n.h.link.window[k].frame.seqNum, GTx(n)) == Base(n) + k
  {
    var i := |n.sent| - |n.h.link.window| + k;
    assert n.h.link.window[k].frame == n.sent[i];
    UnwrapExact(n.txOff + i, GTx(n));
  }

  /** Nothing a running endpoint sends carries the number of an opening frame. */
  lemma EmittedIsLate(n: Node, n': Node, built: bool, f: Frame, g: Frame)
    requires Sends(n, n', built, f) && MayEmit(g, n, n', built, f)
    requires SentInv(n) && WindowInv(n) && SentInv(n') && WindowInv(n')
    ensures Unwrap(g.seqNum, GTx(n')) >= n.txOff + n.open
  {
    UnwrapExact(GTx(n), GTx(n'));
    if g != AckOnlyFrame(n.h.link) && !(built && g == f) {
      var w' := n'.h.link.window;
      var k :| 0 <= k < |w'| && g == w'[k].frame.(seqAck := Prev(n.h.link.nextRx));
      WindowNumber(n', k);
    }
  }

  lemma SendsKeepsForward(n: Node, n': Node, built: bool, f: Frame, fs: seq<Frame>,
                          p: Node, inc: seq<Flight>, out: seq<Flight>, lag: int)
    requires Sends(n, n', built, f) && (built ==> FrameOk(f))
    requires forall g :: g in fs ==> MayEmit(g, n, n', built, f)
    requires WINDOW_SIZE + n.open <= lag && Dir(n, p, out, inc, lag)
    ensures Dir(n', p, out + TagAll(fs, GTx(n'), Seen(n')), inc, lag)
  {
    var more := TagAll(fs, GTx(n'), Seen(n'));
    SendsKeepsWindow(n, n', built, f);
    FwdStable(n, n', p, out, lag);
    forall i | 0 <= i < |more| ensures FwdOk(n', p, more[i], lag) && more[i].txSnap == GTx(n') {
      EmittedForward(n, n', built, f, p, fs[i], lag);
    }
    FwdAppend(n', p, out, more, lag);
    forall i | 0 <= i < |inc| ensures BwdOk(n', p, inc[i]) {
      assert BwdOk(n, p, inc[i]);
    }
    assert n'.sent[..p.got] == n.sent[..p.got];
  }

  // ----- The acknowledging direction -----

  lemma EmittedBackward(n: Node, n': Node, built: bool, f: Frame, p: Node, g: Frame)
    requires Sends(n, n', built, f) && MayEmit(g, n, n', built, f)
    requires SentInv(n') && WindowInv(n') && Meets(p, n) && ParkInv(n)
    requires built && n.parked != [] ==> GRx(n) - AckNumber(n.parked[0]) < HALF
    requires n.peerOpen < HALF - WINDOW_SIZE
    ensures BwdOk(p, n', Tag(g, GTx(n'), Seen(n')))
  {
    PrevRefines(GRx(n));
    if g.seqAck == Prev(n.h.link.nextRx) {
      UnwrapExact(GRx(n) - 1, Seen(n) - 1);
    } else {
      assert n.h.link.ackBuf != [] && built && g == f;
      assert ParkedOk(n, n.h.link.ackBuf[0], n.parked[0]);
      UnwrapExact(AckNumber(n.parked[0]), Seen(n) - 1);
    }
    if IsResend(g, n'.h.link.window, n.h.link.nextRx) {
      var w' := n'.h.link.window;
      var k :| 0 <= k < |w'| && g == w'[k].frame.(seqAck := Prev(n.h.link.nextRx));
      assert FrameOk(n'.sent[|n'.sent| - |w'| + k]);
    }
  }

  lemma SendsKeepsBackward(n: Node, n': Node, built: bool, f: Frame, fs: seq<Frame>,
                           p: Node, inc: seq<Flight>, out: seq<Flight>, lag: int)
    requires Sends(n, n', built, f) && (built ==> FrameOk(f))
    requires forall g :: g in fs ==> MayEmit(g, n, n', built, f)
    requires SentInv(n) && WindowInv(n)
    requires Dir(p, n, inc, out, lag)
    requires built && n.parked != [] ==> GRx(n) - AckNumber(n.parked[0]) < HALF
    requires n.peerOpen < HALF - WINDOW_SIZE
    ensures Dir(p, n', inc, out + TagAll(fs, GTx(n'), Seen(n')), lag)
  {
    var more := TagAll(fs, GTx(n'), Seen(n'));
    SendsKeepsWindow(n, n', built, f);
    forall i | 0 <= i < |more| ensures BwdOk(p, n', more[i]) && more[i].rxSnap == Seen(n') {
      EmittedBackward(n, n', built, f, p, fs[i]);
    }
    forall i | 0 <= i < |out| ensures BwdOk(p, n', out[i]) {
      assert BwdOk(p, n, out[i]);
    }
    BwdAppend(p, n', out, more);
    forall i | 0 <= i < |inc| ensures FwdOk(p, n', inc[i], lag) {
      assert FwdOk(p, n, inc[i], lag);
    }
    SendsKeepsParked(n, n', built, f);
  }

  lemma SendsKeepsParked(n: Node, n': Node, built: bool, f: Frame)
    requires Sends(n, n', built, f) && ParkInv(n)
    ensures ParkInv(n')
  {
  }
}
