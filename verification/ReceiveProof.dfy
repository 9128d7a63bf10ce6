/** RX keeps both directions of the invariant. */
module ReceiveProof {
  import opened SeqNum
  import opened TileLink
  import opened FlowSpec
  import opened LinkSpec
  import opened HostSpec
  import opened World
  import opened Invariant
  import opened LinkFacts
  import opened TransmitProof

  datatype Outcome = Ignored | Accepted | Parked

  /** What a receive step does to a node that hears frame f with the ACK bit set. */
  predicate Hears(n: Node, n': Node, fl: Flight, o: Outcome) {
    var e, e', f := n.h.link, n'.h.link, fl.frame;
    && n' == n.(h := n'.h, got := n'.got, delivered := n'.delivered, parked := n'.parked)
    && n'.h == n.h.(link := e')
    && e'.nextTx == e.nextTx && e'.window == Slide(e.window, f.seqAck) && e'.flow == e.flow
    && match o
       case Ignored =>
         && (f.ftype == TYPE_ACKONLY || e'.status == AckBufferFull)
         && (e'.status == e.status || e'.status == AckBufferFull)
         && e'.nextRx == e.nextRx && e'.inbox == e.inbox && e'.credits == e.credits && e'.ackBuf == e.ackBuf
         && n'.got == n.got && n'.delivered == n.delivered && n'.parked == n.parked
       case Accepted =>
         && f.ftype != TYPE_ACKONLY && Classify(f.seqNum, e.nextRx) == ReqNormal
         && e'.status == e.status
         && f.chan < CHANNEL_NUM && |e.credits| == CHANNEL_NUM
         && e'.nextRx == Next(f.seqNum) && e'.inbox == e.inbox + f.msgs
         && |e'.inbox| <= INBOX_CAPACITY
         && e'.credits == AddCredit(e.credits, f.chan, f.credit) && e'.ackBuf == e.ackBuf
         && n'.got == n.got + 1 && n'.delivered == n.delivered + f.msgs && n'.parked == n.parked
       case Parked =>
         && f.ftype != TYPE_ACKONLY && Classify(f.seqNum, e.nextRx) != ReqNormal
         && e'.status == e.status
         && e'.nextRx == e.nextRx && e'.inbox == e.inbox && e'.credits == e.credits
         && |e.ackBuf| < ACK_CAPACITY
         && e'.ackBuf == e.ackBuf + [ParkedAck(e, f)]
         && n'.got == n.got && n'.delivered == n.delivered
         && n'.parked == n.parked + [Waiting(fl.seqG, GRx(n))]
  }

  function OutcomeOf(e: Ep, f: Frame): Outcome {
    if f.ftype == TYPE_ACKONLY then Ignored
    else if Classify(f.seqNum, e.nextRx) == ReqNormal then Accepted
    else if |e.ackBuf| >= ACK_CAPACITY then Ignored
    else Parked
  }

  lemma ReceiveEffect(n: Node, fl: Flight, now: int)
    requires HostShape(n.h) && fl.frame.chan < CHANNEL_NUM && fl.frame.ack == TLOE_ACK
    requires |n.h.link.inbox| + |fl.frame.msgs| <= INBOX_CAPACITY
    ensures Hears(n, AfterReceive(n, fl, now), fl, OutcomeOf(n.h.link, fl.frame))
    ensures HostSpec.Receive(n.h, fl.frame, now).frames == []
  {
    var e, f := n.h.link, fl.frame;
    NextPrevInverse(e.nextRx);
    if Classify(f.seqNum, e.nextRx) == ReqNormal {
      assert f.seqNum == e.nextRx;
    }
  }

  // ----- Acknowledgement -----

  lemma WindowIsConsecutive(s: Node)
    requires SentInv(s) && WindowInv(s)
    ensures Consecutive(s.h.link.window, Base(s))
  {
  }

  /**
   Ack safety: sliding on an acknowledgement in flight discards exactly the frames it
   covers, and every one of them has been accepted by the peer.
   */
  lemma SlideIsSafe(s: Node, r: Node, fl: Flight)
    requires SentInv(s) && WindowInv(s) && Meets(s, r) && BwdOk(s, r, fl)
    ensures var w := s.h.link.window;
            var j := if fl.ackG < Base(s) then 0 else fl.ackG + 1 - Base(s);
            && 0 <= j <= |w| && Slide(w, fl.frame.seqAck) == w[j..]
            && Base(s) + j <= fl.rxSnap <= Seen(r)
  {
    WindowIsConsecutive(s);
    SlideIsExact(s.h.link.window, Base(s), fl.ackG);
  }

  /** Dropping acknowledged frames from the front leaves a suffix of the history. */
  lemma WindowSlides(s: Node, s': Node, j: nat)
    requires WindowInv(s) && j <= |s.h.link.window|
    requires s'.sent == s.sent && s'.txOff == s.txOff && s'.open == s.open && s'.h.link.nextTx == s.h.link.nextTx
    requires s'.h.link.window == s.h.link.window[j..]
    ensures WindowInv(s') && Base(s') == Base(s) + j
  {
  }

  /** The acknowledgements still in flight are no older than the one just received. */
  lemma BwdAdvance(s: Node, s': Node, r: Node, bwd: seq<Flight>)
    requires bwd != [] && BwdInv(s, r, bwd)
    requires Base(s') <= bwd[0].rxSnap
    ensures BwdInv(s', r, bwd[1..])
  {
  }

  lemma HearsKeepsForward(n: Node, n': Node, o: Outcome, p: Node, inc: seq<Flight>, out: seq<Flight>, lag: int)
    requires inc != [] && Hears(n, n', inc[0], o)
    requires Dir(n, p, out, inc, lag)
    ensures Dir(n', p, out, inc[1..], lag)
  {
    var fl := inc[0];
    SlideIsSafe(n, p, fl);
    var j := if fl.ackG < Base(n) then 0 else fl.ackG + 1 - Base(n);
    WindowSlides(n, n', j);
    FwdStable(n, n', p, out, lag);
    BwdAdvance(n, n', p, inc);
  }

  // ----- Reception -----

  /**
   Classification refines the unbounded order: for a data frame in flight the wrapping
   comparison answers normal, duplicate or out of sequence exactly as equal, less or
   greater on ghost numbers; the two are at most lag apart.
   */
  lemma ClassifyRefines(s: Node, r: Node, fl: Flight, lag: int)
    requires SentInv(s) && Meets(s, r) && FwdOk(s, r, fl, lag) && lag < HALF
    requires fl.frame.ftype != TYPE_ACKONLY
    ensures GRx(r) - lag <= fl.seqG < GRx(r) + lag
    ensures fl.frame.seqNum == fl.seqG % SEQ_MOD
    ensures var t := Classify(fl.frame.seqNum, r.h.link.nextRx);
            && (t == ReqNormal <==> fl.seqG == GRx(r))
            && (t == ReqDuplicate <==> fl.seqG < GRx(r))
            && (t == ReqOos <==> fl.seqG > GRx(r))
  {
  }

  lemma FlattenSnoc(fs: seq<Frame>, k: nat)
    requires k < |fs|
    ensures Flatten(fs[..k + 1]) == Flatten(fs[..k]) + fs[k].msgs
  {
    assert fs[..k + 1][..k] == fs[..k];
  }

  /** Dropping the frame just received leaves a proper channel, even if it was accepted. */
  lemma FwdAdvance(s: Node, r: Node, r': Node, fwd: seq<Flight>, lag: int)
    requires fwd != [] && FwdInv(s, r, fwd, lag)
    requires r'.rxOff == r.rxOff
    requires GRx(r) <= GRx(r') <= fwd[0].txSnap
    ensures FwdInv(s, r', fwd[1..], lag)
  {
  }

  lemma BwdStable(s: Node, r: Node, r': Node, bwd: seq<Flight>)
    requires BwdInv(s, r, bwd) && r'.rxOff == r.rxOff && r'.peerOpen == r.peerOpen && GRx(r) <= GRx(r')
    ensures BwdInv(s, r', bwd)
  {
  }

  /** A parked ack names the duplicate itself, or the last frame accepted. */
  lemma ParkedAckIsSafe(n: Node, p: Node, fl: Flight, lag: int)
    requires SentInv(p) && Meets(p, n) && FwdOk(p, n, fl, lag) && lag < HALF
    requires fl.frame.ftype != TYPE_ACKONLY && Classify(fl.frame.seqNum, n.h.link.nextRx) != ReqNormal
    requires 0 <= n.got
    ensures ParkedOk(n, ParkedAck(n.h.link, fl.frame), Waiting(fl.seqG, GRx(n)))
  {
    ClassifyRefines(p, n, fl, lag);
    PrevRefines(GRx(n));
  }

  /** Acceptance: the frame is the next one of the peer's history. */
  lemma AcceptedIsNext(n: Node, p: Node, fl: Flight, lag: int)
    requires SentInv(p) && Meets(p, n) && FwdOk(p, n, fl, lag) && lag < HALF
    requires fl.frame.ftype != TYPE_ACKONLY && Classify(fl.frame.seqNum, n.h.link.nextRx) == ReqNormal
    ensures n.got < |p.sent| && SameButAck(fl.frame, p.sent[n.got])
    ensures GRx(n) + 1 <= fl.txSnap
    ensures Next(fl.frame.seqNum) == (GRx(n) + 1) % SEQ_MOD
  {
    ClassifyRefines(p, n, fl, lag);
    NextRefines(GRx(n));
  }

  lemma HearsKeepsBackward(n: Node, n': Node, o: Outcome, p: Node, inc: seq<Flight>, out: seq<Flight>, lag: int)
    requires inc != [] && Hears(n, n', inc[0], o)
    requires Dir(p, n, inc, out, lag) && lag < HALF
    ensures Dir(p, n', inc[1..], out, lag)
  {
    var fl := inc[0];
    assert FwdOk(p, n, fl, lag);
    match o {
      case Ignored =>
      case Accepted =>
        AcceptedIsNext(n, p, fl, lag);
        FlattenSnoc(p.sent, n.got);
      case Parked =>
        ParkedAckIsSafe(n, p, fl, lag);
    }
    FwdAdvance(p, n, n', inc, lag);
    BwdStable(p, n, n', out);
  }

  // ----- Loss -----

  lemma LossKeepsChannel(s: Node, r: Node, c: seq<Flight>, i: nat, lag: int)
    requires i < |c|
    ensures FwdInv(s, r, c, lag) ==> FwdInv(s, r, c[..i] + c[i + 1..], lag)
    ensures BwdInv(s, r, c) ==> BwdInv(s, r, c[..i] + c[i + 1..])
  {
  }
}
