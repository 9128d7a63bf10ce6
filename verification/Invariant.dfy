/**
 The invariant of the two-endpoint system, one direction at a time: S sends, R receives,
 fwd holds the frames from S to R and bwd those from R to S.
 */
module Invariant {
  import opened SeqNum
  import opened TileLink
  import opened FlowSpec
  import opened LinkSpec
  import opened HostSpec
  import opened World

  predicate AllAdmissible(ms: seq<Msg>) {
    forall i :: 0 <= i < |ms| ==> Admissible(ms[i])
  }

  predicate FrameOk(f: Frame) {
    && f.ftype != TYPE_ACKONLY && 0 <= f.ftype < 16 && f.ack == TLOE_ACK
    && f.chan < CHANNEL_NUM && f.credit < 32
    && |f.msgs| <= 1 && AllAdmissible(f.msgs)
  }

  /** Every frame ever sent carries its position in the history, wrapped. */
  predicate SentInv(s: Node) {
    forall i :: 0 <= i < |s.sent| ==> FrameOk(s.sent[i]) && s.sent[i].seqNum == (s.txOff + i) % SEQ_MOD
  }

  /** The window is the last few frames of the history. */
  predicate WindowInv(s: Node) {
    var w := s.h.link.window;
    && |w| <= WINDOW_SIZE && s.open + |w| <= |s.sent|
    && s.h.link.nextTx == GTx(s) % SEQ_MOD
    && forall k :: 0 <= k < |w| ==> w[k].frame == s.sent[|s.sent| - |w| + k]
  }

  predicate SameButAck(f: Frame, g: Frame) {
    f == g.(seqAck := f.seqAck)
  }

  /**
   A frame on its way from s to r.  Its snapshot lies between what r expects and what s
   has sent; a data frame is a copy of the history at its ghost number, at most lag
   behind the snapshot, and an ack-only frame carries a number after the opening frames.
   */
  predicate FwdOk(s: Node, r: Node, fl: Flight, lag: int) {
    && GRx(r) <= fl.txSnap <= GTx(s) && s.txOff + s.open <= fl.txSnap
    && fl.frame.chan < CHANNEL_NUM && fl.frame.credit < 32
    && 0 <= fl.frame.ftype < 16 && IsSeq(fl.frame.seqNum)
    && (fl.frame.ftype == TYPE_ACKONLY ==>
          && fl.frame.msgs == [] && fl.frame.chan == 0
          && s.txOff + s.open <= fl.seqG <= fl.txSnap && fl.frame.seqNum == fl.seqG % SEQ_MOD)
    && (fl.frame.ftype != TYPE_ACKONLY ==>
          && s.txOff <= fl.seqG < fl.txSnap <= fl.seqG + lag
          && fl.txSnap <= GRx(r) + lag
          && SameButAck(fl.frame, s.sent[fl.seqG - s.txOff]))
  }

  predicate TxSorted(c: seq<Flight>) {
    forall i, j :: 0 <= i < j < |c| ==> c[i].txSnap <= c[j].txSnap
  }

  predicate FwdInv(s: Node, r: Node, fwd: seq<Flight>, lag: int) {
    && TxSorted(fwd)
    && forall i :: 0 <= i < |fwd| ==> FwdOk(s, r, fwd[i], lag)
  }

  /**
   A frame on its way from r to s, as an acknowledgement: it names a frame r had accepted
   when it left, recently enough for the comparison to be sound when it arrives.
   */
  predicate BwdOk(s: Node, r: Node, fl: Flight) {
    && fl.frame.ack == TLOE_ACK
    && fl.frame.seqAck == fl.ackG % SEQ_MOD
    && r.rxOff - 1 <= fl.ackG < fl.rxSnap <= Seen(r)
    && fl.rxSnap - fl.ackG < HALF
    && Base(s) <= fl.rxSnap
  }

  predicate RxSorted(c: seq<Flight>) {
    forall i, j :: 0 <= i < j < |c| ==> c[i].rxSnap <= c[j].rxSnap
  }

  predicate BwdInv(s: Node, r: Node, bwd: seq<Flight>) {
    && RxSorted(bwd)
    && forall i :: 0 <= i < |bwd| ==> BwdOk(s, r, bwd[i])
  }

  /** Every parked ack names the frame that arrived, or the last one accepted by then. */
  predicate ParkedOk(r: Node, f: Frame, p: Waiting) {
    && f.seqAck == AckNumber(p) % SEQ_MOD && f.seqNum == p.num % SEQ_MOD
    && p.num != p.rx && r.rxOff <= p.num && r.rxOff <= p.rx <= GRx(r)
  }

  predicate ParkInv(r: Node) {
    && |r.parked| == |r.h.link.ackBuf|
    && forall i :: 0 <= i < |r.parked| ==> ParkedOk(r, r.h.link.ackBuf[i], r.parked[i])
  }

  predicate Meets(s: Node, r: Node) {
    && s.txOff == r.rxOff && s.open == r.peerOpen
    && r.h.link.nextRx == GRx(r) % SEQ_MOD
    && GRx(r) <= GTx(s) && Base(s) <= Seen(r)
  }

  predicate Dir(s: Node, r: Node, fwd: seq<Flight>, bwd: seq<Flight>, lag: int) {
    && SentInv(s) && WindowInv(s) && Meets(s, r)
    && FwdInv(s, r, fwd, lag) && BwdInv(s, r, bwd) && ParkInv(r)
    && r.delivered == Flatten(s.sent[..r.got])
  }

  // ----- Credits -----

  function MsgFlits(c: nat, ms: seq<Msg>): nat {
    if ms == [] then 0 else (if ms[0].header.chan == c then Flits(ms[0]) else 0) + MsgFlits(c, ms[1..])
  }

  function FrameFlits(c: nat, fs: seq<Frame>): nat {
    if fs == [] then 0 else MsgFlits(c, fs[0].msgs) + FrameFlits(c, fs[1..])
  }

  function CarriedCredit(c: nat, f: Frame): nat {
    if f.chan == c then Bits.Pow2(f.credit) else 0
  }

  function FrameCredit(c: nat, fs: seq<Frame>): nat {
    if fs == [] then 0 else CarriedCredit(c, fs[0]) + FrameCredit(c, fs[1..])
  }

  /** Frames of s that r has not accepted yet. */
  function Unaccepted(s: Node, r: Node): seq<Frame> {
    if r.got <= |s.sent| then s.sent[r.got..] else []
  }

  /** Where the credits s was granted on channel c are. */
  function CreditTotal(c: nat, s: Node, r: Node): int
    requires |s.h.link.credits| == |r.h.link.flow| == CHANNEL_NUM && c < CHANNEL_NUM
  {
    s.h.link.credits[c]
    + FrameFlits(c, Unaccepted(s, r))
    + MsgFlits(c, r.h.link.inbox)
    + r.h.link.flow[c]
    + FrameCredit(c, Unaccepted(r, s))
  }

  /** Grants the peer's inbox has room for. */
  predicate GrantFits(g: seq<int>) {
    && |g| == CHANNEL_NUM && (forall c :: CHANNEL_A <= c <= CHANNEL_E ==> 0 <= g[c] <= 2048)
    && g[1] + g[2] + g[3] + g[4] + g[5] <= 9216
  }

  predicate CreditInv(s: Node, r: Node) {
    && IsVector(s.h.link.credits) && IsVector(r.h.link.flow) && GrantFits(s.granted)
    && forall c :: CHANNEL_A <= c <= CHANNEL_E ==> CreditTotal(c, s, r) == s.granted[c]
  }

  // ----- One node -----

  function Held(n: Node): seq<Msg> {
    if n.h.pending.Some? then [n.h.pending.value] else []
  }

  predicate NodeInv(n: Node) {
    && HostShape(n.h)
    && n.h.link.status != InboxOverflow
    && AllAdmissible(n.h.link.inbox) && AllAdmissible(n.h.msgBuf) && AllAdmissible(n.h.respBuf)
    && AllAdmissible(Held(n))
    && n.h.link.flow[0] == 0 && (n.handled == [] ==> n.h.link.flow == [0, 0, 0, 0, 0, 0])
    && n.h.stats.dropResponse == 0
    && n.delivered == n.handled + n.h.link.inbox
    && n.taken == Flatten(n.sent) + Held(n)
  }

  /** The invariant seen from node n: p is its peer. */
  predicate Inv(n: Node, p: Node, inc: seq<Flight>, out: seq<Flight>, lag: int) {
    && WINDOW_SIZE + n.open <= lag && WINDOW_SIZE + p.open <= lag < HALF
    && Dir(n, p, out, inc, lag) && Dir(p, n, inc, out, lag)
    && CreditInv(n, p) && CreditInv(p, n)
    && NodeInv(n) && NodeInv(p)
  }

  predicate SystemInv(w: System, lag: int) {
    Inv(w.a, w.b, w.ba, w.ab, lag)
  }

  lemma InvSymmetric(n: Node, p: Node, inc: seq<Flight>, out: seq<Flight>, lag: int)
    requires Inv(n, p, inc, out, lag)
    ensures Inv(p, n, out, inc, lag)
  {
  }
}
