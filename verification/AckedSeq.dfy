/** acked_seq: the newest acknowledgement an endpoint has recorded (tloe_seq_mgr.c). */
module AckedSeq {
  import opened SeqNum
  import opened TileLink
  import opened LinkSpec
  import opened HostSpec
  import opened World
  import opened Invariant
  import opened LinkFacts
  import opened TransmitProof
  import opened ReceiveProof
  import opened SystemProof
  import opened Theorems

  function Newer(a: int, b: int): int {
    if b > a then b else a
  }

  /**
   The circular distance from the older to the newer number is less than 2^21, or exactly
   2^21 with the newer in the lower half.
   */
  predicate Comparable(a: int, b: int) {
    var d := (if b > a then b - a else a - b) % SEQ_MOD;
    d < HALF || (d == HALF && Newer(a, b) % SEQ_MOD < HALF)
  }

  /** Whatever their distance, the newer of two acks is kept if and only if they are comparable. */
  lemma KeepsNewerIff(a: int, b: int)
    ensures UpdateAcked(a % SEQ_MOD, b % SEQ_MOD) == Newer(a, b) % SEQ_MOD <==> Comparable(a, b)
  {
  }

  /** An ack 2^21 + 1 newer than the one recorded is forgotten. */
  lemma ForgottenExample()
    ensures UpdateAcked(5, 5 + HALF + 1) == 5 && !Comparable(5, 5 + HALF + 1)
  {
  }

  /** RX records the ack of a frame it accepts and of an ack-only frame. */
  predicate Records(l: Local, act: Action) {
    && act.Receive? && l.inc != []
    && (l.inc[0].frame.ftype == 1 || l.inc[0].seqG == GRx(l.n))
  }

  /** The newest ack recorded after a move of either side. */
  function AfterMove(w: System, mv: Move, side: Side, newest: int): int {
    var l := At(w, side);
    if mv.side == side && Records(l, mv.act) then Newer(newest, l.inc[0].ackG) else newest
  }

  /** Any ack the move records can be compared with the newest. */
  predicate RecordsComparable(w: System, mv: Move, side: Side, newest: int) {
    var l := At(w, side);
    mv.side == side && Records(l, mv.act) ==> Comparable(newest, l.inc[0].ackG)
  }

  /** The newest ack recorded by state i of a run, if it stood at start in state 0. */
  function Newest(ws: seq<System>, mvs: seq<Move>, side: Side, start: int, i: nat): int
    requires i < |ws| == |mvs| + 1
  {
    if i == 0 then start else AfterMove(ws[i - 1], mvs[i - 1], side, Newest(ws, mvs, side, start, i - 1))
  }

  /** In state i acked_seq is the newest ack recorded. */
  predicate HoldsNewest(ws: seq<System>, mvs: seq<Move>, side: Side, start: int, i: nat)
    requires i < |ws| == |mvs| + 1
  {
    At(ws[i], side).n.h.link.ackedSeq == Newest(ws, mvs, side, start, i) % SEQ_MOD
  }

  /** What step j records can be compared with the newest before it. */
  predicate StepComparable(ws: seq<System>, mvs: seq<Move>, side: Side, start: int, j: nat)
    requires j < |mvs| && |ws| == |mvs| + 1
  {
    RecordsComparable(ws[j], mvs[j], side, Newest(ws, mvs, side, start, j))
  }

  lemma OthersKeepAcked(l: Local, act: Action)
    requires Enabled(l, act) && !act.Receive?
    ensures LocalStep(l, act).n.h.link.ackedSeq == l.n.h.link.ackedSeq
  {
    if act.Transmit? {
      TransmitKeepsAcked(l.n, act.now);
    }
  }

  lemma TransmitKeepsAcked(n: Node, now: int)
    requires HostShape(n.h)
    ensures AfterTransmit(n, now).h.link.ackedSeq == n.h.link.ackedSeq
  {
    TransmitLink(n, now);
    TxEffect(n.h.link, Request(n), now);
  }

  lemma RxRecords(e: Ep, f: Frame, now: int)
    requires |e.credits| == CHANNEL_NUM && f.chan < CHANNEL_NUM && f.ack == TLOE_ACK
    requires |e.inbox| + |f.msgs| <= INBOX_CAPACITY
    ensures RxStep(e, f, now).ep.ackedSeq
         == if f.ftype == 1 || Classify(f.seqNum, e.nextRx) == ReqNormal then UpdateAcked(e.ackedSeq, f.seqAck)
            else e.ackedSeq
  {
  }

  lemma ReceiveRecords(l: Local, p: Node, now: int)
    requires LocalInv(l, p, WINDOW_SIZE) && Enabled(l, Action.Receive(now))
    ensures LocalStep(l, Action.Receive(now)).n.h.link.ackedSeq
         == if Records(l, Action.Receive(now)) then UpdateAcked(l.n.h.link.ackedSeq, l.inc[0].ackG % SEQ_MOD)
            else l.n.h.link.ackedSeq
  {
    var fl := l.inc[0];
    assert BwdOk(l.n, p, fl) && FwdOk(p, l.n, fl, WINDOW_SIZE);
    IncomingFits(l.n, p, fl, WINDOW_SIZE);
    RxRecords(l.n.h.link, fl.frame, now);
    if fl.frame.ftype != TYPE_ACKONLY {
      ClassifyRefines(p, l.n, fl, WINDOW_SIZE);
    }
  }

  lemma StepRecords(l: Local, p: Node, act: Action, newest: int)
    requires LocalInv(l, p, WINDOW_SIZE) && Enabled(l, act)
    requires l.n.h.link.ackedSeq == newest % SEQ_MOD
    ensures var newest' := if Records(l, act) then Newer(newest, l.inc[0].ackG) else newest;
            LocalStep(l, act).n.h.link.ackedSeq == newest' % SEQ_MOD
            <==> (Records(l, act) ==> Comparable(newest, l.inc[0].ackG))
  {
    if act.Receive? {
      ReceiveRecords(l, p, act.now);
      if Records(l, act) {
        KeepsNewerIff(newest, l.inc[0].ackG);
      }
    } else {
      OthersKeepAcked(l, act);
    }
  }

  lemma SystemStepRecords(w: System, mv: Move, w': System, side: Side, newest: int)
    requires SystemInv(w, WINDOW_SIZE) && Step(w, mv, w') && At(w, side).n.h.link.ackedSeq == newest % SEQ_MOD
    ensures At(w', side).n.h.link.ackedSeq == AfterMove(w, mv, side, newest) % SEQ_MOD
            <==> RecordsComparable(w, mv, side, newest)
  {
    if mv.side == side {
      InvSymmetric(w.a, w.b, w.ba, w.ab, WINDOW_SIZE);
      StepRecords(At(w, side), if side.SideA? then w.b else w.a, mv.act, newest);
    }
  }

  lemma RunStepRecords(ws: seq<System>, mvs: seq<Move>, side: Side, i: nat, newest: int)
    requires Reached(ws, mvs, i + 1) && At(ws[i], side).n.h.link.ackedSeq == newest % SEQ_MOD
    ensures At(ws[i + 1], side).n.h.link.ackedSeq == AfterMove(ws[i], mvs[i], side, newest) % SEQ_MOD
            <==> RecordsComparable(ws[i], mvs[i], side, newest)
  {
    ReachedInv(ws, mvs, i);
    assert Step(ws[i], mvs[i], ws[i + 1]);
    SystemStepRecords(ws[i], mvs[i], ws[i + 1], side, newest);
  }

  lemma StepHolds(ws: seq<System>, mvs: seq<Move>, side: Side, start: int, i: nat)
    requires Reached(ws, mvs, i + 1) && HoldsNewest(ws, mvs, side, start, i)
    ensures HoldsNewest(ws, mvs, side, start, i + 1) <==> StepComparable(ws, mvs, side, start, i)
  {
    RunStepRecords(ws, mvs, side, i, Newest(ws, mvs, side, start, i));
  }

  /** If keeps(j) decides whether what holds at j holds at j + 1, it decides whether it always holds. */
  lemma {:induction false} HoldsWhileKept(holds: nat -> bool, keeps: nat -> bool, i: nat)
    requires holds(0) && forall j: nat :: j < i && holds(j) ==> (holds(j + 1) <==> keeps(j))
    ensures (forall j: nat :: j <= i ==> holds(j)) <==> forall j: nat :: j < i ==> keeps(j)
    decreases i
  {
    if i > 0 {
      HoldsWhileKept(holds, keeps, i - 1);
      assert holds(i - 1) ==> (holds(i - 1 + 1) <==> keeps(i - 1));
    }
  }

  lemma StepsHold(ws: seq<System>, mvs: seq<Move>, side: Side, start: int, i: nat)
    requires Reached(ws, mvs, i) && At(ws[0], side).n.h.link.ackedSeq == start % SEQ_MOD
    ensures HoldsNewest(ws, mvs, side, start, 0)
    ensures forall j: nat :: j < i && HoldsNewest(ws, mvs, side, start, j) ==>
              (HoldsNewest(ws, mvs, side, start, j + 1) <==> StepComparable(ws, mvs, side, start, j))
  {
    forall j: nat | j < i && HoldsNewest(ws, mvs, side, start, j)
      ensures HoldsNewest(ws, mvs, side, start, j + 1) <==> StepComparable(ws, mvs, side, start, j)
    {
      StepHolds(ws, mvs, side, start, j);
    }
  }

  /**
   acked_seq is the newest ack recorded in every state of a run if and only if each ack, when
   it is recorded, can be compared with the newest before it.
   */
  lemma AckedIsNewestIff(ws: seq<System>, mvs: seq<Move>, side: Side, start: int, i: nat)
    requires Reached(ws, mvs, i) && At(ws[0], side).n.h.link.ackedSeq == start % SEQ_MOD
    ensures (forall j: nat :: j <= i ==> HoldsNewest(ws, mvs, side, start, j))
            <==> forall j: nat :: j < i ==> StepComparable(ws, mvs, side, start, j)
  {
    StepsHold(ws, mvs, side, start, i);
    var holds := (j: nat) => j <= i && HoldsNewest(ws, mvs, side, start, j);
    var keeps := (j: nat) => j < i && StepComparable(ws, mvs, side, start, j);
    HoldsWhileKept(holds, keeps, i);
    assert forall j: nat :: j <= i ==> (holds(j) <==> HoldsNewest(ws, mvs, side, start, j));
    assert forall j: nat :: j < i ==> (keeps(j) <==> StepComparable(ws, mvs, side, start, j));
  }
}
