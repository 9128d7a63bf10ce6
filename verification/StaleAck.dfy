/**
 Why parked acks have to be fresh: in any state of the invariant in which TX takes out an
 ack more than 2^21 numbers old, the peer may drop a frame that was never accepted.
 */
module StaleAck {
  import opened SeqNum
  import opened TileLink
  import opened LinkSpec
  import opened HostSpec
  import opened World
  import opened Invariant
  import opened LinkFacts
  import opened TransmitProof
  import opened ReceiveProof
  import opened Picture
  import opened Turns
  import opened StaleRun
  import opened FirstRead

  /** B's window is empty, its oldest parked ack is age numbers old, and A's first frame is not accepted. */
  predicate AckAged(w: System, age: int) {
    && w.a.h.link.status.Running? && w.b.h.link.status.Running? && w.ba == []
    && w.b.h.link.window == [] && !w.b.h.link.ackPending && w.b.parked != []
    && GRx(w.b) - AckNumber(w.b.parked[0]) == age
    && w.a.h.link.window != [] && Base(w.a) == GRx(w.b)
  }

  /** B is about to send an ack more than 2^21 old, and A's first frame is still to be accepted. */
  predicate Stale(w: System) {
    && w.b.parked != []
    && var age := GRx(w.b) - AckNumber(w.b.parked[0]);
       AckAged(w, age) && HALF < age < SEQ_MOD
  }

  /** TX sends nothing but a frame with the old ack. */
  lemma SendsOldAck(n: Node, now: int)
    requires NodeInv(n) && ParkInv(n) && SentInv(n) && WindowInv(n)
    requires n.h.link.window == [] && !n.h.link.ackPending && n.parked != []
    ensures var fs, n' := HostSpec.Transmit(n.h, now).frames, AfterTransmit(n, now);
            && |fs| == 1 && fs[0].seqAck == AckNumber(n.parked[0]) % SEQ_MOD
            && fs[0].ack == TLOE_ACK && fs[0].chan < CHANNEL_NUM && n'.got == n.got && n'.rxOff == n.rxOff
  {
    var e, req := n.h.link, Request(n);
    ChooseKeepsLink(n.h);
    TransmitEffect(n, now);
    ChosenAdmissible(n);
    BuiltFrameOk(e, req);
    TxGoesBackN(e, req, GTx(n), now);
    assert ParkedOk(n, e.ackBuf[0], n.parked[0]);
    assert SendNormal(e, req, now).frames == [NormalFrame(e, req)];
  }

  lemma RxSlides(e: Ep, f: Frame, now: int)
    requires |e.credits| == CHANNEL_NUM && f.chan < CHANNEL_NUM && f.ack == TLOE_ACK
    ensures RxStep(e, f, now).ep.window == Slide(e.window, f.seqAck)
  {
  }

  /** RX drops the front of the window on it. */
  lemma DropsFront(n: Node, fl: Flight, ackG: int, now: int)
    requires HostShape(n.h) && SentInv(n) && WindowInv(n) && n.h.link.window != []
    requires fl.frame.chan < CHANNEL_NUM && fl.frame.ack == TLOE_ACK && fl.frame.seqAck == ackG % SEQ_MOD
    requires HALF < Base(n) - ackG < SEQ_MOD
    ensures Base(AfterReceive(n, fl, now)) > Base(n)
  {
    WindowIsConsecutive(n);
    OldAckIsHarmlessIff(n.h.link.window, Base(n), ackG);
    RxSlides(n.h.link, fl.frame, now);
    SlideShrinks(n.h.link.window, fl.frame.seqAck);
  }

  /** One step of w, whether the freshness hypothesis allows it or not. */
  function Unchecked(w: System, side: Side, act: Action): System
    requires Enabled(At(w, side), act)
  {
    Put(w, side, LocalStep(At(w, side), act))
  }

  /** B sends the old ack, and nothing else is on its way to A. */
  lemma OldAckLeaves(w: System, now: int)
    requires NodeInv(w.b) && ParkInv(w.b) && SentInv(w.b) && WindowInv(w.b) && Stale(w)
    ensures Enabled(At(w, SideB), Action.Transmit(now)) && !FreshAck(At(w, SideB), Action.Transmit(now))
    ensures var w1 := Unchecked(w, SideB, Action.Transmit(now));
            && w1.a == w.a && GRx(w1.b) == GRx(w.b) && |w1.ba| == 1
            && var f := w1.ba[0].frame;
               f.seqAck == AckNumber(w.b.parked[0]) % SEQ_MOD && f.ack == TLOE_ACK && f.chan < CHANNEL_NUM
  {
    OldAckLocal(At(w, SideB), now);
  }

  lemma OldAckLocal(l: Local, now: int)
    requires NodeInv(l.n) && ParkInv(l.n) && SentInv(l.n) && WindowInv(l.n) && l.n.h.link.status.Running?
    requires l.n.h.link.window == [] && !l.n.h.link.ackPending && l.n.parked != []
    ensures Enabled(l, Action.Transmit(now))
    ensures var l' := LocalStep(l, Action.Transmit(now));
            && GRx(l'.n) == GRx(l.n) && l'.inc == l.inc && |l'.out| == |l.out| + 1
            && var f := l'.out[|l.out|].frame;
               f.seqAck == AckNumber(l.n.parked[0]) % SEQ_MOD && f.ack == TLOE_ACK && f.chan < CHANNEL_NUM
  {
    SendsOldAck(l.n, now);
    TransmitsOne(l, now, AfterTransmit(l.n, now), HostSpec.Transmit(l.n.h, now).frames[0]);
  }

  /** A hears it. */
  lemma OldAckArrives(w: System, ackG: int, now: int)
    requires HostShape(w.a.h) && SentInv(w.a) && WindowInv(w.a) && w.a.h.link.window != []
    requires w.a.h.link.status.Running? && |w.ba| == 1
    requires var f := w.ba[0].frame; f.seqAck == ackG % SEQ_MOD && f.ack == TLOE_ACK && f.chan < CHANNEL_NUM
    requires Base(w.a) == GRx(w.b) && HALF < Base(w.a) - ackG < SEQ_MOD
    ensures Enabled(At(w, SideA), Action.Receive(now))
    ensures var w' := Unchecked(w, SideA, Action.Receive(now)); Base(w'.a) > GRx(w'.b)
  {
    DropsFront(w.a, w.ba[0], ackG, now);
  }

  /**
   Without the freshness hypothesis two steps lead from any such state to one in which a
   frame the receiver never accepted is no longer in the sender's window.
   */
  lemma StaleAckDropsFrame(w: System, lag: int, now: int)
    requires SystemInv(w, lag) && Stale(w)
    ensures Enabled(At(w, SideB), Action.Transmit(now)) && !FreshAck(At(w, SideB), Action.Transmit(now))
    ensures var w1 := Unchecked(w, SideB, Action.Transmit(now));
            && Enabled(At(w1, SideA), Action.Receive(now))
            && var w2 := Unchecked(w1, SideA, Action.Receive(now));
               Base(w2.a) > GRx(w2.b)
  {
    OldAckLeaves(w, now);
    OldAckArrives(Unchecked(w, SideB, Action.Transmit(now)), AckNumber(w.b.parked[0]), now);
  }

  // ----- Runs reach such states -----

  lemma EmptiedIsAged(w: System, n: int, now: int)
    requires Drawn(w, Emptied(n, now)) && SameOffsets(w)
    ensures AckAged(w, n - 1)
  {
    var p := Emptied(n, now);
    assert HalfOf(w.a) == p.a && HalfOf(w.b) == p.b;
    assert SceneOf(At(w, SideA)).inc == [];
    assert WaitingOf(w.b.parked, w.b.rxOff)[0] == Waiting(1, 2);
  }

  /** An ack waits in ack_buffer for as long as one likes: runs reach every age of the form 3k + 1. */
  lemma AckOfEveryAge(k: nat) returns (w: System)
    ensures Reachable(w) && AckAged(w, 3 * k + 1)
  {
    ReadShown();
    ShownClosed();
    var shown := (p: Pic) => Shown(p);
    var now := EmptiedDrawn(shown, 0, k);
    w :| Reachable(w) && Drawn(w, Emptied(2 + 3 * k, now));
    ReachableOffsets(w);
    EmptiedIsAged(w, 2 + 3 * k, now);
  }

  /** Some run of the protocol, with a fresh ack at every step, ends with a stale one in front. */
  lemma StaleIsReachable() returns (w: System)
    ensures Reachable(w) && Stale(w)
  {
    w := AckOfEveryAge(699051);
  }

  /** So the code can drop a frame that was never accepted. */
  lemma UnacceptedFrameDropped(now: int) returns (w: System)
    ensures Reachable(w) && Enabled(At(w, SideB), Action.Transmit(now))
    ensures var w1 := Unchecked(w, SideB, Action.Transmit(now));
            && Enabled(At(w1, SideA), Action.Receive(now))
            && var w2 := Unchecked(w1, SideA, Action.Receive(now));
               Base(w2.a) > GRx(w2.b)
  {
    w := StaleIsReachable();
    ReachableInv(w);
    StaleAckDropsFrame(w, WINDOW_SIZE, now);
  }
}
