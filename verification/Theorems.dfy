/** What holds in every state of every run from the steady-state start. */
module Theorems {
  import opened Options
  import opened SeqNum
  import opened TileLink
  import opened LinkSpec
  import opened HostSpec
  import opened World
  import opened Invariant
  import opened LinkFacts
  import opened ReceiveProof
  import opened CreditProof
  import opened SystemProof
  import opened Framing

  /** State i of a run that began in the steady state. */
  predicate Reached(ws: seq<System>, mvs: seq<Move>, i: nat) {
    i < |ws| && IsRun(ws, mvs) && Start(ws[0])
  }

  /** No opening frames in the histories, 1024 credits granted per channel. */
  predicate Plain(w: System) {
    && w.a.open == 0 && w.a.peerOpen == 0 && w.a.granted == Grant(5)
    && w.b.open == 0 && w.b.peerOpen == 0 && w.b.granted == Grant(5)
  }

  lemma RunIsPlain(ws: seq<System>, mvs: seq<Move>, i: nat)
    requires Reached(ws, mvs, i)
    ensures Plain(ws[i])
  {
    forall k | 0 < k < |ws| && Plain(ws[k - 1]) ensures Plain(ws[k]) {
      assert Step(ws[k - 1], mvs[k - 1], ws[k]);
    }
    Throughout(ws, Plain, i);
  }

  lemma ReachedInv(ws: seq<System>, mvs: seq<Move>, i: nat)
    requires Reached(ws, mvs, i)
    ensures SystemInv(ws[i], WINDOW_SIZE) && Plain(ws[i])
  {
    StartHasInv(ws[0]);
    RunKeepsInv(ws, mvs, WINDOW_SIZE, i);
    RunIsPlain(ws, mvs, i);
  }

  // ----- Exactly-once, in-order delivery -----

  lemma {:induction false} FlattenSplit(fs: seq<Frame>, k: nat)
    requires k <= |fs|
    ensures Flatten(fs) == Flatten(fs[..k]) + Flatten(fs[k..])
    decreases |fs|
  {
    if k == |fs| {
      assert fs[..k] == fs && fs[k..] == [];
    } else {
      var i := fs[..|fs| - 1];
      FlattenSplit(i, k);
      assert i[..k] == fs[..k] && fs[k..][..|fs| - k - 1] == i[k..] && fs[k..][|fs| - k - 1] == fs[|fs| - 1];
    }
  }

  /** From s to r: every message s took for sending is delivered, on its way or held, in that order. */
  predicate Accounted(s: Node, r: Node) {
    && r.got <= |s.sent|
    && s.taken == r.delivered + Flatten(s.sent[r.got..]) + Held(s)
    && r.delivered <= Flatten(s.sent)
  }

  lemma DirAccounted(s: Node, r: Node, fwd: seq<Flight>, bwd: seq<Flight>, lag: int)
    requires Dir(s, r, fwd, bwd, lag) && NodeInv(s)
    ensures Accounted(s, r)
  {
    FlattenSplit(s.sent, r.got);
  }

  /**
   Exactly once and in order, in both directions, through any loss, timeout, interleaving
   and number of wraps: what one side has delivered is a prefix of what the other side's
   TX put into frames, and nothing TX was given is lost or repeated.
   */
  lemma ExactlyOnceInOrder(ws: seq<System>, mvs: seq<Move>, i: nat)
    requires Reached(ws, mvs, i)
    ensures Accounted(ws[i].a, ws[i].b) && Accounted(ws[i].b, ws[i].a)
  {
    ReachedInv(ws, mvs, i);
    var w := ws[i];
    DirAccounted(w.a, w.b, w.ab, w.ba, WINDOW_SIZE);
    DirAccounted(w.b, w.a, w.ba, w.ab, WINDOW_SIZE);
  }

  // ----- Window -----

  predicate WindowOk(n: Node) {
    var w := n.h.link.window;
    && |w| <= WINDOW_SIZE
    && (forall k :: 0 <= k && k + 1 < |w| ==> w[k + 1].frame.seqNum == Next(w[k].frame.seqNum))
    && (w != [] ==> w[|w| - 1].frame.seqNum == Prev(n.h.link.nextTx))
  }

  lemma WindowFromInv(n: Node)
    requires SentInv(n) && WindowInv(n)
    ensures WindowOk(n)
  {
    WindowIsConsecutive(n);
    var w := n.h.link.window;
    forall k | 0 <= k && k + 1 < |w| ensures w[k + 1].frame.seqNum == Next(w[k].frame.seqNum) {
      NextRefines(Base(n) + k);
      assert Base(n) + (k + 1) == Base(n) + k + 1;
    }
    PrevRefines(GTx(n));
    assert Base(n) + (|w| - 1) == GTx(n) - 1;
  }

  /** At most four frames, numbered consecutively, the last just before next_tx_seq. */
  lemma WindowsAreConsecutive(ws: seq<System>, mvs: seq<Move>, i: nat)
    requires Reached(ws, mvs, i)
    ensures WindowOk(ws[i].a) && WindowOk(ws[i].b)
  {
    ReachedInv(ws, mvs, i);
    WindowFromInv(ws[i].a);
    WindowFromInv(ws[i].b);
  }

  // ----- Acknowledgements -----

  /**
   Every ack in flight from r names a frame r had accepted when it left, less than 2^21
   before the one it then expected.  Every ack r has parked names the duplicate it is for,
   or the last frame r had accepted when the frame arrived.
   */
  predicate AcksAreHonest(r: Node, bwd: seq<Flight>) {
    && (forall k :: 0 <= k < |bwd| ==>
          && bwd[k].frame.seqAck == bwd[k].ackG % SEQ_MOD
          && r.rxOff - 1 <= bwd[k].ackG < bwd[k].rxSnap <= GRx(r)
          && bwd[k].rxSnap - bwd[k].ackG < HALF)
    && |r.parked| == |r.h.link.ackBuf|
    && (forall k :: 0 <= k < |r.parked| ==>
          var p, f := r.parked[k], r.h.link.ackBuf[k];
          && f.seqNum == p.num % SEQ_MOD && r.rxOff <= p.num && r.rxOff <= p.rx <= GRx(r)
          && f.seqAck == (if p.num < p.rx then p.num else p.rx - 1) % SEQ_MOD)
  }

  /** Whatever ack s receives next, every frame it then drops from its window r has accepted. */
  predicate SlidingIsSafe(s: Node, r: Node, bwd: seq<Flight>) {
    forall k :: 0 <= k < |bwd| ==>
      GTx(s) - |Slide(s.h.link.window, bwd[k].frame.seqAck)| <= GRx(r)
  }

  lemma HonestFromInv(s: Node, r: Node, fwd: seq<Flight>, bwd: seq<Flight>, lag: int)
    requires Dir(s, r, fwd, bwd, lag) && r.peerOpen == 0
    ensures AcksAreHonest(r, bwd) && SlidingIsSafe(s, r, bwd)
    ensures Base(s) <= GRx(r)
  {
    forall k | 0 <= k < |bwd|
      ensures BwdOk(s, r, bwd[k])
      ensures GTx(s) - |Slide(s.h.link.window, bwd[k].frame.seqAck)| <= GRx(r)
    {
      assert BwdOk(s, r, bwd[k]);
      SlideIsSafe(s, r, bwd[k]);
    }
    forall k | 0 <= k < |r.parked| ensures ParkedOk(r, r.h.link.ackBuf[k], r.parked[k]) {
    }
  }

  /** Ack safety: a frame leaves a window only after the peer has accepted it. */
  lemma AcksAreSafe(ws: seq<System>, mvs: seq<Move>, i: nat)
    requires Reached(ws, mvs, i)
    ensures var w := ws[i];
            && AcksAreHonest(w.b, w.ba) && SlidingIsSafe(w.a, w.b, w.ba) && Base(w.a) <= GRx(w.b)
            && AcksAreHonest(w.a, w.ab) && SlidingIsSafe(w.b, w.a, w.ab) && Base(w.b) <= GRx(w.a)
  {
    ReachedInv(ws, mvs, i);
    var w := ws[i];
    HonestFromInv(w.a, w.b, w.ab, w.ba, WINDOW_SIZE);
    HonestFromInv(w.b, w.a, w.ba, w.ab, WINDOW_SIZE);
  }

  /**
   The freshness hypothesis on parked acks is what this rests on: while r has yet to accept
   the front of s's window, an ack for frame ackG, less than a full circle old, is safe if
   and only if it is less than 2^21 behind what r expects (or exactly 2^21 behind, with the
   front in the lower half of the circle).  Any other drops a frame r never got.
   */
  lemma AckIsSafeIff(s: Node, r: Node, fwd: seq<Flight>, bwd: seq<Flight>, lag: int, ackG: int)
    requires Dir(s, r, fwd, bwd, lag) && s.h.link.window != [] && Base(s) == GRx(r)
    requires 0 < GRx(r) - ackG < SEQ_MOD
    ensures GTx(s) - |Slide(s.h.link.window, ackG % SEQ_MOD)| <= GRx(r)
       <==> GRx(r) - ackG < HALF || (GRx(r) - ackG == HALF && GRx(r) % SEQ_MOD < HALF)
  {
    WindowIsConsecutive(s);
    OldAckIsHarmlessIff(s.h.link.window, Base(s), ackG);
    SlideShrinks(s.h.link.window, ackG % SEQ_MOD);
  }

  // ----- Classification -----

  /** A data frame in flight is within four of what r expects, and is classified accordingly. */
  predicate WellClassified(r: Node, fl: Flight) {
    fl.frame.ftype != TYPE_ACKONLY ==>
      var t := Classify(fl.frame.seqNum, r.h.link.nextRx);
      && GRx(r) - 4 <= fl.seqG < GRx(r) + 4
      && (t == ReqNormal <==> fl.seqG == GRx(r))
      && (t == ReqDuplicate <==> fl.seqG < GRx(r))
      && (t == ReqOos <==> fl.seqG > GRx(r))
  }

  lemma ClassifiedFromInv(s: Node, r: Node, fwd: seq<Flight>, bwd: seq<Flight>)
    requires Dir(s, r, fwd, bwd, WINDOW_SIZE)
    ensures forall k :: 0 <= k < |fwd| ==> WellClassified(r, fwd[k])
  {
    forall k | 0 <= k < |fwd| ensures WellClassified(r, fwd[k]) {
      assert FwdOk(s, r, fwd[k], WINDOW_SIZE);
      if fwd[k].frame.ftype != TYPE_ACKONLY {
        ClassifyRefines(s, r, fwd[k], WINDOW_SIZE);
      }
    }
  }

  lemma FramesAreWellClassified(ws: seq<System>, mvs: seq<Move>, i: nat)
    requires Reached(ws, mvs, i)
    ensures forall k :: 0 <= k < |ws[i].ab| ==> WellClassified(ws[i].b, ws[i].ab[k])
    ensures forall k :: 0 <= k < |ws[i].ba| ==> WellClassified(ws[i].a, ws[i].ba[k])
  {
    ReachedInv(ws, mvs, i);
    ClassifiedFromInv(ws[i].a, ws[i].b, ws[i].ab, ws[i].ba);
    ClassifiedFromInv(ws[i].b, ws[i].a, ws[i].ba, ws[i].ab);
  }

  // ----- Credits -----

  /** All 1024 credits s was given on channel c are accounted for. */
  predicate Conserved(c: nat, s: Node, r: Node) {
    && |s.h.link.credits| == |r.h.link.flow| == CHANNEL_NUM && c < CHANNEL_NUM
    && CreditTotal(c, s, r) == 1024
  }

  lemma ConservedFromInv(s: Node, r: Node, c: nat)
    requires CreditInv(s, r) && s.granted == Grant(5) && CHANNEL_A <= c <= CHANNEL_E
    ensures Conserved(c, s, r)
  {
  }

  /** Per direction and channel the initial 1024 credits are all accounted for, always. */
  lemma CreditsAreConserved(ws: seq<System>, mvs: seq<Move>, i: nat, c: nat)
    requires Reached(ws, mvs, i) && CHANNEL_A <= c <= CHANNEL_E
    ensures Conserved(c, ws[i].a, ws[i].b) && Conserved(c, ws[i].b, ws[i].a)
  {
    ReachedInv(ws, mvs, i);
    ConservedFromInv(ws[i].a, ws[i].b, c);
    ConservedFromInv(ws[i].b, ws[i].a, c);
  }

  /** The "tl_msg_buffer overflow" exit is never taken: at most 5120 of 9999 slots are used. */
  lemma InboxNeverOverflows(ws: seq<System>, mvs: seq<Move>, i: nat)
    requires Reached(ws, mvs, i)
    ensures ws[i].a.h.link.status != InboxOverflow && ws[i].b.h.link.status != InboxOverflow
    ensures |ws[i].a.h.link.inbox| <= 5 * 1024 && |ws[i].b.h.link.inbox| <= 5 * 1024
  {
    ReachedInv(ws, mvs, i);
    assert Grant(5)[1] + Grant(5)[2] + Grant(5)[3] + Grant(5)[4] + Grant(5)[5] == 5120;
    InboxBounded(ws[i].a, ws[i].b);
    InboxBounded(ws[i].b, ws[i].a);
  }

  /** The handler never finds response_buffer full: no response is dropped. */
  lemma NoResponseDropped(ws: seq<System>, mvs: seq<Move>, i: nat)
    requires Reached(ws, mvs, i)
    ensures ws[i].a.h.stats.dropResponse == 0 && ws[i].b.h.stats.dropResponse == 0
  {
    ReachedInv(ws, mvs, i);
  }

  predicate AllAcks(fs: seq<Flight>) {
    forall k :: 0 <= k < |fs| ==> fs[k].frame.ack == TLOE_ACK
  }

  /** Neither side ever sends a NAK, though ack_buffer holds them. */
  lemma NoNakInFlight(ws: seq<System>, mvs: seq<Move>, i: nat)
    requires Reached(ws, mvs, i)
    ensures AllAcks(ws[i].ab) && AllAcks(ws[i].ba)
  {
    ReachedInv(ws, mvs, i);
    assert BwdInv(ws[i].a, ws[i].b, ws[i].ba) && BwdInv(ws[i].b, ws[i].a, ws[i].ab);
    forall k | 0 <= k < |ws[i].ab| ensures ws[i].ab[k].frame.ack == TLOE_ACK {
      assert BwdOk(ws[i].b, ws[i].a, ws[i].ab[k]);
    }
    forall k | 0 <= k < |ws[i].ba| ensures ws[i].ba[k].frame.ack == TLOE_ACK {
      assert BwdOk(ws[i].a, ws[i].b, ws[i].ba[k]);
    }
  }

  // ----- The wire -----

  lemma FlightIsWireReady(s: Node, r: Node, fl: Flight, lag: int)
    requires SentInv(s) && FwdOk(s, r, fl, lag) && BwdOk(r, s, fl)
    ensures WireReady(fl.frame)
  {
  }

  /** The packet a frame travels as, parsed by the receiver, is the frame. */
  predicate Faithful(f: Frame) {
    WireReady(f) && |Wire(f)| == DEFAULT_FRAME_SIZE && Unwire(Wire(f)) == f
  }

  lemma DirFaithful(s: Node, r: Node, fwd: seq<Flight>, bwd: seq<Flight>, lag: int)
    requires Dir(s, r, fwd, bwd, lag) && BwdInv(r, s, fwd)
    ensures forall k :: 0 <= k < |fwd| ==> Faithful(fwd[k].frame)
  {
    forall k | 0 <= k < |fwd| ensures Faithful(fwd[k].frame) {
      FlightIsWireReady(s, r, fwd[k], lag);
      WireRoundTrip(fwd[k].frame);
    }
  }

  /** Every frame in flight survives serialisation, so frames stand for the packets on the wire. */
  lemma WireIsFaithful(ws: seq<System>, mvs: seq<Move>, i: nat)
    requires Reached(ws, mvs, i)
    ensures forall k :: 0 <= k < |ws[i].ab| ==> Faithful(ws[i].ab[k].frame)
    ensures forall k :: 0 <= k < |ws[i].ba| ==> Faithful(ws[i].ba[k].frame)
  {
    ReachedInv(ws, mvs, i);
    DirFaithful(ws[i].a, ws[i].b, ws[i].ab, ws[i].ba, WINDOW_SIZE);
    DirFaithful(ws[i].b, ws[i].a, ws[i].ba, ws[i].ab, WINDOW_SIZE);
  }

  // ----- Go-back-N -----

  lemma GoesBackNFromInv(n: Node, req: Option<Msg>, now: int)
    requires SentInv(n) && WindowInv(n) && HostShape(n.h)
    requires req.Some? ==> req.value.header.chan < CHANNEL_NUM
    ensures GoesBackN(n.h.link, req, now)
  {
    WindowIsConsecutive(n);
    TxGoesBackN(n.h.link, req, Base(n), now);
  }

  /** In every state TX, whatever message it is given, goes back N exactly on a timeout. */
  lemma TimeoutsResendWindows(ws: seq<System>, mvs: seq<Move>, i: nat, req: Option<Msg>, now: int)
    requires Reached(ws, mvs, i)
    requires req.Some? ==> req.value.header.chan < CHANNEL_NUM
    ensures HostShape(ws[i].a.h) && GoesBackN(ws[i].a.h.link, req, now)
    ensures HostShape(ws[i].b.h) && GoesBackN(ws[i].b.h.link, req, now)
  {
    ReachedInv(ws, mvs, i);
    GoesBackNFromInv(ws[i].a, req, now);
    GoesBackNFromInv(ws[i].b, req, now);
  }

  // ----- Steps are always defined -----

  /** A running endpoint can take every step: no case of a step falls outside the model. */
  predicate NeverStuck(l: Local, now: int) {
    l.n.h.link.status.Running? ==>
      && Enabled(l, Action.Transmit(now)) && Enabled(l, Action.Serve)
      && (l.inc != [] ==> Enabled(l, Action.Receive(now)))
  }

  /** It exits only on a full ack_buffer or an access outside the memory. */
  predicate ExitsExplained(n: Node) {
    n.h.link.status in {Running, AckBufferFull, OutOfBounds}
  }

  lemma NeverStuckFromInv(n: Node, p: Node, inc: seq<Flight>, out: seq<Flight>, lag: int, now: int)
    requires NodeInv(n) && FwdInv(p, n, inc, lag)
    ensures NeverStuck(Local(n, inc, out), now) && ExitsExplained(n)
  {
  }

  lemma StepsAreDefined(ws: seq<System>, mvs: seq<Move>, i: nat, now: int)
    requires Reached(ws, mvs, i)
    ensures NeverStuck(At(ws[i], SideA), now) && NeverStuck(At(ws[i], SideB), now)
    ensures ExitsExplained(ws[i].a) && ExitsExplained(ws[i].b)
  {
    ReachedInv(ws, mvs, i);
    BothDefined(ws[i], now);
  }

  lemma BothDefined(w: System, now: int)
    requires NodeInv(w.a) && NodeInv(w.b)
    requires FwdInv(w.b, w.a, w.ba, WINDOW_SIZE) && FwdInv(w.a, w.b, w.ab, WINDOW_SIZE)
    ensures NeverStuck(At(w, SideA), now) && NeverStuck(At(w, SideB), now)
    ensures ExitsExplained(w.a) && ExitsExplained(w.b)
  {
    NeverStuckFromInv(w.a, w.b, w.ba, w.ab, WINDOW_SIZE, now);
    NeverStuckFromInv(w.b, w.a, w.ab, w.ba, WINDOW_SIZE, now);
  }

  // ----- Progress of a run -----

  /** Histories only grow. */
  predicate Extends(w: System, w': System) {
    && w.a.sent <= w'.a.sent && w.b.sent <= w'.b.sent
    && w.a.got <= w'.a.got && w.b.got <= w'.b.got
  }

  lemma RunExtends(ws: seq<System>, mvs: seq<Move>, i: nat, j: nat)
    requires IsRun(ws, mvs) && i <= j < |ws|
    ensures Extends(ws[i], ws[j])
  {
    var rest := ws[i..];
    forall k | 0 < k < |rest| && Extends(ws[i], rest[k - 1]) ensures Extends(ws[i], rest[k]) {
      assert Step(ws[i + k - 1], mvs[i + k - 1], ws[i + k - 1 + 1]);
    }
    Throughout(rest, (w: System) => Extends(ws[i], w), j - i);
  }

  lemma FlattenBetween(fs: seq<Frame>, i: nat, j: nat)
    requires i <= j <= |fs|
    ensures Flatten(fs[..j]) == Flatten(fs[..i]) + Flatten(fs[i..j])
  {
    FlattenSplit(fs[..j], i);
    assert fs[..j][..i] == fs[..i] && fs[..j][i..] == fs[i..j];
  }

  /** r has delivered exactly the messages of the frames of s it has accepted. */
  predicate DeliveredAll(s: Node, r: Node) {
    r.got <= |s.sent| && r.delivered == Flatten(s.sent[..r.got])
  }

  lemma ReachedDelivered(ws: seq<System>, mvs: seq<Move>, i: nat)
    requires Reached(ws, mvs, i)
    ensures DeliveredAll(ws[i].a, ws[i].b) && DeliveredAll(ws[i].b, ws[i].a)
  {
    ReachedInv(ws, mvs, i);
  }

  lemma GrownBetween(s: Node, r: Node, s': Node, r': Node)
    requires DeliveredAll(s, r) && DeliveredAll(s', r') && s.sent <= s'.sent && r.got <= r'.got
    ensures r'.delivered == r.delivered + Flatten(s'.sent[r.got..r'.got])
  {
    FlattenBetween(s'.sent, r.got, r'.got);
    assert s'.sent[..r.got] == s.sent[..r.got];
  }

  /**
   What is delivered between two states of a run is exactly the messages of the frames the
   other side numbered from the one expected first to the one expected last.
   */
  lemma DeliveredBetween(ws: seq<System>, mvs: seq<Move>, i: nat, j: nat)
    requires Reached(ws, mvs, j) && i <= j
    ensures var w, w' := ws[i], ws[j];
            && w.b.got <= w'.b.got <= |w'.a.sent| && w.a.got <= w'.a.got <= |w'.b.sent|
            && w'.b.delivered == w.b.delivered + Flatten(w'.a.sent[w.b.got..w'.b.got])
            && w'.a.delivered == w.a.delivered + Flatten(w'.b.sent[w.a.got..w'.a.got])
  {
    ReachedDelivered(ws, mvs, i);
    ReachedDelivered(ws, mvs, j);
    RunExtends(ws, mvs, i, j);
    GrownBetween(ws[i].a, ws[i].b, ws[j].a, ws[j].b);
    GrownBetween(ws[i].b, ws[i].a, ws[j].b, ws[j].a);
  }
}
