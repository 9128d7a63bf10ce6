/** What one turn of either opening loop does, whatever it hears. */
module HandshakeFacts {
  import opened Options
  import opened Bits
  import opened SeqNum
  import opened TileLink
  import opened FlowSpec
  import opened LinkSpec
  import opened Handshake

  /** The frame that ends open_conn_master, as its history keeps it. */
  function LastOpening(): Frame {
    Frame(TYPE_NORMAL, 5, 4, TLOE_ACK, 0, 0, [])
  }

  /** The numbered frames with which a side opens the connection. */
  function Opened(master: bool): (fs: seq<Frame>)
    ensures |fs| == if master then 6 else 5
  {
    if master then Round(true, 0) + [LastOpening()] else Round(false, 0)
  }

  /** A frame of an opening loop: one of those, or the slave's closing ack, with any ack up to 4. */
  predicate OpeningOk(f: Frame, master: bool) {
    && (f.seqAck == MAX_SEQ_NUM || 0 <= f.seqAck < 5)
    && (|| (0 <= f.seqNum < |Opened(master)| && f == Opened(master)[f.seqNum].(seqAck := f.seqAck))
        || (!master && f == Frame(TYPE_ACKONLY, 5, f.seqAck, TLOE_ACK, 0, 0, [])))
  }

  predicate AllOpeningOk(fs: seq<Frame>, master: bool) {
    forall i :: 0 <= i < |fs| ==> OpeningOk(fs[i], master)
  }

  /** An endpoint that has neither sent nor received anything but opening frames. */
  predicate Idle(e: Ep) {
    && Shape(e) && e.status.Running?
    && e.window == [] && e.ackBuf == [] && e.inbox == [] && e.flow == [0, 0, 0, 0, 0, 0]
  }

  lemma OpenedAt(master: bool, k: nat)
    requires k < |Opened(master)|
    ensures var f := Opened(master)[k];
            && f.seqNum == k && f.ack == TLOE_ACK && f.msgs == [] && f.credit < 32 && f.chan < CHANNEL_NUM
            && f.ftype == (if master && k == 0 then TYPE_OPEN_CONNECTION else TYPE_NORMAL)
            && (if k < 5 then f.chan == k + 1 && f.credit == CREDIT_DEFAULT else f.chan == 0)
  {
    if k < 5 {
      RoundAt(master, 0, k);
      assert Opened(master)[k] == Round(master, 0)[k];
    }
  }

  lemma RoundOk(master: bool, nextRx: int)
    requires 0 <= nextRx <= 5
    ensures |Round(master, nextRx)| == 5 && AllOpeningOk(Round(master, nextRx), master)
    ensures forall i :: 0 <= i < 5 ==> Round(master, nextRx)[i].seqNum == i
  {
    var fs := Round(master, nextRx);
    forall i | 0 <= i < 5 ensures OpeningOk(fs[i], master) && fs[i].seqNum == i {
      RoundAt(master, nextRx, i);
      RoundAt(master, 0, i);
      assert Opened(master)[i] == Round(master, 0)[i];
    }
  }

  lemma TakeKeepsIdle(e: Ep, f: Frame)
    requires Idle(e) && f.chan < CHANNEL_NUM && IsSeq(f.seqAck)
    ensures Idle(TakeOpening(e, f))
  {
    var r := TakeOpening(e, f);
    assert IsVector(r.credits);
    assert r.flow == e.flow;
    assert r.nextRx == (f.seqNum + 1) % SEQ_MOD;
  }

  lemma IdleWithTx(e: Ep, tx: int)
    requires Idle(e) && IsSeq(tx)
    ensures Idle(e.(nextTx := tx))
  {
  }

  /** What a side may return from open_conn with. */
  predicate ReturnsWith(e: Ep, master: bool) {
    && Idle(e) && e.nextTx == |Opened(master)| && 1 <= e.nextRx <= 5
    && forall c :: CHANNEL_A <= c <= CHANNEL_E ==> e.credits[c] == 1024
  }

  // ----- The master -----

  predicate MasterOpens(o: Opening) {
    && MasterInv(o) && !o.done && Idle(o.ep)
    && (o.timer || o.ep.nextTx == 5) && (!o.started ==> o.timer)
  }

  lemma MasterPollFacts(o: Opening, recv: Option<Frame>, expired: bool)
    requires MasterOpens(o)
    requires recv.Some? ==> FromSlave(recv.value) && IsSeq(recv.value.seqAck)
    ensures var t := MasterPoll(o, recv, expired);
            && Idle(t.o.ep) && t.o.ep.nextTx == 5 && t.o.started
            && t.frames == if o.timer then Round(true, o.ep.nextRx) else []
  {
    var e1 := if o.timer then o.ep.(nextTx := 5) else o.ep;
    IdleWithTx(o.ep, 5);
    if recv.Some? {
      TakeKeepsIdle(e1, recv.value);
    }
  }

  /** The rounds and the last frame a turn of the master sends, and where it leaves the master. */
  lemma MasterTurnFacts(o: Opening, recv: Option<Frame>, expired: bool)
    requires MasterOpens(o)
    requires recv.Some? ==> FromSlave(recv.value) && IsSeq(recv.value.seqAck)
    ensures var t := MasterTurn(o, recv, expired);
            && t.frames == (if o.timer then Round(true, o.ep.nextRx) else [])
                           + (if t.o.done then [LastOpening()] else [])
            && (if t.o.done then ReturnsWith(t.o.ep, true) && t.o.ep.nextRx == 5 else MasterOpens(t.o) && t.o.started)
  {
    MasterTurnKeeps(o, recv, expired);
    MasterPollFacts(o, recv, expired);
    IdleWithTx(MasterPoll(o, recv, expired).o.ep, 6);
  }

  // ----- The slave -----

  predicate AllSaidBySlave(fs: seq<Frame>) {
    forall i :: 0 <= i < |fs| ==> FromSlave(fs[i])
  }

  /** Channels other than c still hold the 2^7 credits they began with. */
  predicate OnlyFilled(credits: seq<int>, c: int) {
    |credits| == CHANNEL_NUM && forall d :: CHANNEL_A <= d <= CHANNEL_E && d != c ==> credits[d] == 128
  }

  /** A slave that has not served a round has taken at most one announcement. */
  predicate SlaveLoose(o: Opening) {
    && Openable(o.ep) && 0 <= o.ep.nextRx < SEQ_MOD
    && (o.started ==> o.ep.nextTx == 5)
    && (!o.started ==> !o.done && o.timer && exists c :: 0 <= c < CHANNEL_NUM && OnlyFilled(o.ep.credits, c))
    && (!o.started && !o.flag ==> OnlyFilled(o.ep.credits, 0))
  }

  lemma OneIsNotAll(credits: seq<int>, c: int)
    requires OnlyFilled(credits, c)
    ensures !AllChannelsFilled(credits)
  {
    Pow2Values();
    assert credits[1] == 128 || credits[2] == 128;
  }

  lemma FirstFill(e: Ep, f: Frame)
    requires Openable(e) && f.chan < CHANNEL_NUM && OnlyFilled(e.credits, 0)
    ensures OnlyFilled(TakeOpening(e, f).credits, f.chan)
  {
  }

  /** Whatever arrives, before the first round the loop goes on and nothing is sent. */
  lemma SlaveFirstTurn(o: Opening, ev: Event)
    requires SlaveLoose(o) && !o.started && !o.flag
    requires ev.recv.Some? ==> ev.recv.value.chan < CHANNEL_NUM
    ensures var t := SlaveTurn(o, ev.recv, ev.expired);
            SlaveLoose(t.o) && t.frames == []
  {
    var t := SlaveTurn(o, ev.recv, ev.expired);
    if ev.recv.Some? && t.o.flag {
      FirstFill(o.ep, ev.recv.value);
      OneIsNotAll(t.o.ep.credits, ev.recv.value.chan);
    } else {
      OneIsNotAll(t.o.ep.credits, 0);
    }
  }

  lemma SlaveLaterTurn(o: Opening, ev: Event)
    requires SlaveLoose(o) && (o.started || o.flag) && !o.done
    requires ev.recv.Some? ==> ev.recv.value.chan < CHANNEL_NUM
    ensures var t := SlaveTurn(o, ev.recv, ev.expired);
            SlaveLoose(t.o) && AllSaidBySlave(t.frames)
  {
    var t := SlaveTurn(o, ev.recv, ev.expired);
    assert t.o.started && t.o.ep.nextTx == 5;
    assert FromSlave(FinalFrame(t.o.ep, TYPE_ACKONLY));
    RoundSaid(o.ep.nextRx);
  }

  lemma RoundSaid(nextRx: int)
    ensures AllSaidBySlave(Round(false, nextRx))
  {
    forall i | 0 <= i < 5 ensures FromSlave(Round(false, nextRx)[i]) {
      RoundAt(false, nextRx, i);
    }
  }

  lemma {:induction false} SlaveRunLoose(o: Opening, evs: seq<Event>)
    requires IsInitial(o) && Channeled(evs)
    ensures SlaveLoose(RunOpen(false, o, evs).o) && AllSaidBySlave(RunOpen(false, o, evs).frames)
  {
    if evs == [] {
      assert OnlyFilled(o.ep.credits, 0);
    } else {
      var ev := evs[|evs| - 1];
      var p := RunOpen(false, o, evs[..|evs| - 1]);
      SlaveRunLoose(o, evs[..|evs| - 1]);
      if !p.o.done {
        if p.o.started || p.o.flag {
          SlaveLaterTurn(p.o, ev);
        } else {
          SlaveFirstTurn(p.o, ev);
        }
      }
    }
  }

  /** Every frame the master hears was sent by the slave, at some time, in whatever order. */
  predicate HeardFrom(evs: seq<Event>, said: seq<Frame>) {
    forall i :: 0 <= i < |evs| ==> (evs[i].recv.Some? ==> evs[i].recv.value in said)
  }

  /**
   A fresh master against a fresh slave, the slave hearing anything at all, the master any
   selection of the slave's frames: channels 1 to k are filled when k is expected, and the
   master returns exactly at k = 5.
   */
  lemma MasterAgainstSlave(m: Opening, s: Opening, mEvs: seq<Event>, sEvs: seq<Event>)
    requires IsInitial(m) && IsInitial(s) && Channeled(sEvs) && Channeled(mEvs)
    requires HeardFrom(mEvs, RunOpen(false, s, sEvs).frames)
    ensures var r := RunOpen(true, m, mEvs).o;
            && 0 <= r.ep.nextRx <= 5
            && (forall c :: CHANNEL_A <= c <= CHANNEL_E ==> r.ep.credits[c] == if c <= r.ep.nextRx then 1024 else 128)
            && (r.done <==> r.ep.nextRx == 5)
  {
    SlaveRunLoose(s, sEvs);
    forall i | 0 <= i < |mEvs| ensures mEvs[i].recv.Some? ==> FromSlave(mEvs[i].recv.value) {
      assert mEvs[i].recv.Some? ==> mEvs[i].recv.value in RunOpen(false, s, sEvs).frames;
    }
    MasterFillsPrefix(m, mEvs);
  }

  // ----- Where a slave stands when it returns -----

  /** Each channel is as it began or as a frame announced it. */
  predicate TwoValued(credits: seq<int>) {
    |credits| == CHANNEL_NUM && forall c :: CHANNEL_A <= c <= CHANNEL_E ==> credits[c] == 128 || credits[c] == 1024
  }

  lemma AllFilledIff(credits: seq<int>)
    requires TwoValued(credits)
    ensures AllChannelsFilled(credits) <==> forall c :: CHANNEL_A <= c <= CHANNEL_E ==> credits[c] == 1024
  {
  }

  /** One of the master's five announcements, with whatever ack. */
  predicate IsAnnouncement(f: Frame) {
    && 0 <= f.seqNum < 5 && IsSeq(f.seqAck) && f.chan < CHANNEL_NUM
    && f == Opened(true)[f.seqNum].(seqAck := f.seqAck)
  }

  lemma OpeningFills(e: Ep, f: Frame)
    requires Openable(e) && TwoValued(e.credits) && IsAnnouncement(f)
    ensures var r := TakeOpening(e, f);
            && 1 <= f.chan <= 5
            && r.credits == e.credits[f.chan := 1024] && TwoValued(r.credits)
            && r.nextRx == f.chan
  {
    OpenedAt(true, f.seqNum);
    Pow2Values();
  }

  predicate SlaveOpens(o: Opening) {
    && SlaveLoose(o) && !o.done && Idle(o.ep)
    && TwoValued(o.ep.credits) && !AllChannelsFilled(o.ep.credits) && o.ep.nextRx <= 5
  }

  lemma SlaveSends(o: Opening, ev: Event)
    requires SlaveOpens(o)
    requires ev.recv.Some? ==> ev.recv.value.chan < CHANNEL_NUM
    ensures var t := SlaveTurn(o, ev.recv, ev.expired);
            && SlaveLoose(t.o)
            && t.frames == (if o.flag && o.timer then Round(false, o.ep.nextRx) else [])
                           + (if t.o.done
                              then [Frame(TYPE_ACKONLY, 5, Prev(t.o.ep.nextRx), TLOE_ACK, 0, 0, [])] else [])
  {
    if o.started || o.flag {
      SlaveLaterTurn(o, ev);
    } else {
      SlaveFirstTurn(o, ev);
    }
  }

  /** A turn that hears nothing, or a frame before the flag is up: nothing but flags and numbers. */
  lemma SlaveIdleTurn(o: Opening, ev: Event)
    requires SlaveOpens(o)
    requires ev.recv.Some? ==> ev.recv.value.chan < CHANNEL_NUM
    requires ev.recv.None? || (!o.flag && ev.recv.value.ftype != TYPE_OPEN_CONNECTION)
    ensures SlaveOpens(SlaveTurn(o, ev.recv, ev.expired).o)
    ensures SlaveTurn(o, ev.recv, ev.expired).o.ep == o.ep.(nextTx := if o.flag && o.timer then 5 else o.ep.nextTx)
  {
    SlaveSends(o, ev);
  }

  /** A turn that takes one of the master's opening frames. */
  lemma SlaveTakesOpening(o: Opening, ev: Event)
    requires SlaveOpens(o)
    requires ev.recv.Some? && IsAnnouncement(ev.recv.value)
    requires o.flag || ev.recv.value.ftype == TYPE_OPEN_CONNECTION
    ensures var t, f := SlaveTurn(o, ev.recv, ev.expired), ev.recv.value;
            && t.o.flag && t.o.ep.nextRx == f.chan == f.seqNum + 1
            && t.o.ep.credits == o.ep.credits[f.chan := 1024]
            && (if t.o.done then ReturnsWith(t.o.ep, false) else SlaveOpens(t.o))
  {
    var f := ev.recv.value;
    var e1 := if o.flag && o.timer then o.ep.(nextTx := 5) else o.ep;
    IdleWithTx(o.ep, 5);
    OpeningFills(e1, f);
    TakeKeepsIdle(e1, f);
    AllFilledIff(TakeOpening(e1, f).credits);
    SlaveSends(o, ev);
  }

  /** A later frame of a master that has returned announces nothing, and the slave goes on. */
  lemma SlaveTakesLate(o: Opening, ev: Event)
    requires Openable(o.ep) && !AllChannelsFilled(o.ep.credits)
    requires ev.recv.Some? ==> ev.recv.value.chan == 0
    ensures var t := SlaveTurn(o, ev.recv, ev.expired);
            && !t.o.done && Openable(t.o.ep) && !AllChannelsFilled(t.o.ep.credits)
            && t.frames == if o.flag && o.timer then Round(false, o.ep.nextRx) else []
  {
    var t := SlavePoll(o, ev.recv, ev.expired);
    assert forall c :: CHANNEL_A <= c <= CHANNEL_E ==> t.o.ep.credits[c] == o.ep.credits[c];
  }
}
