/** What every turn of the opening loops sends and takes, in numbers, and what runs make of it. */
module OpeningRules {
  import opened Options
  import opened Bits
  import opened SeqNum
  import opened TileLink
  import opened FlowSpec
  import opened LinkSpec
  import opened World
  import opened Invariant
  import opened Handshake
  import opened HandshakeFacts
  import opened Connect
  import opened ConnectInv
  import opened ConnectProof

  // ----- One turn -----

  /** The number before the one expected, that of the last frame taken. */
  function NumberBefore(nextRx: int): int {
    (nextRx - 1) % 0x40_0000
  }

  /** Announcement k: channel k + 1 with 2^10 credits under number k, acknowledging ack. */
  function Announcement(ftype: int, k: int, ack: int): Frame
    requires 0 <= k
  {
    Frame(ftype, k, ack, 1, k + 1, 10, [])
  }

  /** What a turn sends: five announcements if it serves, and a frame without credit if it is the last. */
  predicate SendsOpening(master: bool, o: Opening, serves: bool, t: Turn) {
    var n := if serves then 5 else 0;
    && |t.frames| == n + (if t.o.done then 1 else 0)
    && (forall k :: 0 <= k < n ==>
          t.frames[k] == Announcement(if master && k == 0 then 2 else 0, k, NumberBefore(o.ep.nextRx)))
    && (t.o.done ==> t.frames[n] == Frame(if master then 0 else 1, if serves then 5 else o.ep.nextTx,
                                          NumberBefore(t.o.ep.nextRx), 1, 0, 0, []))
    && t.o.ep.nextTx
       == var tx := if serves then 5 else o.ep.nextTx; if master && t.o.done then (tx + 1) % 0x40_0000 else tx
  }

  /** What a turn makes of a frame it takes: the credit it announces, and the number after its own. */
  predicate TakesFrame(e: Ep, e': Ep, f: Frame)
    requires |e.credits| == |e.flow| == CHANNEL_NUM && f.chan < CHANNEL_NUM
  {
    && e'.nextRx == (f.seqNum + 1) % 0x40_0000
    && e'.credits == e.credits[f.chan := Pow2(f.credit) % UINT32] && e'.flow == e.flow[f.chan := 0]
    && e'.ackedSeq == UpdateAcked(e.ackedSeq, f.seqAck)
  }

  predicate HearsOpening(o: Opening, recv: Option<Frame>, takes: bool, t: Turn)
    requires Openable(o.ep) && (recv.Some? ==> recv.value.chan < CHANNEL_NUM) && (takes ==> recv.Some?)
  {
    && (if takes then TakesFrame(o.ep, t.o.ep, recv.value)
        else t.o.ep == o.ep.(nextTx := t.o.ep.nextTx))
    && (t.o.done <==> forall c :: CHANNEL_A <= c <= CHANNEL_E ==> t.o.ep.credits[c] > 128)
  }

  lemma RoundIs(master: bool, nextRx: int)
    requires IsSeq(nextRx)
    ensures forall k :: 0 <= k < 5 ==>
              Round(master, nextRx)[k] == Announcement(if master && k == 0 then 2 else 0, k, NumberBefore(nextRx))
  {
  }

  lemma FilledExactly(credits: seq<int>)
    requires |credits| == CHANNEL_NUM
    ensures AllChannelsFilled(credits) <==> forall c :: CHANNEL_A <= c <= CHANNEL_E ==> credits[c] > 128
  {
    Pow2Values();
  }

  lemma FinalIs(e: Ep, ftype: int)
    requires IsSeq(e.nextRx)
    ensures FinalFrame(e, ftype) == Frame(ftype, e.nextTx, NumberBefore(e.nextRx), 1, 0, 0, [])
  {
  }

  /** From the frames and the endpoint of a turn to what it sends. */
  lemma SendsFromParts(master: bool, o: Opening, serves: bool, e: Ep, p: Turn, t: Turn)
    requires IsSeq(o.ep.nextRx) && IsSeq(e.nextRx) && p.o.ep == e && t.o.done == p.o.done
    requires e.nextTx == if serves then 5 else o.ep.nextTx
    requires p.frames == if serves then Round(master, o.ep.nextRx) else []
    requires t.frames == p.frames + if p.o.done then [FinalFrame(e, if master then 0 else 1)] else []
    requires t.o.ep == if master && p.o.done then e.(nextTx := Next(e.nextTx)) else e
    ensures SendsOpening(master, o, serves, t)
  {
    RoundIs(master, o.ep.nextRx);
    FinalIs(e, if master then 0 else 1);
  }

  lemma PollsMaster(o: Opening, recv: Option<Frame>, expired: bool)
    requires Openable(o.ep) && IsSeq(o.ep.nextRx)
    requires recv.Some? ==> recv.value.chan < CHANNEL_NUM && IsSeq(recv.value.seqNum)
    ensures var p, takes := MasterPoll(o, recv, expired), recv.Some? && recv.value.seqNum == o.ep.nextRx;
            && IsSeq(p.o.ep.nextRx) && p.o.ep.nextTx == (if o.timer then 5 else o.ep.nextTx)
            && p.frames == (if o.timer then Round(true, o.ep.nextRx) else [])
            && HearsOpening(o, recv, takes, p) && p.o.timer == expired
  {
    if recv.Some? {
      CmpAntisymmetric(recv.value.seqNum, o.ep.nextRx);
    }
    FilledExactly(MasterPoll(o, recv, expired).o.ep.credits);
  }

  /** open_conn_master serves when its timer has run out, and takes a frame exactly if it has the number expected. */
  lemma MasterTurnExactly(o: Opening, recv: Option<Frame>, expired: bool)
    requires Openable(o.ep) && IsSeq(o.ep.nextRx)
    requires recv.Some? ==> recv.value.chan < CHANNEL_NUM && IsSeq(recv.value.seqNum)
    ensures var t := MasterTurn(o, recv, expired);
            && SendsOpening(true, o, o.timer, t)
            && HearsOpening(o, recv, recv.Some? && recv.value.seqNum == o.ep.nextRx, t)
            && t.o.timer == expired && t.o.started && t.o.flag == o.flag
  {
    PollsMaster(o, recv, expired);
    var p := MasterPoll(o, recv, expired);
    SendsFromParts(true, o, o.timer, p.o.ep, p, MasterTurn(o, recv, expired));
  }

  lemma PollsSlave(o: Opening, recv: Option<Frame>, expired: bool)
    requires Openable(o.ep) && IsSeq(o.ep.nextRx)
    requires recv.Some? ==> recv.value.chan < CHANNEL_NUM
    ensures var p, serves := SlavePoll(o, recv, expired), o.flag && o.timer;
            var flag := o.flag || (recv.Some? && recv.value.ftype == 2);
            && IsSeq(p.o.ep.nextRx) && p.o.ep.nextTx == (if serves then 5 else o.ep.nextTx)
            && p.frames == (if serves then Round(false, o.ep.nextRx) else [])
            && HearsOpening(o, recv, recv.Some? && flag, p) && p.o.flag == flag
            && (p.o.timer <==> expired || !(o.started || serves))
  {
    FilledExactly(SlavePoll(o, recv, expired).o.ep.credits);
  }

  /**
   open_conn_slave serves once it has heard of the connection, when its timer has run out or
   was never started, and takes every frame from the one that opens the connection on.
   */
  lemma SlaveTurnExactly(o: Opening, recv: Option<Frame>, expired: bool)
    requires Openable(o.ep) && IsSeq(o.ep.nextRx)
    requires recv.Some? ==> recv.value.chan < CHANNEL_NUM
    ensures var t, serves := SlaveTurn(o, recv, expired), o.flag && o.timer;
            var flag := o.flag || (recv.Some? && recv.value.ftype == 2);
            && SendsOpening(false, o, serves, t)
            && HearsOpening(o, recv, recv.Some? && flag, t)
            && t.o.flag == flag && (t.o.timer <==> expired || !(o.started || serves))
            && (t.o.started <==> o.started || serves)
  {
    PollsSlave(o, recv, expired);
    var p := SlavePoll(o, recv, expired);
    SendsFromParts(false, o, o.flag && o.timer, p.o.ep, p, SlaveTurn(o, recv, expired));
  }

  // ----- A run -----

  /** Does an opening side that last took number last take the frame it hears? */
  predicate TakesNext(st: Seat, side: Side, last: int)
    requires st.p.Opens? && st.inc != []
  {
    var f := st.inc[0].frame;
    if side.SideA? then f.seqNum == (last + 1) % 0x40_0000 else st.p.o.flag || f.ftype == 2
  }

  /** The number of the last frame taken, after a turn. */
  function TakenAfter(st: Seat, side: Side, recv: bool, last: int): int
    requires CanPoll(st, recv)
  {
    if recv && TakesNext(st, side, last) then st.inc[0].frame.seqNum else last
  }

  function TakenAfterMove(c: Conn, mv: ConnMove, side: Side, last: int): int
    requires Can(c, mv)
  {
    if mv.Poll? && mv.side == side then TakenAfter(SeatOf(c, side), side, mv.recv, last) else last
  }

  /** The number of the last opening frame a side has taken by state i of a run, -1 if none. */
  function LastTaken(cs: seq<Conn>, mvs: seq<ConnMove>, side: Side, i: nat): int
    requires IsConnRun(cs, mvs) && i < |cs|
  {
    if i == 0 then -1
    else
      assert ConnStep(cs[i - 1], mvs[i - 1], cs[i]);
      TakenAfterMove(cs[i - 1], mvs[i - 1], side, LastTaken(cs, mvs, side, i - 1))
  }

  predicate ExpectsAfter(p: Party, last: int) {
    p.Opens? ==> p.o.ep.nextRx == (last + 1) % 0x40_0000
  }

  predicate Serves(o: Opening, side: Side) {
    o.timer && (side.SideA? || o.flag)
  }

  lemma TurnExpects(st: Seat, side: Side, recv: bool, expired: bool, last: int)
    requires CanPoll(st, recv) && ExpectsAfter(st.p, last)
    requires side.SideA? && recv ==> IsSeq(st.inc[0].frame.seqNum)
    ensures var t := LoopTurn(side.SideA?, st.p.o, Heard(st, recv), expired);
            && t.o.ep.nextRx == (TakenAfter(st, side, recv, last) + 1) % 0x40_0000
            && SendsOpening(side.SideA?, st.p.o, Serves(st.p.o, side), t)
  {
    if side.SideA? {
      MasterTurnExactly(st.p.o, Heard(st, recv), expired);
    } else {
      SlaveTurnExactly(st.p.o, Heard(st, recv), expired);
    }
  }

  lemma HeardIsSeq(c: Conn, side: Side)
    requires GoodOrStuck(c) && side.SideA? && SeatOf(c, side).p.Opens? && SeatOf(c, side).inc != []
    ensures IsSeq(SeatOf(c, side).inc[0].frame.seqNum)
  {
    assert FwdOk(c.s.n, c.m.n, c.sm[0], OPENING_LAG);
  }

  /** The seat of a side after a move: of its own turn, or still opening as before. */
  lemma SeatAfter(c: Conn, mv: ConnMove, c': Conn, side: Side)
    requires ConnStep(c, mv, c')
    ensures if mv.Poll? && mv.side == side then
              SeatOf(c', side) == AfterPoll(SeatOf(c, side), side.SideA?, mv.recv, mv.expired)
            else
              SeatOf(c', side).p.Opens? ==> SeatOf(c, side).p == SeatOf(c', side).p
  {
  }

  lemma SeatExpects(st: Seat, side: Side, recv: bool, expired: bool, last: int)
    requires CanPoll(st, recv) && ExpectsAfter(st.p, last)
    requires side.SideA? && recv ==> IsSeq(st.inc[0].frame.seqNum)
    ensures ExpectsAfter(AfterPoll(st, side.SideA?, recv, expired).p, TakenAfter(st, side, recv, last))
  {
    TurnExpects(st, side, recv, expired, last);
  }

  /** An opening side expects the number after that of the last frame it took. */
  lemma {:induction false} ExpectsAfterTaken(cs: seq<Conn>, mvs: seq<ConnMove>, side: Side, i: nat)
    requires IsConnRun(cs, mvs) && i < |cs|
    ensures ExpectsAfter(SeatOf(cs[i], side).p, LastTaken(cs, mvs, side, i))
    decreases i
  {
    if i == 0 {
      ColdExpects(cs[0], side);
    } else {
      ExpectsAfterTaken(cs, mvs, side, i - 1);
      RunStepExpects(cs, mvs, side, i, LastTaken(cs, mvs, side, i - 1));
    }
  }

  lemma ColdExpects(c: Conn, side: Side)
    requires Cold(c)
    ensures ExpectsAfter(SeatOf(c, side).p, -1)
  {
  }

  lemma RunStepExpects(cs: seq<Conn>, mvs: seq<ConnMove>, side: Side, i: nat, last: int)
    requires IsConnRun(cs, mvs) && 0 < i < |cs| && ExpectsAfter(SeatOf(cs[i - 1], side).p, last)
    ensures ConnStep(cs[i - 1], mvs[i - 1], cs[i])
    ensures ExpectsAfter(SeatOf(cs[i], side).p, TakenAfterMove(cs[i - 1], mvs[i - 1], side, last))
  {
    RunStepIs(cs, mvs, i);
    StepExpects(cs[i - 1], mvs[i - 1], cs[i], side, last);
  }

  lemma StepExpects(c: Conn, mv: ConnMove, c': Conn, side: Side, last: int)
    requires GoodOrStuck(c) && ConnStep(c, mv, c') && ExpectsAfter(SeatOf(c, side).p, last)
    ensures ExpectsAfter(SeatOf(c', side).p, TakenAfterMove(c, mv, side, last))
  {
    SeatAfter(c, mv, c', side);
    if mv.Poll? && mv.side == side {
      if side.SideA? && mv.recv {
        HeardIsSeq(c, side);
      }
      SeatExpects(SeatOf(c, side), side, mv.recv, mv.expired, last);
    }
  }

  /** What a turn puts in flight names number last, or the last frame taken after it in the final frame. */
  predicate Acknowledges(out: seq<Flight>, out': seq<Flight>, last: int, last': int) {
    && |out| <= |out'| && out'[..|out|] == out
    && forall k :: |out| <= k < |out'| ==>
         out'[k].frame.seqAck == (if out'[k].frame.chan != 0 then last else last') % 0x40_0000
  }

  lemma TagsAcknowledge(out: seq<Flight>, fs: seq<Frame>, tx: int, rx: int, last: int, last': int)
    requires forall k :: 0 <= k < |fs| ==>
               fs[k].seqAck == (if fs[k].chan != 0 then last else last') % 0x40_0000
    ensures Acknowledges(out, out + TagAll(fs, tx, rx), last, last')
  {
  }

  lemma SentAcks(master: bool, o: Opening, serves: bool, t: Turn, last: int, last': int)
    requires SendsOpening(master, o, serves, t)
    requires o.ep.nextRx == (last + 1) % 0x40_0000 && t.o.ep.nextRx == (last' + 1) % 0x40_0000
    ensures forall k :: 0 <= k < |t.frames| ==>
              t.frames[k].seqAck == (if t.frames[k].chan != 0 then last else last') % 0x40_0000
  {
    assert NumberBefore(o.ep.nextRx) == last % 0x40_0000 && NumberBefore(t.o.ep.nextRx) == last' % 0x40_0000;
  }

  lemma SeatAcknowledges(st: Seat, side: Side, recv: bool, expired: bool, last: int)
    requires CanPoll(st, recv) && ExpectsAfter(st.p, last)
    requires side.SideA? && recv ==> IsSeq(st.inc[0].frame.seqNum)
    ensures Acknowledges(st.out, AfterPoll(st, side.SideA?, recv, expired).out, last, TakenAfter(st, side, recv, last))
  {
    TurnExpects(st, side, recv, expired, last);
    var last', o := TakenAfter(st, side, recv, last), st.p.o;
    var t := LoopTurn(side.SideA?, o, Heard(st, recv), expired);
    SentAcks(side.SideA?, o, Serves(o, side), t, last, last');
    TagsAcknowledge(st.out, t.frames, |Opened(side.SideA?)|, |Opened(!side.SideA?)|, last, last');
  }

  lemma PollAcknowledges(c: Conn, c': Conn, side: Side, recv: bool, expired: bool, last: int)
    requires GoodOrStuck(c) && ConnStep(c, Poll(side, recv, expired), c') && ExpectsAfter(SeatOf(c, side).p, last)
    ensures var st := SeatOf(c, side);
            Acknowledges(st.out, SeatOf(c', side).out, last, TakenAfter(st, side, recv, last))
  {
    SeatAfter(c, Poll(side, recv, expired), c', side);
    if side.SideA? && recv {
      HeardIsSeq(c, side);
    }
    SeatAcknowledges(SeatOf(c, side), side, recv, expired, last);
  }

  /**
   In every run, whatever is lost, every announcement an opening side sends acknowledges the
   last frame it had taken before the turn, and its final frame the last one it ever took.
   */
  lemma OpeningsAcknowledge(cs: seq<Conn>, mvs: seq<ConnMove>, i: nat, side: Side, recv: bool, expired: bool)
    requires IsConnRun(cs, mvs) && i < |mvs| && mvs[i] == Poll(side, recv, expired)
    ensures Acknowledges(SeatOf(cs[i], side).out, SeatOf(cs[i + 1], side).out,
                         LastTaken(cs, mvs, side, i), LastTaken(cs, mvs, side, i + 1))
  {
    ExpectsAfterTaken(cs, mvs, side, i);
    ConnRunKeeps(cs, mvs, i);
    assert ConnStep(cs[i], mvs[i], cs[i + 1]);
    PollAcknowledges(cs[i], cs[i + 1], side, recv, expired, LastTaken(cs, mvs, side, i));
  }
}
