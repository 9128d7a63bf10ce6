/** Every step of a connection keeps it good, or leaves the slave stuck for ever. */
module ConnectProof {
  import opened Options
  import opened SeqNum
  import opened TileLink
  import opened FlowSpec
  import opened LinkSpec
  import opened HostSpec
  import opened World
  import opened Invariant
  import opened LinkFacts
  import opened TransmitProof
  import opened ReceiveProof
  import opened CreditProof
  import opened SystemProof
  import opened Handshake
  import opened HandshakeFacts
  import opened Connect
  import opened ConnectInv

  // ----- Order on the way to the slave -----

  lemma OrderedAppend(ms: seq<Flight>, more: seq<Flight>)
    requires Ordered(ms) && Ordered(more)
    requires forall i, j :: 0 <= i < |ms| && 0 <= j < |more| && ms[i].seqG >= 5 ==> more[j].seqG >= 6
    ensures Ordered(ms + more)
  {
  }

  lemma OrderedWithout(ms: seq<Flight>, i: nat)
    requires Ordered(ms) && i < |ms|
    ensures Ordered(ms[..i] + ms[i + 1..]) && Ordered(ms[1..])
  {
  }

  // ----- The master's turns -----

  /** Whatever an opening master hears is what a slave may say. */
  lemma MasterHears(m: Node, s: Node, fl: Flight)
    requires IsAbsent(m, true) && Rooted(s, false) && SentInv(s) && WindowInv(s) && Meets(s, m)
    requires FwdOk(s, m, fl, OPENING_LAG) && BwdOk(m, s, fl)
    ensures FromSlave(fl.frame) && IsSeq(fl.frame.seqAck)
  {
    if fl.frame.ftype != TYPE_ACKONLY && fl.seqG < 5 {
      OpenedAt(false, fl.seqG);
      assert s.sent[fl.seqG] == Opened(false)[fl.seqG];
    } else {
      assert fl.seqG <= GTx(s) <= 9;
      if fl.frame.ftype != TYPE_ACKONLY {
        assert s.sent[fl.seqG].seqNum == fl.seqG % SEQ_MOD;
      }
    }
  }

  /** What a turn of the master sends: announcements, and one last frame if it returns. */
  lemma MasterSends(o: Opening, done: bool, fs: seq<Frame>)
    requires 0 <= o.ep.nextRx <= 5
    requires fs == (if o.timer then Round(true, o.ep.nextRx) else []) + (if done then [LastOpening()] else [])
    ensures AllOpeningOk(fs, true)
    ensures var more := TagAll(fs, |Opened(true)|, |Opened(false)|);
            && Ordered(more)
            && (forall i :: 0 <= i < |more| ==> more[i].seqG <= 5)
            && (!done ==> forall i :: 0 <= i < |more| ==> more[i].seqG < 5)
  {
    RoundOk(true, o.ep.nextRx);
    OpenedAt(true, 5);
    var more := TagAll(fs, |Opened(true)|, |Opened(false)|);
    forall i | 0 <= i < |fs|
      ensures OpeningOk(fs[i], true)
      ensures more[i].seqG == fs[i].seqNum <= 5 && (i < |fs| - 1 || !done ==> fs[i].seqNum < 5)
    {
      assert OpeningOk(fs[i], true);
      OpeningTag(fs[i], true);
    }
  }

  lemma MasterPollSystem(c: Conn, recv: bool, expired: bool)
    requires Inv(c.m.n, c.s.n, c.sm, c.ms, OPENING_LAG) && Rooted(c.s.n, false)
    requires CanPoll(SeatOf(c, SideA), recv) && IsAbsent(c.m.n, true)
    requires var t := MasterTurn(c.m.o, Heard(SeatOf(c, SideA), recv), expired);
             AllOpeningOk(t.frames, true) && (t.o.done ==> ReturnsWith(t.o.ep, true))
    ensures SystemInv(SystemOf(After(c, Poll(SideA, recv, expired))), OPENING_LAG)
    ensures Rooted(After(c, Poll(SideA, recv, expired)).m.n, true)
  {
    var t := MasterTurn(c.m.o, Heard(SeatOf(c, SideA), recv), expired);
    MasterTurnSystem(c.m.n, c.s.n, c.ms, c.sm, t.frames, recv, t.o.done, t.o.ep);
    if t.o.done {
      EnteredNode(t.o.ep, true);
    }
  }

  lemma MasterTurnSystem(m: Node, s: Node, ms: seq<Flight>, sm: seq<Flight>, fs: seq<Frame>,
                         recv: bool, done: bool, e: Ep)
    requires Inv(m, s, sm, ms, OPENING_LAG) && IsAbsent(m, true) && Rooted(s, false)
    requires AllOpeningOk(fs, true) && (recv ==> sm != []) && (done ==> ReturnsWith(e, true))
    ensures Inv(if done then Entered(e, true) else m, s, Rest(sm, recv),
                ms + TagAll(fs, |Opened(true)|, |Opened(false)|), OPENING_LAG)
  {
    TurnKeepsInv(m, true, s, sm, ms, fs, recv);
    if done {
      ReturnKeepsInv(e, m, true, s, Rest(sm, recv), ms + TagAll(fs, |Opened(true)|, |Opened(false)|));
    }
  }

  lemma MasterPollPhases(c: Conn, recv: bool, expired: bool)
    requires Phases(c) && CanPoll(SeatOf(c, SideA), recv)
    requires recv ==> FromSlave(c.sm[0].frame) && IsSeq(c.sm[0].frame.seqAck)
    ensures Phases(After(c, Poll(SideA, recv, expired)))
  {
    var t := MasterTurn(c.m.o, Heard(SeatOf(c, SideA), recv), expired);
    MasterTurnFacts(c.m.o, Heard(SeatOf(c, SideA), recv), expired);
    MasterSends(c.m.o, t.o.done, t.frames);
    MasterTurnPhases(c, t, Rest(c.sm, recv));
  }

  lemma MasterTurnPhases(c: Conn, t: Turn, sm: seq<Flight>)
    requires Phases(c) && c.m.Opens?
    requires if t.o.done then ReturnsWith(t.o.ep, true) && t.o.ep.nextRx == 5 else MasterOpens(t.o)
    requires var more := TagAll(t.frames, |Opened(true)|, |Opened(false)|);
             && Ordered(more) && (forall i :: 0 <= i < |more| ==> more[i].seqG <= 5)
             && (!t.o.done ==> forall i :: 0 <= i < |more| ==> more[i].seqG < 5)
    ensures Phases(Conn(if t.o.done then Runs(Entered(t.o.ep, true)) else Opens(t.o, c.m.n), c.s,
                        c.ms + TagAll(t.frames, |Opened(true)|, |Opened(false)|), sm))
  {
    OrderedAppend(c.ms, TagAll(t.frames, |Opened(true)|, |Opened(false)|));
  }

  lemma MasterPollKeepsGood(c: Conn, recv: bool, expired: bool)
    requires Good(c) && CanPoll(SeatOf(c, SideA), recv)
    ensures Good(After(c, Poll(SideA, recv, expired)))
  {
    if recv {
      assert FwdOk(c.s.n, c.m.n, c.sm[0], OPENING_LAG) && BwdOk(c.m.n, c.s.n, c.sm[0]);
      MasterHears(c.m.n, c.s.n, c.sm[0]);
    }
    MasterPollSends(c.m.o, Heard(SeatOf(c, SideA), recv), expired);
    MasterPollSystem(c, recv, expired);
    MasterPollPhases(c, recv, expired);
  }

  lemma MasterPollSends(o: Opening, recv: Option<Frame>, expired: bool)
    requires MasterOpens(o) && (recv.Some? ==> FromSlave(recv.value) && IsSeq(recv.value.seqAck))
    ensures var t := MasterTurn(o, recv, expired);
            AllOpeningOk(t.frames, true) && (t.o.done ==> ReturnsWith(t.o.ep, true))
  {
    MasterTurnFacts(o, recv, expired);
    var t := MasterTurn(o, recv, expired);
    MasterSends(o, t.o.done, t.frames);
  }

  // ----- The slave's turns -----

  /** The first frame on its way to an opening slave is an announcement, or comes after all of them. */
  lemma SlaveHears(m: Node, s: Node, fl: Flight)
    requires IsAbsent(s, false) && Rooted(m, true) && FwdOk(m, s, fl, OPENING_LAG) && BwdOk(s, m, fl)
    ensures fl.seqG < 5 ==> IsAnnouncement(fl.frame) && fl.frame.seqNum == fl.seqG
  {
    if fl.seqG < 5 {
      OpenedAt(true, fl.seqG);
      assert m.sent[fl.seqG] == Opened(true)[fl.seqG];
    }
  }

  lemma {:induction false} CarriedIsCounted(c: nat, fs: seq<Frame>, i: nat)
    requires i < |fs| && fs[i].chan == c
    ensures FrameCredit(c, fs) >= 1
  {
    if i > 0 {
      CarriedIsCounted(c, fs[1..], i - 1);
    }
  }

  /** While the slave is opening the master has nothing to return, so it returns nothing. */
  lemma MasterIsMute(m: Node, s: Node)
    requires IsAbsent(s, false) && Rooted(m, true) && CreditInv(s, m) && SentInv(m) && WindowInv(m) && NodeInv(m)
    ensures Mute(m)
    ensures forall i :: 5 <= i < |m.sent| ==> m.sent[i].chan == 0
  {
    forall c: nat | CHANNEL_A <= c <= CHANNEL_E
      ensures MsgFlits(c, m.h.link.inbox) == 0 && m.h.link.flow[c] == 0 && FrameCredit(c, m.sent[5..]) == 0
    {
      assert CreditTotal(c, s, m) == 1024;
      RootedAnnounces(m, true, 5, c);
      assert Unaccepted(m, s) == m.sent;
    }
    assert AllWellSized(m.h.link.inbox);
    EveryMessageHasAFlit(m.h.link.inbox);
    forall i | 5 <= i < |m.sent| ensures m.sent[i].chan == 0 {
      assert FrameOk(m.sent[i]);
      if m.sent[i].chan != 0 {
        CarriedIsCounted(m.sent[i].chan, m.sent[5..], i - 5);
      }
    }
  }

  /** An opening slave takes a frame that comes after all announcements. */
  predicate Misses(c: Conn, recv: bool)
    requires CanPoll(SeatOf(c, SideB), recv)
  {
    recv && c.ms[0].seqG >= 5 && (c.s.o.flag || c.ms[0].frame.ftype == TYPE_OPEN_CONNECTION)
  }

  lemma SlaveFinalOk(o: Opening, e: Ep, done: bool, fs: seq<Frame>)
    requires 0 <= o.ep.nextRx <= 5 && (done ==> 1 <= e.nextRx <= 5)
    requires fs == (if o.flag && o.timer then Round(false, o.ep.nextRx) else [])
                   + (if done then [Frame(TYPE_ACKONLY, 5, Prev(e.nextRx), TLOE_ACK, 0, 0, [])] else [])
    ensures AllOpeningOk(fs, false)
  {
    RoundOk(false, o.ep.nextRx);
    forall i | 0 <= i < |fs| ensures OpeningOk(fs[i], false) {
    }
  }

  /** A turn of the slave on an announcement, or on nothing it takes. */
  lemma SlaveTurnFacts(o: Opening, ev: Event)
    requires SlaveOpens(o)
    requires ev.recv.Some? ==> ev.recv.value.chan < CHANNEL_NUM
    requires ev.recv.Some? && (o.flag || ev.recv.value.ftype == TYPE_OPEN_CONNECTION) ==> IsAnnouncement(ev.recv.value)
    ensures var t := SlaveTurn(o, ev.recv, ev.expired);
            && AllOpeningOk(t.frames, false)
            && (if t.o.done then ReturnsWith(t.o.ep, false) else SlaveOpens(t.o))
  {
    var t := SlaveTurn(o, ev.recv, ev.expired);
    SlaveSends(o, ev);
    if ev.recv.Some? && (o.flag || ev.recv.value.ftype == TYPE_OPEN_CONNECTION) {
      SlaveTakesOpening(o, ev);
    } else {
      SlaveIdleTurn(o, ev);
    }
    SlaveFinalOk(o, t.o.ep, t.o.done, t.frames);
  }

  lemma SlaveTurnSystem(m: Node, s: Node, ms: seq<Flight>, sm: seq<Flight>, fs: seq<Frame>,
                        recv: bool, done: bool, e: Ep)
    requires Inv(m, s, sm, ms, OPENING_LAG) && IsAbsent(s, false) && Rooted(m, true)
    requires AllOpeningOk(fs, false) && (recv ==> ms != []) && (done ==> ReturnsWith(e, false))
    ensures Inv(m, if done then Entered(e, false) else s, sm + TagAll(fs, |Opened(false)|, |Opened(true)|),
                Rest(ms, recv), OPENING_LAG)
  {
    var ms', sm' := Rest(ms, recv), sm + TagAll(fs, |Opened(false)|, |Opened(true)|);
    InvSymmetric(m, s, sm, ms, OPENING_LAG);
    TurnKeepsInv(s, false, m, ms, sm, fs, recv);
    if done {
      ReturnKeepsInv(e, s, false, m, ms', sm');
      InvSymmetric(Entered(e, false), m, ms', sm', OPENING_LAG);
    } else {
      InvSymmetric(s, m, ms', sm', OPENING_LAG);
    }
  }

  lemma SlavePollSystem(c: Conn, recv: bool, expired: bool)
    requires Inv(c.m.n, c.s.n, c.sm, c.ms, OPENING_LAG) && Rooted(c.m.n, true)
    requires CanPoll(SeatOf(c, SideB), recv) && IsAbsent(c.s.n, false)
    requires var t := SlaveTurn(c.s.o, Heard(SeatOf(c, SideB), recv), expired);
             AllOpeningOk(t.frames, false) && (t.o.done ==> ReturnsWith(t.o.ep, false))
    ensures SystemInv(SystemOf(After(c, Poll(SideB, recv, expired))), OPENING_LAG)
    ensures Rooted(After(c, Poll(SideB, recv, expired)).s.n, false)
  {
    var t := SlaveTurn(c.s.o, Heard(SeatOf(c, SideB), recv), expired);
    SlaveTurnSystem(c.m.n, c.s.n, c.ms, c.sm, t.frames, recv, t.o.done, t.o.ep);
    if t.o.done {
      EnteredNode(t.o.ep, false);
    }
  }

  lemma SlavePollPhases(c: Conn, recv: bool, expired: bool)
    requires Phases(c) && CanPoll(SeatOf(c, SideB), recv)
    requires var t := SlaveTurn(c.s.o, Heard(SeatOf(c, SideB), recv), expired);
             if t.o.done then ReturnsWith(t.o.ep, false) else SlaveOpens(t.o)
    ensures Phases(After(c, Poll(SideB, recv, expired)))
  {
    if recv {
      OrderedWithout(c.ms, 0);
    }
  }

  lemma SlaveHeard(m: Node, s: Node, ms: seq<Flight>, sm: seq<Flight>)
    requires Inv(m, s, sm, ms, OPENING_LAG) && IsAbsent(s, false) && Rooted(m, true) && ms != []
    ensures ms[0].seqG < 5 ==> IsAnnouncement(ms[0].frame) && ms[0].frame.seqNum == ms[0].seqG
  {
    assert FwdOk(m, s, ms[0], OPENING_LAG) && BwdOk(s, m, ms[0]);
    SlaveHears(m, s, ms[0]);
  }

  lemma SlavePollFacts(c: Conn, recv: bool, expired: bool)
    requires Inv(c.m.n, c.s.n, c.sm, c.ms, OPENING_LAG) && Rooted(c.m.n, true) && GoodSlave(c)
    requires CanPoll(SeatOf(c, SideB), recv) && !Misses(c, recv)
    ensures var t := SlaveTurn(c.s.o, Heard(SeatOf(c, SideB), recv), expired);
            && AllOpeningOk(t.frames, false)
            && (if t.o.done then ReturnsWith(t.o.ep, false) else SlaveOpens(t.o))
  {
    if recv {
      SlaveHeard(c.m.n, c.s.n, c.ms, c.sm);
    }
    SlaveTurnFacts(c.s.o, Event(Heard(SeatOf(c, SideB), recv), expired));
  }

  lemma SlavePollKeepsGood(c: Conn, recv: bool, expired: bool)
    requires Good(c) && CanPoll(SeatOf(c, SideB), recv) && !Misses(c, recv)
    ensures Good(After(c, Poll(SideB, recv, expired)))
  {
    SlavePollFacts(c, recv, expired);
    SlavePollSystem(c, recv, expired);
    SlavePollPhases(c, recv, expired);
  }

  // ----- A slave left behind -----

  lemma LateIsSilent(m: Node, s: Node, fl: Flight)
    requires IsAbsent(s, false) && Rooted(m, true) && FwdOk(m, s, fl, OPENING_LAG) && fl.seqG >= 5
    requires forall i :: 5 <= i < |m.sent| ==> m.sent[i].chan == 0
    ensures fl.frame.chan == 0
  {
  }

  lemma AbsentSaysNothing(s: Node, m: Node, fl: Flight)
    requires IsAbsent(s, false) && FwdOk(s, m, fl, OPENING_LAG)
    ensures fl.frame.msgs == []
  {
    if fl.frame.ftype != TYPE_ACKONLY {
      OpenedAt(false, fl.seqG);
    }
  }

  lemma RoundIsSilent(nextRx: int)
    ensures forall i :: 0 <= i < 5 ==> Round(false, nextRx)[i].msgs == [] && Round(false, nextRx)[i].ack == TLOE_ACK
  {
    forall i | 0 <= i < 5 ensures Round(false, nextRx)[i].msgs == [] && Round(false, nextRx)[i].ack == TLOE_ACK {
      RoundAt(false, nextRx, i);
    }
  }

  predicate Silent(fs: seq<Flight>) {
    forall i :: 0 <= i < |fs| ==> fs[i].frame.msgs == [] && fs[i].frame.ack == TLOE_ACK
  }

  /** All sent after the announcements. */
  predicate Late(ms: seq<Flight>) {
    forall i :: 0 <= i < |ms| ==> ms[i].seqG >= 5
  }

  predicate Unannounced(ms: seq<Flight>) {
    forall i :: 0 <= i < |ms| ==> ms[i].frame.chan == 0
  }

  /** One turn of a slave that lacks a channel and hears nothing that announces it. */
  lemma StuckTurn(c: Conn, recv: bool, expired: bool)
    requires c.m.Runs? && Mute(c.m.n) && CanPoll(SeatOf(c, SideB), recv) && !AllChannelsFilled(c.s.o.ep.credits)
    requires Unannounced(c.ms) && Silent(c.sm)
    ensures Stuck(After(c, Poll(SideB, recv, expired)))
  {
    SlaveTakesLate(c.s.o, Event(Heard(SeatOf(c, SideB), recv), expired));
    RoundIsSilent(c.s.o.ep.nextRx);
  }

  lemma OnlySilence(m: Node, s: Node, ms: seq<Flight>, sm: seq<Flight>)
    requires Inv(m, s, sm, ms, OPENING_LAG) && IsAbsent(s, false) && Rooted(m, true)
    requires Late(ms)
    ensures Mute(m) && Silent(sm) && Unannounced(ms)
  {
    MasterIsMute(m, s);
    forall i | 0 <= i < |ms| ensures ms[i].frame.chan == 0 {
      LateIsSilent(m, s, ms[i]);
    }
    forall i | 0 <= i < |sm| ensures sm[i].frame.msgs == [] && sm[i].frame.ack == TLOE_ACK {
      assert BwdOk(m, s, sm[i]);
      AbsentSaysNothing(s, m, sm[i]);
    }
  }

  lemma LateFromHead(ms: seq<Flight>)
    requires Ordered(ms) && ms != [] && ms[0].seqG >= 5
    ensures Late(ms)
  {
  }

  lemma MissingPhases(c: Conn)
    requires Phases(c) && c.s.Opens? && c.ms != [] && c.ms[0].seqG >= 5
    ensures c.m.Runs? && IsAbsent(c.s.n, false) && !AllChannelsFilled(c.s.o.ep.credits) && Late(c.ms)
  {
    LateFromHead(c.ms);
  }

  lemma MissingIsSilent(c: Conn)
    requires Phases(c) && Rooted(c.m.n, true) && Inv(c.m.n, c.s.n, c.sm, c.ms, OPENING_LAG)
    requires c.s.Opens? && c.ms != [] && c.ms[0].seqG >= 5
    ensures c.m.Runs? && Mute(c.m.n) && Silent(c.sm) && !AllChannelsFilled(c.s.o.ep.credits) && Unannounced(c.ms)
  {
    MissingPhases(c);
    OnlySilence(c.m.n, c.s.n, c.ms, c.sm);
  }

  lemma GoodParts(c: Conn)
    requires Good(c)
    ensures Phases(c) && Rooted(c.m.n, true) && Inv(c.m.n, c.s.n, c.sm, c.ms, OPENING_LAG)
  {
  }

  lemma MissingLeavesStuck(c: Conn, recv: bool, expired: bool)
    requires Good(c) && CanPoll(SeatOf(c, SideB), recv) && Misses(c, recv)
    ensures Stuck(After(c, Poll(SideB, recv, expired)))
  {
    GoodParts(c);
    MissingIsSilent(c);
    StuckTurn(c, recv, expired);
  }

  lemma {:induction false} SlideIsSuffix(w: seq<Elem>, ack: int)
    ensures Slide(w, ack) == w[|w| - |Slide(w, ack)|..]
  {
    if w != [] && Cmp(w[0].frame.seqNum, ack) <= 0 {
      SlideIsSuffix(w[1..], ack);
    }
  }

  lemma MuteTransmits(n: Node, now: int)
    requires HostShape(n.h) && Mute(n)
    ensures Mute(AfterTransmit(n, now))
    ensures forall f :: f in HostSpec.Transmit(n.h, now).frames ==> f.chan == 0
  {
    ChooseKeepsLink(n.h);
    var e, req := n.h.link, Choose(n.h).chosen;
    SelectedChannelHasCredit(e.flow);
    TxEffect(e, req, now);
    var t := TxStep(e, req, now);
    MuteSends(e, req, now);
    assert AfterTransmit(n, now).h.link == t.ep;
    forall f | f in t.frames ensures f.chan == 0 {
      if IsResend(f, t.ep.window, e.nextRx) {
        var k :| 0 <= k < |t.ep.window| && f == t.ep.window[k].frame.(seqAck := Prev(e.nextRx));
      }
    }
  }

  lemma MuteSends(e: Ep, req: Option<Msg>, now: int)
    requires IsVector(e.credits) && e.flow == [0, 0, 0, 0, 0, 0]
    requires req.Some? ==> req.value.header.chan < CHANNEL_NUM
    requires forall k :: 0 <= k < |e.window| ==> e.window[k].frame.chan == 0
    ensures var s := SendNormal(e, req, now);
            && s.ep.flow == e.flow && s.ep.inbox == e.inbox
            && (forall k :: 0 <= k < |s.ep.window| ==> s.ep.window[k].frame.chan == 0)
            && (forall f :: f in s.frames ==> f.chan == 0)
  {
    SelectedChannelHasCredit(e.flow);
    assert SelectMaxCreditChannel(e.flow) == 0;
  }

  lemma SilentRx(e: Ep, f: Frame, now: int)
    requires |e.credits| == CHANNEL_NUM && f.chan < CHANNEL_NUM && f.msgs == [] && f.ack == TLOE_ACK
    ensures var r := RxStep(e, f, now);
            r.frames == [] && r.ep.inbox == e.inbox && r.ep.flow == e.flow && r.ep.window == Slide(e.window, f.seqAck)
  {
    assert e.inbox + [] == e.inbox;
  }

  lemma MuteReceives(n: Node, fl: Flight, now: int)
    requires HostShape(n.h) && Mute(n) && fl.frame.chan < CHANNEL_NUM
    requires fl.frame.msgs == [] && fl.frame.ack == TLOE_ACK
    ensures Mute(AfterReceive(n, fl, now)) && HostSpec.Receive(n.h, fl.frame, now).frames == []
  {
    SilentRx(n.h.link, fl.frame, now);
    SlideIsSuffix(n.h.link.window, fl.frame.seqAck);
  }

  lemma StuckMaster(c: Conn, act: Action)
    requires Stuck(c) && CanAct(SeatOf(c, SideA), act)
    ensures Stuck(After(c, Act(SideA, act)))
  {
    var n := c.m.n;
    match act {
      case Ask(_) =>
      case Transmit(now) => MuteTransmits(n, now);
      case Receive(now) => MuteReceives(n, c.sm[0], now);
      case Serve =>
      case Lose(_) =>
    }
  }

  /** Once stuck, stuck for ever: the slave never returns. */
  lemma StuckStaysStuck(c: Conn, mv: ConnMove)
    requires Stuck(c) && Can(c, mv)
    ensures Stuck(After(c, mv))
  {
    match mv {
      case Poll(side, recv, expired) => StuckTurn(c, recv, expired);
      case Act(side, act) => StuckMaster(c, act);
      case Drop(side, i) =>
    }
  }

  // ----- Sides that run -----

  /** Steps of a running side and losses are those of the two-endpoint system. */
  lemma ActIsStep(c: Conn, mv: ConnMove)
    requires Can(c, mv) && !mv.Poll?
    ensures Step(SystemOf(c), Move(mv.side, if mv.Act? then mv.act else Lose(mv.i)), SystemOf(After(c, mv)))
  {
  }

  lemma StepKeepsRoot(w: System, mv: Move, w': System)
    requires Step(w, mv, w') && Rooted(w.a, true) && Rooted(w.b, false)
    ensures Rooted(w'.a, true) && Rooted(w'.b, false)
    ensures w'.a.granted == w.a.granted && w'.b.granted == w.b.granted
    ensures w.a.got <= w'.a.got && w.b.got <= w'.b.got
  {
  }

  lemma TransmitIsLate(n: Node, now: int)
    requires NodeInv(n) && ParkInv(n) && SentInv(n) && WindowInv(n)
    requires SentInv(AfterTransmit(n, now)) && WindowInv(AfterTransmit(n, now))
    ensures forall f :: f in HostSpec.Transmit(n.h, now).frames ==>
              Unwrap(f.seqNum, GTx(AfterTransmit(n, now))) >= n.txOff + n.open
  {
    TransmitEffect(n, now);
    var built, g := BuildsFrame(n.h.link, Request(n)), NormalFrame(n.h.link, Request(n));
    forall f | f in HostSpec.Transmit(n.h, now).frames
      ensures Unwrap(f.seqNum, GTx(AfterTransmit(n, now))) >= n.txOff + n.open
    {
      EmittedIsLate(n, AfterTransmit(n, now), built, g, f);
    }
  }

  /** Frames are added, none of them numbered below lo. */
  predicate AddsLate(out: seq<Flight>, out': seq<Flight>, lo: int) {
    && |out| <= |out'| && out'[..|out|] == out
    && forall i :: |out| <= i < |out'| ==> out'[i].seqG >= lo
  }

  lemma TagsAreLate(out: seq<Flight>, fs: seq<Frame>, tx: int, rx: int, lo: int)
    requires forall f :: f in fs ==> Unwrap(f.seqNum, tx) >= lo
    ensures AddsLate(out, out + TagAll(fs, tx, rx), lo)
  {
    var more := TagAll(fs, tx, rx);
    forall i | 0 <= i < |more| ensures more[i].seqG >= lo {
      assert fs[i] in fs;
    }
  }

  lemma TransmitAddsLate(l: Local, now: int)
    requires NodeInv(l.n) && ParkInv(l.n) && SentInv(l.n) && WindowInv(l.n)
    requires SentInv(AfterTransmit(l.n, now)) && WindowInv(AfterTransmit(l.n, now))
    ensures var n', fs := AfterTransmit(l.n, now), HostSpec.Transmit(l.n.h, now).frames;
            AddsLate(l.out, l.out + TagAll(fs, GTx(n'), Seen(n')), l.n.txOff + l.n.open)
  {
    TransmitIsLate(l.n, now);
    var n' := AfterTransmit(l.n, now);
    TagsAreLate(l.out, HostSpec.Transmit(l.n.h, now).frames, GTx(n'), Seen(n'), l.n.txOff + l.n.open);
  }

  /** Whatever a running side adds comes after all its opening frames. */
  lemma RunnerAddsLate(l: Local, act: Action, p: Node)
    requires LocalInv(l, p, OPENING_LAG) && Enabled(l, act) && FreshAck(l, act) && !act.Lose?
    ensures AddsLate(l.out, LocalStep(l, act).out, l.n.txOff + l.n.open)
  {
    match act {
      case Transmit(now) => TransmitStepAddsLate(l, now, p);
      case Receive(now) => ReceiveStepAddsLate(l, now, p);
      case _ => OthersAddLate(l, act);
    }
  }

  lemma TransmitStepAddsLate(l: Local, now: int, p: Node)
    requires LocalInv(l, p, OPENING_LAG) && Enabled(l, Action.Transmit(now)) && FreshAck(l, Action.Transmit(now))
    ensures AddsLate(l.out, LocalStep(l, Action.Transmit(now)).out, l.n.txOff + l.n.open)
  {
    TransmitKeepsInv(l.n, p, l.inc, l.out, OPENING_LAG, now);
    TransmitAddsLate(l, now);
  }

  lemma OthersAddLate(l: Local, act: Action)
    requires Enabled(l, act) && (act.Ask? || act.Serve?)
    ensures AddsLate(l.out, LocalStep(l, act).out, l.n.txOff + l.n.open)
  {
    AddsNothing(l.out, LocalStep(l, act).out, l.n.txOff + l.n.open);
  }

  lemma AddsNothing(out: seq<Flight>, out': seq<Flight>, lo: int)
    requires out' == out
    ensures AddsLate(out, out', lo)
  {
  }

  lemma ReceiveStepAddsLate(l: Local, now: int, p: Node)
    requires LocalInv(l, p, OPENING_LAG) && Enabled(l, Action.Receive(now))
    ensures AddsLate(l.out, LocalStep(l, Action.Receive(now)).out, l.n.txOff + l.n.open)
  {
    ReceiveKeepsInv(l.n, p, l.inc, l.out, OPENING_LAG, now);
    ReceiveLocal(l, now);
    AddsNothing(l.out, LocalStep(l, Action.Receive(now)).out, l.n.txOff + l.n.open);
  }

  /** A running side accepts a frame only if it carries the number expected. */
  lemma AcceptsNext(l: Local, act: Action, p: Node)
    requires Inv(l.n, p, l.inc, l.out, OPENING_LAG) && Enabled(l, act) && !act.Lose?
    ensures var l' := LocalStep(l, act);
            && (l'.inc == l.inc || (act.Receive? && l.inc != [] && l'.inc == l.inc[1..]))
            && (l'.n.got == l.n.got
                || (act.Receive? && l.inc != [] && l'.n.got == l.n.got + 1 && l.inc[0].seqG == GRx(l.n)))
  {
    if act.Receive? {
      var fl := l.inc[0];
      assert BwdOk(l.n, p, fl) && FwdOk(p, l.n, fl, OPENING_LAG);
      IncomingFits(l.n, p, fl, OPENING_LAG);
      ReceiveEffect(l.n, fl, act.now);
      if fl.frame.ftype != TYPE_ACKONLY {
        ClassifyRefines(p, l.n, fl, OPENING_LAG);
      }
    }
  }

  lemma ActPhases(c: Conn, side: Side, act: Action)
    requires Good(c) && CanAct(SeatOf(c, side), act)
    requires SystemInv(SystemOf(After(c, Act(side, act))), OPENING_LAG)
    requires c.m.n.got <= After(c, Act(side, act)).m.n.got
    requires After(c, Act(side, act)).m.n.granted == c.m.n.granted
    ensures Phases(After(c, Act(side, act)))
  {
    if side.SideA? {
      MasterActPhases(c, act);
    } else {
      SlaveActPhases(c, act);
    }
  }

  lemma MasterActPhases(c: Conn, act: Action)
    requires Good(c) && CanAct(SeatOf(c, SideA), act)
    requires SystemInv(SystemOf(After(c, Act(SideA, act))), OPENING_LAG)
    requires c.m.n.got <= After(c, Act(SideA, act)).m.n.got
    requires After(c, Act(SideA, act)).m.n.granted == c.m.n.granted
    ensures Phases(After(c, Act(SideA, act)))
  {
    var l := Local(c.m.n, c.sm, c.ms);
    RunnerAddsLate(l, act, c.s.n);
    MasterPhases(c, After(c, Act(SideA, act)));
  }

  lemma MasterPhases(c: Conn, c': Conn)
    requires Phases(c) && c.m.Runs? && c'.m.Runs? && c'.s == c.s
    requires AddsLate(c.ms, c'.ms, 6) && c.m.n.got <= c'.m.n.got && c'.m.n.granted == c.m.n.granted
    ensures Phases(c')
  {
    forall i | 0 <= i < |c.ms| ensures c'.ms[i] == c.ms[i] {
      assert c'.ms[i] == c'.ms[..|c.ms|][i];
    }
  }

  lemma SlaveActPhases(c: Conn, act: Action)
    requires Good(c) && CanAct(SeatOf(c, SideB), act)
    ensures Phases(After(c, Act(SideB, act)))
  {
    InvSymmetric(c.m.n, c.s.n, c.sm, c.ms, OPENING_LAG);
    AcceptsNext(Local(c.s.n, c.ms, c.sm), act, c.m.n);
    SlavePhases(c, After(c, Act(SideB, act)));
  }

  lemma SlavePhases(c: Conn, c': Conn)
    requires Phases(c) && Rooted(c.s.n, false) && c.s.Runs? && c'.s.Runs? && c'.m == c.m
    requires c'.ms == c.ms || (c.ms != [] && c'.ms == c.ms[1..])
    requires c'.s.n.got == c.s.n.got
          || (c.ms != [] && c'.ms == c.ms[1..] && c'.s.n.got == c.s.n.got + 1 && c.ms[0].seqG == GRx(c.s.n))
    ensures Phases(c')
  {
    if c.ms != [] {
      OrderedWithout(c.ms, 0);
    }
  }

  lemma DropPhases(c: Conn, side: Side, i: nat)
    requires Phases(c) && i < |SeatOf(c, side).inc|
    ensures Phases(After(c, Drop(side, i)))
  {
    if side.SideB? {
      OrderedWithout(c.ms, i);
    }
  }

  lemma ActKeepsSystem(c: Conn, mv: ConnMove)
    requires Good(c) && Can(c, mv) && !mv.Poll?
    ensures var w' := SystemOf(After(c, mv));
            && SystemInv(w', OPENING_LAG) && Rooted(w'.a, true) && Rooted(w'.b, false)
            && w'.a.granted == c.m.n.granted && c.m.n.got <= w'.a.got
  {
    var m := Move(mv.side, if mv.Act? then mv.act else Lose(mv.i));
    ActIsStep(c, mv);
    StepKeepsInv(SystemOf(c), m, SystemOf(After(c, mv)), OPENING_LAG);
    StepKeepsRoot(SystemOf(c), m, SystemOf(After(c, mv)));
  }

  lemma ActKeepsGood(c: Conn, mv: ConnMove)
    requires Good(c) && Can(c, mv) && !mv.Poll?
    ensures Good(After(c, mv))
  {
    ActKeepsSystem(c, mv);
    if mv.Act? {
      ActPhases(c, mv.side, mv.act);
    } else {
      DropPhases(c, mv.side, mv.i);
    }
  }

  predicate GoodOrStuck(c: Conn) {
    Good(c) || Stuck(c)
  }

  lemma PollKeepsGood(c: Conn, mv: ConnMove)
    requires Good(c) && Can(c, mv) && mv.Poll? && !(mv.side.SideB? && Misses(c, mv.recv))
    ensures Good(After(c, mv))
  {
    if mv.side.SideA? {
      MasterPollKeepsGood(c, mv.recv, mv.expired);
    } else {
      SlavePollKeepsGood(c, mv.recv, mv.expired);
    }
  }

  /** Every step keeps a connection good, unless an opening slave takes a frame too late. */
  lemma NoMissKeepsGood(c: Conn, mv: ConnMove)
    requires Good(c) && Can(c, mv) && !(mv.Poll? && mv.side.SideB? && Misses(c, mv.recv))
    ensures Good(After(c, mv))
  {
    if mv.Poll? {
      PollKeepsGood(c, mv);
    } else {
      ActKeepsGood(c, mv);
    }
  }

  lemma StepKeepsGood(c: Conn, mv: ConnMove)
    requires Good(c) && Can(c, mv)
    ensures GoodOrStuck(After(c, mv))
  {
    if mv.Poll? && mv.side.SideB? && Misses(c, mv.recv) {
      MissingLeavesStuck(c, mv.recv, mv.expired);
    } else {
      NoMissKeepsGood(c, mv);
    }
  }

  lemma RunStepKeeps(cs: seq<Conn>, mvs: seq<ConnMove>, i: nat)
    requires IsConnRun(cs, mvs) && 0 < i < |cs| && GoodOrStuck(cs[i - 1])
    ensures GoodOrStuck(cs[i])
  {
    assert cs[i] == After(cs[i - 1], mvs[i - 1]);
    if Good(cs[i - 1]) {
      StepKeepsGood(cs[i - 1], mvs[i - 1]);
    } else {
      StuckStaysStuck(cs[i - 1], mvs[i - 1]);
    }
  }

  /** Throughout every run from a cold start, whatever is lost. */
  lemma ConnRunKeeps(cs: seq<Conn>, mvs: seq<ConnMove>, i: nat)
    requires IsConnRun(cs, mvs) && i < |cs|
    ensures GoodOrStuck(cs[i])
  {
    ColdIsGood(cs[0]);
    forall k | 0 < k < |cs| && GoodOrStuck(cs[k - 1]) ensures GoodOrStuck(cs[k]) {
      RunStepKeeps(cs, mvs, k);
    }
    Throughout(cs, GoodOrStuck, i);
  }

  /** A step of a run, and what it starts from. */
  lemma RunStepIs(cs: seq<Conn>, mvs: seq<ConnMove>, i: nat)
    requires IsConnRun(cs, mvs) && 0 < i < |cs|
    ensures GoodOrStuck(cs[i - 1]) && ConnStep(cs[i - 1], mvs[i - 1], cs[i])
  {
    ConnRunKeeps(cs, mvs, i - 1);
  }
}
