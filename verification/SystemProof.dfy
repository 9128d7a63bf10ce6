/** The invariant holds at the start and is kept by every step, hence in every run. */
module SystemProof {
  import opened Options
  import opened SeqNum
  import opened TileLink
  import opened FlowSpec
  import opened LinkSpec
  import opened HostSpec
  import opened World
  import opened Invariant
  import opened LinkFacts
  import opened TransmitProof
  import opened ReceiveProof
  import opened CreditProof

  // ----- Transmit -----

  lemma ChooseKeepsBuffers(h: Host)
    requires HostShape(h) && AllAdmissible(h.msgBuf) && AllAdmissible(h.respBuf)
    ensures var c := Choose(h);
            && c.host == h.(selectCnt := c.host.selectCnt, msgBuf := c.host.msgBuf, respBuf := c.host.respBuf)
            && HostShape(c.host) && AllAdmissible(c.host.msgBuf) && AllAdmissible(c.host.respBuf)
            && (h.pending.Some? ==> c.chosen == h.pending)
  {
  }

  /** Every message select_buffer returns is in a frame or held over for the next TX. */
  lemma TransmitKeepsTaken(n: Node, now: int)
    requires NodeInv(n) && ParkInv(n)
    ensures var n' := AfterTransmit(n, now);
            && n'.taken == Flatten(n'.sent) + Held(n') && AllAdmissible(Held(n'))
  {
    var n', req := AfterTransmit(n, now), Request(n);
    var e := n.h.link;
    var built, f := BuildsFrame(e, req), NormalFrame(e, req);
    TransmitEffect(n, now);
    ChooseKeepsLink(n.h);
    ChosenAdmissible(n);
    TxEffect(e, req, now);
    SendNormalCredits(e, req, now);
    assert n'.h.pending == TxStep(e, req, now).unsent == SendNormal(e, req, now).unsent;
    TakenFromParts(n, n', built, f, req);
  }

  lemma TakenFromParts(n: Node, n': Node, built: bool, f: Frame, req: Option<Msg>)
    requires n.taken == Flatten(n.sent) + Held(n)
    requires n.h.pending.Some? ==> req == n.h.pending
    requires n'.taken == (if n.h.pending.None? && req.Some? then n.taken + [req.value] else n.taken)
    requires n'.sent == if built then n.sent + [f] else n.sent
    requires built && f.msgs != [] ==> f.msgs == [f.msgs[0]] && req == Some(f.msgs[0]) && n'.h.pending == None
    requires !(built && f.msgs != []) ==> n'.h.pending == req
    requires req.Some? ==> Admissible(req.value)
    ensures n'.taken == Flatten(n'.sent) + Held(n') && AllAdmissible(Held(n'))
  {
    var before := Flatten(n.sent);
    assert n'.taken == before + if req.Some? then [req.value] else [];
    if built {
      FlattenAppend(n.sent, f);
    }
    if built && f.msgs != [] {
      assert Flatten(n'.sent) == before + [req.value];
    } else {
      assert Flatten(n'.sent) == before;
    }
  }

  lemma FlattenAppend(fs: seq<Frame>, f: Frame)
    ensures Flatten(fs + [f]) == Flatten(fs) + f.msgs
  {
    assert (fs + [f])[..|fs|] == fs;
  }

  lemma TransmitKeepsLinkShape(n: Node, now: int)
    requires NodeInv(n) && ParkInv(n) && WindowInv(n) && SentInv(n)
    ensures Shape(AfterTransmit(n, now).h.link)
  {
    var n' := AfterTransmit(n, now);
    var e, req := n.h.link, Request(n);
    TransmitEffect(n, now);
    ChooseKeepsLink(n.h);
    TransmitSpends(n, now);
    SpendsKeepsVectors(n, n', BuildsFrame(e, req), NormalFrame(e, req));
    TxEffect(e, req, now);
    assert n'.h.link.ackedSeq == e.ackedSeq;
  }

  lemma TransmitKeepsFlowZero(n: Node, n': Node, built: bool, f: Frame)
    requires Spends(n, n', built, f)
    ensures |n'.h.link.flow| == |n.h.link.flow| && n'.h.link.flow[0] == n.h.link.flow[0]
    ensures n.h.link.flow == [0, 0, 0, 0, 0, 0] ==> n'.h.link.flow == n.h.link.flow
  {
  }

  lemma TransmitKeepsNode(n: Node, now: int)
    requires NodeInv(n) && ParkInv(n) && WindowInv(n) && SentInv(n)
    ensures NodeInv(AfterTransmit(n, now))
  {
    var n' := AfterTransmit(n, now);
    TransmitKeepsTaken(n, now);
    TransmitKeepsLinkShape(n, now);
    ChooseKeepsBuffers(n.h);
    TransmitEffect(n, now);
    TransmitSpends(n, now);
    TransmitKeepsFlowZero(n, n', BuildsFrame(n.h.link, Request(n)), NormalFrame(n.h.link, Request(n)));
    NodeFromParts(n, n', Choose(n.h).host);
  }

  lemma NodeFromParts(n: Node, n': Node, h: Host)
    requires NodeInv(n)
    requires HostShape(h) && AllAdmissible(h.msgBuf) && AllAdmissible(h.respBuf) && h.stats == n.h.stats
    requires n'.h == h.(link := n'.h.link, pending := n'.h.pending)
    requires Shape(n'.h.link) && n'.h.link.status == n.h.link.status && n'.h.link.inbox == n.h.link.inbox
    requires n'.h.link.flow[0] == 0
    requires n.h.link.flow == [0, 0, 0, 0, 0, 0] ==> n'.h.link.flow == n.h.link.flow
    requires n'.delivered == n.delivered && n'.handled == n.handled
    requires n'.taken == Flatten(n'.sent) + Held(n') && AllAdmissible(Held(n'))
    ensures NodeInv(n')
  {
    if n'.h.pending.Some? {
      assert Admissible(Held(n')[0]);
    }
  }

  lemma TransmitKeepsInv(n: Node, p: Node, inc: seq<Flight>, out: seq<Flight>, lag: int, now: int)
    requires Inv(n, p, inc, out, lag)
    requires FreshAck(Local(n, inc, out), Action.Transmit(now))
    ensures var n' := AfterTransmit(n, now);
            Inv(n', p, inc, out + TagAll(HostSpec.Transmit(n.h, now).frames, GTx(n'), Seen(n')), lag)
  {
    var n' := AfterTransmit(n, now);
    var fs := HostSpec.Transmit(n.h, now).frames;
    TransmitEffect(n, now);
    var built, f := BuildsFrame(n.h.link, Request(n)), NormalFrame(n.h.link, Request(n));
    ChosenAdmissible(n);
    BuiltFrameOk(n.h.link, Request(n));
    TransmitSpends(n, now);
    TransmitKeepsNode(n, now);
    SendsKeepsInv(n, n', built, f, fs, p, inc, out, lag);
  }

  lemma SendsKeepsInv(n: Node, n': Node, built: bool, f: Frame, fs: seq<Frame>,
                      p: Node, inc: seq<Flight>, out: seq<Flight>, lag: int)
    requires Inv(n, p, inc, out, lag)
    requires |n.h.link.window| < WINDOW_SIZE && n.parked != [] ==> GRx(n) - AckNumber(n.parked[0]) < HALF
    requires Sends(n, n', built, f) && Spends(n, n', built, f) && FrameOk(f)
    requires forall g :: g in fs ==> MayEmit(g, n, n', built, f)
    requires NodeInv(n')
    ensures Inv(n', p, inc, out + TagAll(fs, GTx(n'), Seen(n')), lag)
  {
    SendsKeepsForward(n, n', built, f, fs, p, inc, out, lag);
    SendsKeepsBackward(n, n', built, f, fs, p, inc, out, lag);
    SpendsKeepsCredit(n, n', built, f, p);
  }

  // ----- Receive -----

  lemma ReceiveKeepsShape(n: Node, fl: Flight, now: int, o: Outcome)
    requires Shape(n.h.link) && HostShape(n.h)
    requires fl.frame.chan < CHANNEL_NUM && fl.frame.ack == TLOE_ACK && IsSeq(fl.frame.seqAck)
    requires |n.h.link.inbox| + |fl.frame.msgs| <= INBOX_CAPACITY
    requires Hears(n, AfterReceive(n, fl, now), fl, o)
    ensures Shape(AfterReceive(n, fl, now).h.link)
  {
    var n', f := AfterReceive(n, fl, now), fl.frame;
    assert IsSeq(n'.h.link.ackedSeq) by {
      assert n'.h.link.ackedSeq in {n.h.link.ackedSeq, f.seqAck};
    }
    assert Next(f.seqNum) == (f.seqNum + 1) % SEQ_MOD;
    VectorAfterCredit(n.h.link.credits, f.chan, f.credit);
  }

  lemma VectorAfterCredit(v: seq<int>, chan: nat, credit: nat)
    requires IsVector(v) && chan < CHANNEL_NUM
    ensures IsVector(AddCredit(v, chan, credit))
  {
  }

  lemma HearsKeepsNode(n: Node, n': Node, fl: Flight, o: Outcome)
    requires NodeInv(n) && Hears(n, n', fl, o) && Shape(n'.h.link)
    requires o == Accepted ==> AllAdmissible(fl.frame.msgs)
    ensures NodeInv(n')
  {
    var f := fl.frame;
    assert Held(n') == Held(n);
    if o == Accepted {
      var a, b := n.h.link.inbox, f.msgs;
      forall i | 0 <= i < |a + b| ensures Admissible((a + b)[i]) {
        if i >= |a| {
          assert (a + b)[i] == b[i - |a|];
        }
      }
      assert n.handled + (a + b) == (n.handled + a) + b;
    }
  }

  lemma ReceiveKeepsInv(n: Node, p: Node, inc: seq<Flight>, out: seq<Flight>, lag: int, now: int)
    requires Inv(n, p, inc, out, lag) && inc != [] && inc[0].frame.chan < CHANNEL_NUM
    ensures Inv(AfterReceive(n, inc[0], now), p, inc[1..], out, lag)
    ensures HostSpec.Receive(n.h, inc[0].frame, now).frames == []
  {
    var fl := inc[0];
    var f := fl.frame;
    assert BwdOk(n, p, fl) && FwdOk(p, n, fl, lag);
    var o := OutcomeOf(n.h.link, f);
    IncomingFits(n, p, fl, lag);
    ReceiveEffect(n, fl, now);
    var n' := AfterReceive(n, fl, now);
    ReceiveKeepsShape(n, fl, now, o);
    HearsKeepsInv(n, n', o, p, inc, out, lag);
  }

  /** Whatever is in flight, its messages fit the inbox. */
  lemma IncomingFits(n: Node, p: Node, fl: Flight, lag: int)
    requires NodeInv(n) && CreditInv(p, n) && SentInv(p) && FwdOk(p, n, fl, lag)
    ensures |n.h.link.inbox| + |fl.frame.msgs| <= INBOX_CAPACITY
  {
    InboxBounded(n, p);
    if fl.frame.ftype != TYPE_ACKONLY {
      assert FrameOk(p.sent[fl.seqG - p.txOff]);
    }
  }

  lemma HearsKeepsInv(n: Node, n': Node, o: Outcome, p: Node, inc: seq<Flight>, out: seq<Flight>, lag: int)
    requires Inv(n, p, inc, out, lag) && inc != []
    requires Hears(n, n', inc[0], o) && Shape(n'.h.link)
    ensures Inv(n', p, inc[1..], out, lag)
  {
    var fl := inc[0];
    assert FwdOk(p, n, fl, lag);
    HearsKeepsForward(n, n', o, p, inc, out, lag);
    HearsKeepsBackward(n, n', o, p, inc, out, lag);
    if o == Accepted {
      AcceptedIsNext(n, p, fl, lag);
      assert FrameOk(p.sent[n.got]);
    }
    HearsKeepsCredit(n, n', fl, o, p);
    HearsKeepsNode(n, n', fl, o);
  }

  // ----- Serve -----

  lemma AnswerAdmissible(mem: Memory, m: Msg)
    requires |mem| == MEM_SIZE && Admissible(m)
    ensures IsPutFull(m) ==> Admissible(PutResponse(m))
    ensures IsGet(m) && InBounds(m) ==> Admissible(GetResponse(mem, m))
  {
  }

  lemma AppendAdmissible(ms: seq<Msg>, m: Msg)
    requires AllAdmissible(ms) && Admissible(m)
    ensures AllAdmissible(ms + [m])
  {
  }

  lemma TailAdmissible(ms: seq<Msg>)
    requires AllAdmissible(ms) && ms != []
    ensures AllAdmissible(ms[1..])
  {
  }

  lemma DispatchKeeps(h: Host, m: Msg)
    requires HostShape(h) && Admissible(m) && AllAdmissible(h.respBuf) && |h.respBuf| < RESPONSE_CAPACITY
    ensures var d := Dispatch(h, m);
            && d == h.(link := d.link, mem := d.mem, respBuf := d.respBuf, stats := d.stats)
            && d.link == h.link.(status := d.link.status)
            && (d.link.status == h.link.status || d.link.status == OutOfBounds)
            && |d.mem| == MEM_SIZE && |d.respBuf| <= RESPONSE_CAPACITY
            && AllAdmissible(d.respBuf)
            && d.stats.dropResponse == h.stats.dropResponse
  {
    AnswerAdmissible(h.mem, m);
  }

  /** What the handlers leave alone, whichever of them ran. */
  predicate Dispatched(h: Host, d: Host) {
    && d == h.(link := d.link, mem := d.mem, respBuf := d.respBuf, stats := d.stats)
    && d.link == h.link.(status := d.link.status)
    && |d.mem| == MEM_SIZE && |d.respBuf| <= RESPONSE_CAPACITY && AllAdmissible(d.respBuf)
    && d.stats.dropResponse == h.stats.dropResponse
  }

  /** The handler exited. */
  lemma ExitKeepsNode(n: Node, d: Host)
    requires NodeInv(n) && Dispatched(n.h, d) && d.link.status == OutOfBounds
    ensures NodeInv(n.(h := d))
  {
    assert Held(n.(h := d)) == Held(n);
  }

  function Consumed(n: Node, d: Host): Node
    requires n.h.link.inbox != [] && n.h.link.inbox[0].header.chan < CHANNEL_NUM
    requires d.link.inbox != [] && |d.link.flow| == CHANNEL_NUM
  {
    var m := n.h.link.inbox[0];
    n.(h := d.(link := d.link.(inbox := d.link.inbox[1..], flow := AddFlow(d.link.flow, m.header.chan, Flits(m)))),
       handled := n.handled + [m])
  }

  /** The handler consumed the oldest message. */
  lemma ConsumeKeepsNode(n: Node, d: Host)
    requires NodeInv(n) && Dispatched(n.h, d) && d.link.status == n.h.link.status && n.h.link.inbox != []
    ensures NodeInv(Consumed(n, d))
  {
    var n' := Consumed(n, d);
    TailAdmissible(n.h.link.inbox);
    assert Held(n') == Held(n);
    ShapeAfterConsume(n.h, d, n'.h, n.h.link.inbox[0]);
    assert n.handled + n.h.link.inbox == n'.handled + n'.h.link.inbox;
  }

  lemma ConsumeReturns(n: Node, d: Host)
    requires NodeInv(n) && Dispatched(n.h, d) && n.h.link.inbox != []
    ensures Returns(n, Consumed(n, d), n.h.link.inbox[0])
  {
  }

  lemma ShapeAfterConsume(h: Host, d: Host, h': Host, m: Msg)
    requires HostShape(h) && Dispatched(h, d) && h.link.inbox != [] && m == h.link.inbox[0]
    requires h' == d.(link := d.link.(inbox := h.link.inbox[1..],
                                      flow := AddFlow(h.link.flow, m.header.chan, Flits(m))))
    requires m.header.chan != 0
    ensures HostShape(h') && h'.link.flow[0] == h.link.flow[0]
  {
    assert IsVector(h'.link.flow);
  }

  lemma ServeCases(n: Node)
    requires NodeInv(n) && n.h.link.status.Running?
    ensures var n' := AfterServe(n);
            if !CanHandle(n.h) then n' == n
            else
              var d := Dispatch(n.h, n.h.link.inbox[0]);
              && Dispatched(n.h, d) && (d.link.status == OutOfBounds || d.link.status.Running?)
              && n' == if d.link.status.Running? then Consumed(n, d) else n.(h := d)
  {
    if CanHandle(n.h) {
      DispatchKeeps(n.h, n.h.link.inbox[0]);
    }
  }

  lemma ServeKeepsNode(n: Node)
    requires NodeInv(n) && n.h.link.status.Running?
    ensures NodeInv(AfterServe(n)) && SameLink(n, AfterServe(n))
    ensures var n' := AfterServe(n);
            || (n'.h.link.inbox == n.h.link.inbox && n'.h.link.flow == n.h.link.flow)
            || (n.h.link.inbox != [] && Returns(n, n', n.h.link.inbox[0]))
  {
    ServeCases(n);
    if CanHandle(n.h) {
      var d := Dispatch(n.h, n.h.link.inbox[0]);
      if d.link.status.Running? {
        ConsumeKeepsNode(n, d);
        ConsumeReturns(n, d);
      } else {
        ExitKeepsNode(n, d);
      }
    }
  }

  /** Steps that leave the sequence-number side of a node alone keep both directions. */
  predicate SameLink(n: Node, n': Node) {
    && n' == n.(h := n'.h, handled := n'.handled, asked := n'.asked)
    && n'.h.link == n.h.link.(status := n'.h.link.status, inbox := n'.h.link.inbox, flow := n'.h.link.flow)
  }

  lemma SameLinkKeepsDir(n: Node, n': Node, p: Node, inc: seq<Flight>, out: seq<Flight>, lag: int)
    requires SameLink(n, n')
    requires Dir(n, p, out, inc, lag) && Dir(p, n, inc, out, lag)
    ensures Dir(n', p, out, inc, lag) && Dir(p, n', inc, out, lag)
  {
    FwdStable(n, n', p, out, lag);
    BwdStable(p, n, n', out);
    forall i | 0 <= i < |inc| ensures BwdOk(n', p, inc[i]) && FwdOk(p, n', inc[i], lag) {
      assert BwdOk(n, p, inc[i]) && FwdOk(p, n, inc[i], lag);
    }
  }

  lemma SameCreditsKeepsCredit(n: Node, n': Node, p: Node)
    requires CreditInv(n, p) && CreditInv(p, n)
    requires n'.sent == n.sent && n'.got == n.got && n'.granted == n.granted && n'.h.link.credits == n.h.link.credits
    requires n'.h.link.flow == n.h.link.flow && n'.h.link.inbox == n.h.link.inbox
    ensures CreditInv(n', p) && CreditInv(p, n')
  {
    forall c: nat | CHANNEL_A <= c <= CHANNEL_E
      ensures CreditTotal(c, n', p) == n.granted[c] && CreditTotal(c, p, n') == p.granted[c]
    {
      assert CreditTotal(c, n, p) == n.granted[c] && CreditTotal(c, p, n) == p.granted[c];
      assert Unaccepted(n', p) == Unaccepted(n, p) && Unaccepted(p, n') == Unaccepted(p, n);
    }
  }

  lemma ServeKeepsInv(n: Node, p: Node, inc: seq<Flight>, out: seq<Flight>, lag: int)
    requires Inv(n, p, inc, out, lag) && n.h.link.status.Running?
    ensures Inv(AfterServe(n), p, inc, out, lag)
  {
    var n' := AfterServe(n);
    ServeKeepsNode(n);
    SameLinkKeepsDir(n, n', p, inc, out, lag);
    if n.h.link.inbox != [] && Returns(n, n', n.h.link.inbox[0]) {
      ReturnsKeepsCredit(n, n', n.h.link.inbox[0], p);
    } else {
      SameCreditsKeepsCredit(n, n', p);
    }
  }

  // ----- Ask and Lose -----

  lemma AskKeepsInv(n: Node, p: Node, inc: seq<Flight>, out: seq<Flight>, lag: int, m: Msg)
    requires Inv(n, p, inc, out, lag) && Admissible(m) && |n.h.msgBuf| < MESSAGE_CAPACITY
    ensures Inv(AfterAsk(n, m), p, inc, out, lag)
  {
    var n' := AfterAsk(n, m);
    AppendAdmissible(n.h.msgBuf, m);
    assert Held(n') == Held(n);
    SameLinkKeepsDir(n, n', p, inc, out, lag);
    SameCreditsKeepsCredit(n, n', p);
  }

  lemma LoseKeepsInv(n: Node, p: Node, inc: seq<Flight>, out: seq<Flight>, lag: int, i: nat)
    requires Inv(n, p, inc, out, lag) && i < |inc|
    ensures Inv(n, p, inc[..i] + inc[i + 1..], out, lag)
  {
    LossKeepsChannel(p, n, inc, i, lag);
    LossKeepsChannel(n, p, inc, i, lag);
  }

  // ----- Runs -----

  lemma ReceiveLocal(l: Local, now: int)
    requires Enabled(l, Action.Receive(now)) && HostSpec.Receive(l.n.h, l.inc[0].frame, now).frames == []
    ensures LocalStep(l, Action.Receive(now)) == Local(AfterReceive(l.n, l.inc[0], now), l.inc[1..], l.out)
  {
    assert LocalStep(l, Action.Receive(now)).out == l.out;
  }

  predicate LocalInv(l: Local, p: Node, lag: int) {
    Inv(l.n, p, l.inc, l.out, lag)
  }

  lemma ReceiveStepKeepsInv(l: Local, p: Node, lag: int, now: int)
    requires LocalInv(l, p, lag) && Enabled(l, Action.Receive(now))
    ensures LocalInv(LocalStep(l, Action.Receive(now)), p, lag)
  {
    ReceiveKeepsInv(l.n, p, l.inc, l.out, lag, now);
    ReceiveLocal(l, now);
  }

  lemma TransmitStepKeepsInv(l: Local, p: Node, lag: int, now: int)
    requires LocalInv(l, p, lag) && Enabled(l, Action.Transmit(now)) && FreshAck(l, Action.Transmit(now))
    ensures LocalInv(LocalStep(l, Action.Transmit(now)), p, lag)
  {
    TransmitKeepsInv(l.n, p, l.inc, l.out, lag, now);
  }

  lemma OtherStepKeepsInv(l: Local, p: Node, lag: int, act: Action)
    requires LocalInv(l, p, lag) && Enabled(l, act) && (act.Ask? || act.Serve? || act.Lose?)
    ensures LocalInv(LocalStep(l, act), p, lag)
  {
    match act {
      case Ask(m) => AskKeepsInv(l.n, p, l.inc, l.out, lag, m);
      case Serve => ServeKeepsInv(l.n, p, l.inc, l.out, lag);
      case Lose(i) => LoseKeepsInv(l.n, p, l.inc, l.out, lag, i);
    }
  }

  lemma LocalStepKeepsInv(l: Local, p: Node, lag: int, act: Action)
    requires LocalInv(l, p, lag) && Enabled(l, act) && FreshAck(l, act)
    ensures LocalInv(LocalStep(l, act), p, lag)
  {
    match act {
      case Transmit(now) => TransmitStepKeepsInv(l, p, lag, now);
      case Receive(now) => ReceiveStepKeepsInv(l, p, lag, now);
      case _ => OtherStepKeepsInv(l, p, lag, act);
    }
  }

  /** Every step of either endpoint or of the network keeps the invariant. */
  lemma StepKeepsInv(w: System, mv: Move, w': System, lag: int)
    requires SystemInv(w, lag) && Step(w, mv, w')
    ensures SystemInv(w', lag)
  {
    if mv.side.SideA? {
      LocalStepKeepsInv(At(w, mv.side), w.b, lag, mv.act);
    } else {
      InvSymmetric(w.a, w.b, w.ba, w.ab, lag);
      LocalStepKeepsInv(At(w, mv.side), w.a, lag, mv.act);
      InvSymmetric(w'.b, w'.a, w'.ab, w'.ba, lag);
    }
  }

  lemma StartDir(n: Node, p: Node)
    requires FreshNode(n) && FreshNode(p) && n.txOff == p.rxOff
    ensures Dir(n, p, [], [], WINDOW_SIZE)
  {
    assert Flatten(n.sent[..p.got]) == [];
  }

  lemma StartCredit(n: Node, p: Node)
    requires FreshNode(n) && FreshNode(p)
    ensures CreditInv(n, p)
  {
    var v := n.h.link.credits;
    assert Unaccepted(n, p) == [] && Unaccepted(p, n) == [];
    forall c: nat | CHANNEL_A <= c <= CHANNEL_E ensures CreditTotal(c, n, p) == n.granted[c] {
      assert v[c] == v[1..][c - 1];
    }
  }

  lemma StartNode(n: Node)
    requires FreshNode(n)
    ensures NodeInv(n)
  {
    assert Flatten(n.sent) == [] && Held(n) == [];
    assert |n.h.mem| == MEM_SIZE;
  }

  lemma StartHasInv(w: System)
    requires Start(w)
    ensures SystemInv(w, WINDOW_SIZE)
  {
    StartDir(w.a, w.b);
    StartDir(w.b, w.a);
    StartCredit(w.a, w.b);
    StartCredit(w.b, w.a);
    StartNode(w.a);
    StartNode(w.b);
  }

  lemma RunStepKeepsInv(ws: seq<System>, mvs: seq<Move>, lag: int, i: nat)
    requires IsRun(ws, mvs) && 0 < i < |ws| && SystemInv(ws[i - 1], lag)
    ensures SystemInv(ws[i], lag)
  {
    StepKeepsInv(ws[i - 1], mvs[i - 1], ws[i], lag);
  }

  /** What every step keeps holds throughout a run. */
  lemma {:induction false} Throughout<T>(ws: seq<T>, keeps: T -> bool, i: nat)
    requires i < |ws| && keeps(ws[0])
    requires forall k {:trigger ws[k]} :: 0 < k < |ws| && keeps(ws[k - 1]) ==> keeps(ws[k])
    ensures keeps(ws[i])
  {
    if i > 0 {
      Throughout(ws, keeps, i - 1);
    }
  }

  /** The invariant holds throughout every run from a state that has it. */
  lemma RunKeepsInv(ws: seq<System>, mvs: seq<Move>, lag: int, i: nat)
    requires IsRun(ws, mvs) && SystemInv(ws[0], lag) && i < |ws|
    ensures SystemInv(ws[i], lag)
  {
    var keeps := (w: System) => SystemInv(w, lag);
    forall k | 0 < k < |ws| && keeps(ws[k - 1]) ensures keeps(ws[k]) {
      RunStepKeepsInv(ws, mvs, lag, k);
    }
    Throughout(ws, keeps, i);
  }
}
