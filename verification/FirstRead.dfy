/** An ordinary read, step by step: request, response, and the credits returned for both. */
module FirstRead {
  import opened Options
  import opened Bits
  import opened SeqNum
  import opened TileLink
  import opened FlowSpec
  import opened LinkSpec
  import opened HostSpec
  import opened World
  import opened LinkFacts
  import opened TransmitProof
  import opened ReceiveProof
  import opened SystemProof
  import opened Picture
  import opened Turns
  import opened StaleRun

  function NoFlow(): (v: seq<int>)
    ensures |v| == CHANNEL_NUM
  {
    [0, 0, 0, 0, 0, 0]
  }

  /** A running node with nothing parked, at number sent and expecting number got. */
  predicate Stands(n: Node, sent: nat, got: nat, window: seq<Elem>, inbox: seq<Msg>, flow: seq<int>) {
    var e := n.h.link;
    && e.status.Running? && e.nextTx == sent && e.nextRx == got && e.window == window && e.ackBuf == []
    && e.inbox == inbox && e.flow == flow && !e.ackPending && !e.ackSent
    && n.txOff == 0 && n.rxOff == 0 && |n.sent| == sent && n.got == got && n.parked == []
    && n.open == 0 && n.peerOpen == 0 && n.h.pending == None
  }

  // ----- TX -----

  lemma TxPlain(e: Ep, req: Option<Msg>, now: int)
    requires IsVector(e.credits) && IsVector(e.flow)
    requires req.Some? ==> req.value.header.chan < CHANNEL_NUM
    requires !e.ackPending && |e.window| < WINDOW_SIZE && !TimedOut(e.window, now)
    ensures TxStep(e, req, now) == SendNormal(e, req, now)
  {
  }

  /** The step that builds a frame, with no ack to send and nothing to resend. */
  lemma PlainTransmit(n: Node, now: int, req: Option<Msg>)
    requires HostShape(n.h) && Choose(n.h).chosen == req && n.h.link.ackBuf == []
    requires req.Some? ==> WellSized(req.value)
    requires !n.h.link.ackPending && !TimedOut(n.h.link.window, now) && BuildsFrame(n.h.link, req)
    ensures var n', e := AfterTransmit(n, now), n.h.link;
            var s, f := SendNormal(e, req, now), NormalFrame(e, req);
            && n'.h.link == s.ep && n'.h.pending == s.unsent
            && n'.h.msgBuf == Choose(n.h).host.msgBuf && n'.h.respBuf == Choose(n.h).host.respBuf
            && n' == n.(h := n'.h, sent := n.sent + [f], taken := n'.taken)
            && HostSpec.Transmit(n.h, now).frames == [f]
  {
    ChooseKeepsLink(n.h);
    TxPlain(n.h.link, req, now);
    SendNormalEffect(n.h.link, req, now);
  }

  lemma NormalKeepsFlags(e: Ep, req: Option<Msg>, now: int)
    requires IsVector(e.credits) && IsVector(e.flow)
    requires req.Some? ==> req.value.header.chan < CHANNEL_NUM
    ensures var s := SendNormal(e, req, now).ep; s.ackPending == e.ackPending && s.ackSent == e.ackSent
  {
  }

  lemma StandsAfter(n: Node, n': Node, e: Ep, f: Frame, now: int, flow: seq<int>)
    requires Stands(n, |n.sent|, n.got, n.h.link.window, n.h.link.inbox, n.h.link.flow) && |n.sent| < MAX_SEQ_NUM
    requires n' == n.(h := n'.h, sent := n.sent + [f], taken := n'.taken)
    requires n'.h.link == e && n'.h.pending == None
    requires e.status == n.h.link.status && e.nextRx == n.h.link.nextRx && e.inbox == n.h.link.inbox
    requires e.window == n.h.link.window + [Elem(Sent, now, f)] && e.nextTx == Next(n.h.link.nextTx)
    requires e.ackBuf == [] && !e.ackPending && !e.ackSent && e.flow == flow
    ensures Stands(n', |n.sent| + 1, n.got, n.h.link.window + [Elem(Sent, now, f)], n.h.link.inbox, flow)
  {
  }

  lemma TransmitStands(n: Node, n': Node, now: int, req: Option<Msg>, f: Frame, flow: seq<int>)
    requires Shape(n.h.link) && (req.Some? ==> req.value.header.chan < CHANNEL_NUM) && |n.sent| < MAX_SEQ_NUM
    requires Stands(n, |n.sent|, n.got, n.h.link.window, n.h.link.inbox, n.h.link.flow)
    requires BuildsFrame(n.h.link, req) && f == NormalFrame(n.h.link, req)
    requires n' == n.(h := n'.h, sent := n.sent + [f], taken := n'.taken) && n'.h.pending == None
    requires n'.h.link == SendNormal(n.h.link, req, now).ep && n'.h.link.flow == flow
    ensures Stands(n', |n.sent| + 1, n.got, n.h.link.window + [Elem(Sent, now, f)], n.h.link.inbox, flow)
  {
    SendNormalEffect(n.h.link, req, now);
    NormalKeepsFlags(n.h.link, req, now);
    StandsAfter(n, n', n'.h.link, f, now, flow);
  }

  /** The node after that step. */
  lemma PlainNode(n: Node, now: int, req: Option<Msg>, f: Frame, flow: seq<int>)
    requires HostShape(n.h) && Choose(n.h).chosen == req && (req.Some? ==> WellSized(req.value))
    requires Stands(n, |n.sent|, n.got, n.h.link.window, n.h.link.inbox, n.h.link.flow) && |n.sent| < MAX_SEQ_NUM
    requires !TimedOut(n.h.link.window, now) && BuildsFrame(n.h.link, req) && f == NormalFrame(n.h.link, req)
    requires var s := SendNormal(n.h.link, req, now); s.unsent == None && s.ep.flow == flow
    ensures var n' := AfterTransmit(n, now);
            && Stands(n', |n.sent| + 1, n.got, n.h.link.window + [Elem(Sent, now, f)], n.h.link.inbox, flow)
            && n'.h.msgBuf == Choose(n.h).host.msgBuf && n'.h.respBuf == Choose(n.h).host.respBuf
    ensures HostSpec.Transmit(n.h, now).frames == [f]
  {
    PlainTransmit(n, now, req);
    TransmitStands(n, AfterTransmit(n, now), now, req, f, flow);
  }

  /** The node and its channel. */
  lemma PlainTransmitStands(l: Local, now: int, req: Option<Msg>, f: Frame, flow: seq<int>)
    requires var n := l.n;
             && HostShape(n.h) && Choose(n.h).chosen == req && (req.Some? ==> WellSized(req.value))
             && Stands(n, |n.sent|, n.got, n.h.link.window, n.h.link.inbox, n.h.link.flow) && |n.sent| < MAX_SEQ_NUM
             && !TimedOut(n.h.link.window, now) && BuildsFrame(n.h.link, req) && f == NormalFrame(n.h.link, req)
             && var s := SendNormal(n.h.link, req, now); s.unsent == None && s.ep.flow == flow
    ensures Enabled(l, Action.Transmit(now)) && FreshAck(l, Action.Transmit(now))
    ensures PutsOut(l, LocalStep(l, Action.Transmit(now)), now, f, flow)
  {
    PlainNode(l.n, now, req, f, flow);
    PutsOutFrom(l, AfterTransmit(l.n, now), now, f, flow);
    TransmitsOne(l, now, AfterTransmit(l.n, now), f);
  }

  lemma PutsOutFrom(l: Local, n': Node, now: int, f: Frame, flow: seq<int>)
    requires var n := l.n;
             && Stands(n', |n.sent| + 1, n.got, n.h.link.window + [Elem(Sent, now, f)], n.h.link.inbox, flow)
             && n'.h.msgBuf == Choose(n.h).host.msgBuf && n'.h.respBuf == Choose(n.h).host.respBuf
    ensures PutsOut(l, Local(n', l.inc, l.out + [Tag(f, GTx(n'), Seen(n'))]), now, f, flow)
  {
  }

  /** One more frame in the window, in the history and on the wire. */
  predicate PutsOut(l: Local, l': Local, now: int, f: Frame, flow: seq<int>) {
    var n := l.n;
    && Stands(l'.n, |n.sent| + 1, n.got, n.h.link.window + [Elem(Sent, now, f)], n.h.link.inbox, flow)
    && l'.inc == l.inc && l'.out == l.out + [Tag(f, |n.sent| + 1, n.got)]
    && l'.n.h.msgBuf == Choose(n.h).host.msgBuf && l'.n.h.respBuf == Choose(n.h).host.respBuf
  }

  lemma TransmitsOne(l: Local, now: int, n': Node, f: Frame)
    requires Enabled(l, Action.Transmit(now))
    requires n' == AfterTransmit(l.n, now) && HostSpec.Transmit(l.n.h, now).frames == [f]
    ensures LocalStep(l, Action.Transmit(now)) == Local(n', l.inc, l.out + [Tag(f, GTx(n'), Seen(n'))])
  {
    assert TagAll([f], GTx(n'), Seen(n')) == [Tag(f, GTx(n'), Seen(n'))];
  }

  // ----- RX and the handler -----

  /** RX of the expected frame, with a message in it. */
  lemma PlainReceiveStands(l: Local, now: int, window: seq<Elem>, flow: seq<int>)
    requires HostShape(l.n.h) && l.inc != [] && Stands(l.n, |l.n.sent|, l.n.got, l.n.h.link.window, [], flow)
    requires var f := l.inc[0].frame;
             && f.ftype == TYPE_NORMAL && f.ack == TLOE_ACK && f.chan < CHANNEL_NUM && |f.msgs| == 1
             && f.seqNum == l.n.got < MAX_SEQ_NUM && window == Slide(l.n.h.link.window, f.seqAck)
    ensures Enabled(l, Action.Receive(now)) && FreshAck(l, Action.Receive(now))
    ensures var n, l' := l.n, LocalStep(l, Action.Receive(now));
            && Stands(l'.n, |n.sent|, n.got + 1, window, l.inc[0].frame.msgs, flow)
            && l'.inc == l.inc[1..] && l'.out == l.out
            && l'.n.h == n.h.(link := l'.n.h.link)
            && l'.n.h.link.credits == AddCredit(n.h.link.credits, l.inc[0].frame.chan, l.inc[0].frame.credit)
  {
    var fl := l.inc[0];
    ReceiveEffect(l.n, fl, now);
    RxFlags(l.n.h.link, fl.frame, now);
    ReceiveLocal(l, now);
  }

  /** The handler consumes the one message it finds. */
  lemma ServeStands(l: Local, m: Msg, d: Host)
    requires HostShape(l.n.h) && Stands(l.n, |l.n.sent|, l.n.got, l.n.h.link.window, [m], NoFlow())
    requires |l.n.h.respBuf| < RESPONSE_CAPACITY && WellSized(m) && d == Dispatch(l.n.h, m)
    requires d == l.n.h.(respBuf := d.respBuf, stats := d.stats)
    ensures Enabled(l, Action.Serve) && FreshAck(l, Action.Serve)
    ensures var n, l' := l.n, LocalStep(l, Action.Serve);
            && Stands(l'.n, |n.sent|, n.got, n.h.link.window, [], AddFlow(NoFlow(), m.header.chan, Flits(m)))
            && l'.inc == l.inc && l'.out == l.out
            && l'.n.h == d.(link := l'.n.h.link) && l'.n.h.link.credits == n.h.link.credits
  {
  }

  // ----- The messages and frames of the read -----

  /** A read of one byte. */
  function Read(): Msg {
    Msg(Blank(CHANNEL_A, A_GET, 0, 0), [0, 0, 0, 0, 0, 0, 0, 0])
  }

  function Value(mem: Memory): Msg
    requires |mem| == MEM_SIZE
  {
    GetResponse(mem, Read())
  }

  lemma ReadFacts(mem: Memory)
    requires |mem| == MEM_SIZE
    ensures Admissible(Read()) && Flits(Read()) == 2 && InBounds(Read())
    ensures WellSized(Value(mem)) && Flits(Value(mem)) == 2 && Value(mem).header.chan == CHANNEL_D
    ensures Value(mem).header.opcode == D_ACCESSACKDATA
  {
  }

  function Request0(): Frame {
    Frame(TYPE_NORMAL, 0, MAX_SEQ_NUM, TLOE_ACK, 0, 0, [Read()])
  }

  function Response0(m: Msg): Frame {
    Frame(TYPE_NORMAL, 0, 0, TLOE_ACK, CHANNEL_A, 1, [m])
  }

  function Return1(): Frame {
    Frame(TYPE_NORMAL, 1, 0, TLOE_ACK, CHANNEL_D, 1, [])
  }

  /** A vector with the two flits of one message on channel c. */
  function TwoAt(c: nat): (v: seq<int>)
    requires CHANNEL_A <= c <= CHANNEL_E
    ensures |v| == CHANNEL_NUM
  {
    AddFlow(NoFlow(), c, 2)
  }

  lemma LargestOfTwo()
    ensures LargestPow(2) == 1 && Pow2(1) == 2
  {
    assert LargestPow(1) == 0;
  }

  lemma TwoAtSelected(c: nat)
    requires CHANNEL_A <= c <= CHANNEL_E
    ensures IsVector(TwoAt(c)) && SelectMaxCreditChannel(TwoAt(c)) == c && TwoAt(c)[c] == 2
    ensures LargestPow(2) == 1 && TakeFlow(TwoAt(c), c) == NoFlow()
  {
    var v := TwoAt(c);
    LargestOfTwo();
    assert forall i :: 0 <= i < CHANNEL_NUM ==> v[i] == if i == c then 2 else 0;
    assert v[c] <= v[SelectMaxCreditChannel(v)];
    assert TakeFlow(v, c) == NoFlow();
  }

  lemma NothingSelected()
    ensures IsVector(NoFlow()) && SelectMaxCreditChannel(NoFlow()) == 0
  {
    SelectedChannelHasCredit(NoFlow());
  }

  /** What TX makes of the read, of its answer, and of the credit for the answer. */
  predicate Makes(e: Ep, req: Option<Msg>, f: Frame) {
    && IsVector(e.credits) && IsVector(e.flow) && (req.Some? ==> req.value.header.chan < CHANNEL_NUM)
    && BuildsFrame(e, req) && NormalFrame(e, req) == f
    && SendNormal(e, req, 0).unsent == None && SendNormal(e, req, 0).ep.flow == NoFlow()
  }

  lemma ReadFrame(e: Ep)
    requires IsVector(e.credits) && e.credits[CHANNEL_A] == 1024 && e.flow == NoFlow()
    requires e.nextTx == 0 && e.nextRx == 0 && e.ackBuf == [] && e.window == []
    ensures Makes(e, Some(Read()), Request0())
  {
    ReadFacts(ZeroMemory());
    NothingSelected();
  }

  lemma ValueFrame(e: Ep, m: Msg)
    requires IsVector(e.credits) && e.credits[CHANNEL_D] == 1024 && e.flow == TwoAt(CHANNEL_A)
    requires e.nextTx == 0 && e.nextRx == 1 && e.ackBuf == [] && e.window == []
    requires m.header.chan == CHANNEL_D && Flits(m) == 2
    ensures Makes(e, Some(m), Response0(m))
  {
    TwoAtSelected(CHANNEL_A);
  }

  lemma ReturnFrame(e: Ep)
    requires IsVector(e.credits) && e.flow == TwoAt(CHANNEL_D)
    requires e.nextTx == 1 && e.nextRx == 1 && e.ackBuf == [] && e.window == []
    ensures Makes(e, None, Return1())
  {
    TwoAtSelected(CHANNEL_D);
  }

  // ----- The eight steps -----

  predicate Unasked(h: Host) {
    h.msgBuf == [] && h.respBuf == []
  }

  lemma AsksRead(l: Local)
    requires Stands(l.n, 0, 0, [], [], NoFlow()) && Unasked(l.n.h)
    ensures Enabled(l, Action.Ask(Read())) && FreshAck(l, Action.Ask(Read()))
    ensures var l' := LocalStep(l, Action.Ask(Read()));
            && Stands(l'.n, 0, 0, [], [], NoFlow()) && l'.n.h == l.n.h.(msgBuf := [Read()])
            && l'.inc == l.inc && l'.out == l.out
  {
    ReadFacts(ZeroMemory());
  }

  lemma SendsRead(l: Local)
    requires HostShape(l.n.h) && Stands(l.n, 0, 0, [], [], NoFlow())
    requires l.n.h.msgBuf == [Read()] && l.n.h.respBuf == [] && l.n.h.link.credits[CHANNEL_A] == 1024
    ensures Enabled(l, Action.Transmit(0)) && FreshAck(l, Action.Transmit(0))
    ensures var l' := LocalStep(l, Action.Transmit(0));
            && Stands(l'.n, 1, 0, [Elem(Sent, 0, Request0())], [], NoFlow()) && Unasked(l'.n.h)
            && l'.inc == l.inc && l'.out == l.out + [Tag(Request0(), 1, 0)]
  {
    ReadFacts(ZeroMemory());
    ReadFrame(l.n.h.link);
    PlainTransmitStands(l, 0, Some(Read()), Request0(), NoFlow());
  }

  lemma HearsRead(l: Local)
    requires HostShape(l.n.h) && Stands(l.n, 0, 0, [], [], NoFlow())
    requires l.inc != [] && l.inc[0] == Tag(Request0(), 1, 0)
    ensures Enabled(l, Action.Receive(0)) && FreshAck(l, Action.Receive(0))
    ensures var l' := LocalStep(l, Action.Receive(0));
            && Stands(l'.n, 0, 1, [], [Read()], NoFlow()) && l'.n.h == l.n.h.(link := l'.n.h.link)
            && l'.inc == l.inc[1..] && l'.out == l.out && l'.n.h.link.credits == l.n.h.link.credits
  {
    PlainReceiveStands(l, 0, [], NoFlow());
  }

  lemma ServesRead(l: Local)
    requires HostShape(l.n.h) && Stands(l.n, 0, 1, [], [Read()], NoFlow()) && Unasked(l.n.h)
    ensures Enabled(l, Action.Serve) && FreshAck(l, Action.Serve)
    ensures var l' := LocalStep(l, Action.Serve);
            && Stands(l'.n, 0, 1, [], [], TwoAt(CHANNEL_A))
            && l'.n.h == l.n.h.(link := l'.n.h.link, respBuf := [Value(l.n.h.mem)])
            && l'.inc == l.inc && l'.out == l.out && l'.n.h.link.credits == l.n.h.link.credits
  {
    ReadFacts(l.n.h.mem);
    ServeStands(l, Read(), l.n.h.(respBuf := [Value(l.n.h.mem)]));
  }

  lemma SendsValue(l: Local, m: Msg)
    requires HostShape(l.n.h) && Stands(l.n, 0, 1, [], [], TwoAt(CHANNEL_A))
    requires l.n.h.msgBuf == [] && l.n.h.respBuf == [m] && l.n.h.selectCnt == SELECT_PERIOD
    requires WellSized(m) && m.header.chan == CHANNEL_D && Flits(m) == 2 && l.n.h.link.credits[CHANNEL_D] == 1024
    ensures Enabled(l, Action.Transmit(0)) && FreshAck(l, Action.Transmit(0))
    ensures var l' := LocalStep(l, Action.Transmit(0));
            && Stands(l'.n, 1, 1, [Elem(Sent, 0, Response0(m))], [], NoFlow()) && Unasked(l'.n.h)
            && l'.inc == l.inc && l'.out == l.out + [Tag(Response0(m), 1, 1)]
  {
    ValueFrame(l.n.h.link, m);
    PlainTransmitStands(l, 0, Some(m), Response0(m), NoFlow());
  }

  lemma HearsValue(l: Local, m: Msg)
    requires HostShape(l.n.h) && Stands(l.n, 1, 0, [Elem(Sent, 0, Request0())], [], NoFlow())
    requires l.inc != [] && l.inc[0] == Tag(Response0(m), 1, 1)
    ensures Enabled(l, Action.Receive(0)) && FreshAck(l, Action.Receive(0))
    ensures var l' := LocalStep(l, Action.Receive(0));
            && Stands(l'.n, 1, 1, [], [m], NoFlow()) && l'.n.h == l.n.h.(link := l'.n.h.link)
            && l'.inc == l.inc[1..] && l'.out == l.out
  {
    var w := l.n.h.link.window;
    assert Cmp(w[0].frame.seqNum, 0) == 0 && w[1..] == [];
    PlainReceiveStands(l, 0, [], NoFlow());
  }

  lemma ServesValue(l: Local, m: Msg)
    requires HostShape(l.n.h) && Stands(l.n, 1, 1, [], [m], NoFlow()) && Unasked(l.n.h)
    requires WellSized(m) && m.header.chan == CHANNEL_D && m.header.opcode == D_ACCESSACKDATA && Flits(m) == 2
    ensures Enabled(l, Action.Serve) && FreshAck(l, Action.Serve)
    ensures var l' := LocalStep(l, Action.Serve);
            && Stands(l'.n, 1, 1, [], [], TwoAt(CHANNEL_D)) && Unasked(l'.n.h)
            && l'.inc == l.inc && l'.out == l.out
  {
    var d := Dispatch(l.n.h, m);
    assert d == l.n.h.(stats := d.stats);
    ServeStands(l, m, d);
  }

  lemma SendsReturn(l: Local)
    requires HostShape(l.n.h) && Stands(l.n, 1, 1, [], [], TwoAt(CHANNEL_D)) && Unasked(l.n.h)
    ensures Enabled(l, Action.Transmit(0)) && FreshAck(l, Action.Transmit(0))
    ensures var l' := LocalStep(l, Action.Transmit(0));
            && Stands(l'.n, 2, 1, [Elem(Sent, 0, Return1())], [], NoFlow()) && Unasked(l'.n.h)
            && l'.inc == l.inc && l'.out == l.out + [Tag(Return1(), 2, 1)]
  {
    ReturnFrame(l.n.h.link);
    PlainTransmitStands(l, 0, None, Return1(), NoFlow());
  }

  // ----- The run -----

  function FirstNode(): Node {
    Node(Host(Ep(Running, 0, 0, 0, [], [], [], [0, 1024, 1024, 1024, 1024, 1024], NoFlow(), false, false,
                 Counters(0, 0, 0, 0)),
              SELECT_PERIOD, None, [], [], ZeroMemory(), Stats(0, 0, 0)),
         0, 0, [], 0, [], [], [], [], [], 0, 0, Grant(5))
  }

  predicate Idle(n: Node) {
    && Stands(n, 0, 0, [], [], NoFlow()) && Unasked(n.h) && n.h.selectCnt == SELECT_PERIOD
    && |n.h.link.credits| == CHANNEL_NUM && n.h.link.credits[CHANNEL_A] == n.h.link.credits[CHANNEL_D] == 1024
  }

  lemma Begins() returns (w: System)
    ensures Reachable(w) && Idle(w.a) && Idle(w.b) && w.ab == [] && w.ba == []
  {
    w := System(FirstNode(), FirstNode(), [], []);
    StartReachable(w);
  }

  lemma ReachableShape(w: System, side: Side)
    requires Reachable(w)
    ensures HostShape(At(w, side).n.h)
  {
    ReachableInv(w);
  }

  lemma Acting(w: System, side: Side, act: Action, l': Local) returns (w': System)
    requires Reachable(w) && Enabled(At(w, side), act) && FreshAck(At(w, side), act)
    requires l' == LocalStep(At(w, side), act)
    ensures Reachable(w') && w' == Put(w, side, l')
  {
    w' := Put(w, side, l');
    StepReachable(w, Move(side, act), w');
  }

  predicate Requester(n: Node) {
    Stands(n, 1, 0, [Elem(Sent, 0, Request0())], [], NoFlow()) && Unasked(n.h)
  }

  predicate Responder(n: Node, m: Msg) {
    Stands(n, 1, 1, [Elem(Sent, 0, Response0(m))], [], NoFlow()) && Unasked(n.h)
  }

  predicate Returner(n: Node) {
    Stands(n, 2, 1, [Elem(Sent, 0, Return1())], [], NoFlow()) && Unasked(n.h)
  }

  lemma Asks(w: System) returns (w': System)
    requires Reachable(w) && Idle(w.a) && Idle(w.b) && w.ab == [] && w.ba == []
    ensures Reachable(w') && Requester(w'.a) && w'.b == w.b && w'.ab == [Tag(Request0(), 1, 0)] && w'.ba == []
  {
    AsksRead(At(w, SideA));
    var w1 := Acting(w, SideA, Action.Ask(Read()), LocalStep(At(w, SideA), Action.Ask(Read())));
    ReachableShape(w1, SideA);
    SendsRead(At(w1, SideA));
    w' := Acting(w1, SideA, Action.Transmit(0), LocalStep(At(w1, SideA), Action.Transmit(0)));
  }

  predicate IsValue(m: Msg) {
    WellSized(m) && m.header.chan == CHANNEL_D && m.header.opcode == D_ACCESSACKDATA && Flits(m) == 2
  }

  lemma Takes(w: System) returns (w': System, m: Msg)
    requires Reachable(w) && Idle(w.b) && w.ab == [Tag(Request0(), 1, 0)] && w.ba == []
    ensures Reachable(w') && w'.a == w.a && w'.ab == [] && w'.ba == []
    ensures IsValue(m) && Stands(w'.b, 0, 1, [], [], TwoAt(CHANNEL_A)) && w'.b.h.msgBuf == [] && w'.b.h.respBuf == [m]
    ensures w'.b.h.selectCnt == SELECT_PERIOD
    ensures |w'.b.h.link.credits| == CHANNEL_NUM && w'.b.h.link.credits[CHANNEL_D] == 1024
  {
    ReachableShape(w, SideB);
    HearsRead(At(w, SideB));
    var w1 := Acting(w, SideB, Action.Receive(0), LocalStep(At(w, SideB), Action.Receive(0)));
    ReachableShape(w1, SideB);
    m := Value(w1.b.h.mem);
    ReadFacts(w1.b.h.mem);
    ServesRead(At(w1, SideB));
    w' := Acting(w1, SideB, Action.Serve, LocalStep(At(w1, SideB), Action.Serve));
  }

  lemma Responds(w: System, m: Msg) returns (w': System)
    requires Reachable(w) && w.ab == [] && w.ba == []
    requires IsValue(m) && Stands(w.b, 0, 1, [], [], TwoAt(CHANNEL_A)) && w.b.h.msgBuf == [] && w.b.h.respBuf == [m]
    requires w.b.h.selectCnt == SELECT_PERIOD
    requires |w.b.h.link.credits| == CHANNEL_NUM && w.b.h.link.credits[CHANNEL_D] == 1024
    ensures Reachable(w') && w'.a == w.a && Responder(w'.b, m) && w'.ab == [] && w'.ba == [Tag(Response0(m), 1, 1)]
  {
    ReachableShape(w, SideB);
    SendsValue(At(w, SideB), m);
    w' := Acting(w, SideB, Action.Transmit(0), LocalStep(At(w, SideB), Action.Transmit(0)));
  }

  lemma Gives(w: System, m: Msg) returns (w': System)
    requires Reachable(w) && Requester(w.a) && IsValue(m) && w.ab == [] && w.ba == [Tag(Response0(m), 1, 1)]
    ensures Reachable(w') && w'.b == w.b && w'.ab == [] && w'.ba == []
    ensures Stands(w'.a, 1, 1, [], [], TwoAt(CHANNEL_D)) && Unasked(w'.a.h)
  {
    ReachableShape(w, SideA);
    HearsValue(At(w, SideA), m);
    var w1 := Acting(w, SideA, Action.Receive(0), LocalStep(At(w, SideA), Action.Receive(0)));
    ReachableShape(w1, SideA);
    ServesValue(At(w1, SideA), m);
    w' := Acting(w1, SideA, Action.Serve, LocalStep(At(w1, SideA), Action.Serve));
  }

  lemma ReturnsCredit(w: System) returns (w': System)
    requires Reachable(w) && w.ab == [] && w.ba == []
    requires Stands(w.a, 1, 1, [], [], TwoAt(CHANNEL_D)) && Unasked(w.a.h)
    ensures Reachable(w') && w'.b == w.b && Returner(w'.a) && w'.ab == [Tag(Return1(), 2, 1)] && w'.ba == []
  {
    ReachableShape(w, SideA);
    SendsReturn(At(w, SideA));
    w' := Acting(w, SideA, Action.Transmit(0), LocalStep(At(w, SideA), Action.Transmit(0)));
  }

  lemma ReturnedDrawn(w: System, m: Msg)
    requires Returner(w.a) && Responder(w.b, m) && w.ab == [Tag(Return1(), 2, 1)] && w.ba == []
    ensures Drawn(w, Opened(0))
  {
    assert SceneOf(At(w, SideA)) == View(Opened(0), SideA);
    assert SceneOf(At(w, SideB)) == View(Opened(0), SideB);
  }

  /** The read is over but for the credit its response costs, which is on its way. */
  lemma ReadShown()
    ensures Shown(Opened(0))
  {
    var w := Begins();
    w := Asks(w);
    var m;
    w, m := Takes(w);
    w := Responds(w, m);
    w := Gives(w, m);
    w := ReturnsCredit(w);
    ReturnedDrawn(w, m);
  }
}
