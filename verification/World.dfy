/**
 Two endpoints joined by one lossy FIFO per direction.

 Each node carries, beside the endpoint itself, history variables that no step reads to
 decide what the endpoint does: the frames it ever put into its window, how many frames
 it accepted in order, the messages accepted, and so on.  A frame in flight carries the
 ghost numbers its wrapped fields stand for and a snapshot of its sender's two counters.
 */
module World {
  import opened SeqNum
  import opened TileLink
  import opened FlowSpec
  import opened LinkSpec
  import opened HostSpec

  datatype Flight = Flight(frame: Frame, seqG: int, ackG: int, txSnap: int, rxSnap: int)

  /** An ack in ack_buffer: the frame that arrived and the number expected at that moment. */
  datatype Waiting = Waiting(num: int, rx: int)

  /** A duplicate is acknowledged by its own number, any other frame by the last one accepted. */
  function AckNumber(p: Waiting): int {
    if p.num < p.rx then p.num else p.rx - 1
  }

  datatype Node = Node(h: Host,
                       txOff: int,          // ghost number of sent[0]
                       rxOff: int,          // ghost number of the peer's sent[0]
                       sent: seq<Frame>,    // opening frames, then all ever put into the window
                       got: nat,            // how many of the peer's frames were accepted
                       parked: seq<Waiting>, // what the acks in ack_buffer are for
                       delivered: seq<Msg>, // every message ever put into tl_msg_buffer
                       taken: seq<Msg>,     // every message select_buffer ever returned
                       handled: seq<Msg>,   // every message the handler ever consumed
                       asked: seq<Msg>,     // every message ever put into message_buffer
                       open: nat,           // how many of sent opened the connection
                       peerOpen: nat,       // the same of the peer
                       granted: seq<int>)   // credits per channel the opening gave this node

  /** Ghost values of next_tx_seq and next_rx_seq, and of the first frame in the window. */
  function GTx(n: Node): int { n.txOff + |n.sent| }

  function GRx(n: Node): int { n.rxOff + n.got }

  function Base(n: Node): int { GTx(n) - |n.h.link.window| }

  /** Everything before this number needs no more resending: accepted, or never in a window. */
  function Seen(n: Node): int {
    if n.got < n.peerOpen then n.rxOff + n.peerOpen else GRx(n)
  }

  /** Ghost numbers for a frame leaving a node whose counters stand at tx and rx. */
  function Tag(f: Frame, tx: int, rx: int): Flight {
    Flight(f, Unwrap(f.seqNum, tx), Unwrap(f.seqAck, rx - 1), tx, rx)
  }

  function TagAll(fs: seq<Frame>, tx: int, rx: int): (r: seq<Flight>)
    ensures |r| == |fs|
  {
    seq(|fs|, i requires 0 <= i < |fs| => Tag(fs[i], tx, rx))
  }

  // ----- Steps of one node -----

  /** A node with the channel it receives from and the channel it sends to. */
  datatype Local = Local(n: Node, inc: seq<Flight>, out: seq<Flight>)

  datatype Action =
    | Ask(m: Msg)          // the user puts a message into message_buffer
    | Transmit(now: int)   // select_buffer and TX
    | Receive(now: int)    // RX on the oldest frame in flight
    | Serve                // tl_handler and add_channel_flow_credits
    | Lose(i: nat)         // the network drops a frame on its way to this node

  function AfterAsk(n: Node, m: Msg): Node {
    n.(h := n.h.(msgBuf := n.h.msgBuf + [m]), asked := n.asked + [m])
  }

  function AfterTransmit(n: Node, now: int): Node
    requires HostShape(n.h)
  {
    var h' := HostSpec.Transmit(n.h, now).host;
    var c := Choose(n.h).chosen;
    n.(h := h',
       sent := if |h'.link.window| > |n.h.link.window|
               then n.sent + [h'.link.window[|h'.link.window| - 1].frame] else n.sent,
       parked := if |h'.link.ackBuf| < |n.h.link.ackBuf| && n.parked != []
                 then n.parked[1..] else n.parked,
       taken := if n.h.pending.None? && c.Some? then n.taken + [c.value] else n.taken)
  }

  function AfterReceive(n: Node, fl: Flight, now: int): Node
    requires HostShape(n.h) && fl.frame.chan < CHANNEL_NUM
  {
    var h' := HostSpec.Receive(n.h, fl.frame, now).host;
    var accepted := h'.link.nextRx != n.h.link.nextRx;
    n.(h := h',
       got := if accepted then n.got + 1 else n.got,
       delivered := if accepted then n.delivered + fl.frame.msgs else n.delivered,
       parked := if |h'.link.ackBuf| > |n.h.link.ackBuf|
                 then n.parked + [Waiting(fl.seqG, GRx(n))] else n.parked)
  }

  function AfterServe(n: Node): Node
    requires HostShape(n.h)
  {
    var h' := Handle(n.h);
    n.(h := h',
       handled := if |h'.link.inbox| < |n.h.link.inbox| then n.handled + [n.h.link.inbox[0]] else n.handled)
  }

  predicate Enabled(l: Local, act: Action) {
    match act
    case Ask(m) => l.n.h.link.status.Running? && Admissible(m) && |l.n.h.msgBuf| < MESSAGE_CAPACITY
    case Transmit(_) => l.n.h.link.status.Running? && HostShape(l.n.h)
    case Receive(_) =>
      l.n.h.link.status.Running? && HostShape(l.n.h) && l.inc != [] && l.inc[0].frame.chan < CHANNEL_NUM
    case Serve => l.n.h.link.status.Running? && HostShape(l.n.h)
    case Lose(i) => i < |l.inc|
  }

  function LocalStep(l: Local, act: Action): Local
    requires Enabled(l, act)
  {
    match act
    case Ask(m) => l.(n := AfterAsk(l.n, m))
    case Transmit(now) =>
      var n' := AfterTransmit(l.n, now);
      Local(n', l.inc, l.out + TagAll(HostSpec.Transmit(l.n.h, now).frames, GTx(n'), Seen(n')))
    case Receive(now) =>
      var fl := l.inc[0];
      Local(AfterReceive(l.n, fl, now), l.inc[1..],
            l.out + TagAll(HostSpec.Receive(l.n.h, fl.frame, now).frames, GTx(l.n), Seen(l.n)))
    case Serve => l.(n := AfterServe(l.n))
    case Lose(i) => l.(inc := l.inc[..i] + l.inc[i + 1..])
  }

  /**
   The run hypothesis: a parked ack that TX takes out of ack_buffer is less than 2^21
   behind next_rx_seq.  (TX takes one out exactly when the window is not full.)
   */
  predicate FreshAck(l: Local, act: Action) {
    act.Transmit? && |l.n.h.link.window| < WINDOW_SIZE && l.n.parked != []
    ==> GRx(l.n) - AckNumber(l.n.parked[0]) < HALF
  }

  // ----- The system -----

  datatype System = System(a: Node, b: Node, ab: seq<Flight>, ba: seq<Flight>)

  datatype Side = SideA | SideB

  function At(w: System, side: Side): Local {
    if side.SideA? then Local(w.a, w.ba, w.ab) else Local(w.b, w.ab, w.ba)
  }

  function Put(w: System, side: Side, l: Local): System {
    if side.SideA? then System(l.n, w.b, l.out, l.inc) else System(w.a, l.n, l.inc, l.out)
  }

  datatype Move = Move(side: Side, act: Action)

  /** w' follows from w by a move allowed by the run hypothesis. */
  predicate Step(w: System, mv: Move, w': System) {
    && Enabled(At(w, mv.side), mv.act)
    && FreshAck(At(w, mv.side), mv.act)
    && w' == Put(w, mv.side, LocalStep(At(w, mv.side), mv.act))
  }

  predicate IsRun(ws: seq<System>, mvs: seq<Move>) {
    && |ws| == |mvs| + 1
    && forall i {:trigger mvs[i]} :: 0 <= i < |mvs| ==> Step(ws[i], mvs[i], ws[i + 1])
  }

  // ----- Steady-state start -----

  /** An endpoint right after the connection is open, expecting number rx and about to send tx. */
  predicate FreshHost(h: Host, tx: int, rx: int) {
    && h.link.status.Running?
    && h.link.nextTx == tx % SEQ_MOD && h.link.nextRx == rx % SEQ_MOD && IsSeq(h.link.ackedSeq)
    && h.link.window == [] && h.link.ackBuf == [] && h.link.inbox == []
    && IsVector(h.link.credits) && h.link.credits[1..] == [1024, 1024, 1024, 1024, 1024]
    && h.link.flow == [0, 0, 0, 0, 0, 0]
    && h.selectCnt == SELECT_PERIOD && h.pending.None? && h.msgBuf == [] && h.respBuf == []
    && h.mem == ZeroMemory()
    && h.stats == Stats(0, 0, 0)
  }

  /** What opening frames grant a node that takes them from number k on a second time. */
  function Grant(k: int): (g: seq<int>)
    ensures |g| == CHANNEL_NUM
  {
    [0, if 1 <= k then 1024 else 2048, if 2 <= k then 1024 else 2048, if 3 <= k then 1024 else 2048,
     if 4 <= k then 1024 else 2048, if 5 <= k then 1024 else 2048]
  }

  predicate FreshNode(n: Node) {
    && FreshHost(n.h, n.txOff, n.rxOff)
    && n.sent == [] && n.got == 0 && n.parked == [] && n.delivered == []
    && n.taken == [] && n.handled == [] && n.asked == []
    && n.open == 0 && n.peerOpen == 0 && n.granted == Grant(5)
  }

  predicate Start(w: System) {
    && FreshNode(w.a) && FreshNode(w.b)
    && w.a.txOff == w.b.rxOff && w.b.txOff == w.a.rxOff
    && w.ab == [] && w.ba == []
  }

  /** Messages carried by a sequence of frames, in order. */
  function Flatten(fs: seq<Frame>): seq<Msg> {
    if fs == [] then [] else Flatten(fs[..|fs| - 1]) + fs[|fs| - 1].msgs
  }
}
