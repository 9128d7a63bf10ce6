/**
 A connection from the moment both sides enter open_conn: each side is in its opening loop
 or, once that has returned, runs as any endpoint does, and the network may lose any frame
 from the first one on.
 */
module Connect {
  import opened Options
  import opened SeqNum
  import opened TileLink
  import opened LinkSpec
  import opened HostSpec
  import opened World
  import opened Handshake
  import opened HandshakeFacts

  /**
   A side in its opening loop, with what the other side can tell of it, or one that runs:
   n is the endpoint with its history, and stays as at the start while the side is opening.
   */
  datatype Party = Opens(o: Opening, n: Node) | Runs(n: Node)

  /** A side with the channel it receives from and the channel it sends to. */
  datatype Seat = Seat(p: Party, inc: seq<Flight>, out: seq<Flight>)

  datatype Conn = Conn(m: Party, s: Party, ms: seq<Flight>, sm: seq<Flight>)

  /** Side A is the master. */
  function SeatOf(c: Conn, side: Side): Seat {
    if side.SideA? then Seat(c.m, c.sm, c.ms) else Seat(c.s, c.ms, c.sm)
  }

  function Reseat(c: Conn, side: Side, st: Seat): Conn {
    if side.SideA? then Conn(st.p, c.s, st.out, st.inc) else Conn(c.m, st.p, st.inc, st.out)
  }

  // ----- Returning from open_conn -----

  /**
   A side as it returns: its opening frames are sent, it has the peer's up to the number it
   expects, and every later opening frame it accepts adds to the 1024 credits it holds.
   */
  function Entered(e: Ep, master: bool): Node {
    Node(HostOf(e), 0, 0, Opened(master), if e.nextRx < 0 then 0 else e.nextRx, [], [], [], [], [],
         |Opened(master)|, |Opened(!master)|, Grant(e.nextRx))
  }

  // ----- Steps -----

  datatype ConnMove =
    | Poll(side: Side, recv: bool, expired: bool)  // one turn of an opening loop
    | Act(side: Side, act: Action)                 // one step of a side that has returned
    | Drop(side: Side, i: nat)                     // the network loses a frame on its way to side

  predicate CanPoll(st: Seat, recv: bool) {
    && st.p.Opens? && Openable(st.p.o.ep)
    && (recv ==> st.inc != [] && st.inc[0].frame.chan < CHANNEL_NUM)
  }

  function Heard(st: Seat, recv: bool): (f: Option<Frame>)
    requires CanPoll(st, recv)
    ensures f.Some? ==> f.value.chan < CHANNEL_NUM
  {
    if recv then Some(st.inc[0].frame) else None
  }

  function AfterPoll(st: Seat, master: bool, recv: bool, expired: bool): Seat
    requires CanPoll(st, recv)
  {
    var t := LoopTurn(master, st.p.o, Heard(st, recv), expired);
    Seat(if t.o.done then Runs(Entered(t.o.ep, master)) else Opens(t.o, st.p.n),
         if recv then st.inc[1..] else st.inc,
         st.out + TagAll(t.frames, |Opened(master)|, |Opened(!master)|))
  }

  predicate CanAct(st: Seat, act: Action) {
    && st.p.Runs? && !act.Lose?
    && Enabled(Local(st.p.n, st.inc, st.out), act) && FreshAck(Local(st.p.n, st.inc, st.out), act)
  }

  function AfterAct(st: Seat, act: Action): Seat
    requires CanAct(st, act)
  {
    var l := LocalStep(Local(st.p.n, st.inc, st.out), act);
    Seat(Runs(l.n), l.inc, l.out)
  }

  predicate Can(c: Conn, mv: ConnMove) {
    match mv
    case Poll(side, recv, _) => CanPoll(SeatOf(c, side), recv)
    case Act(side, act) => CanAct(SeatOf(c, side), act)
    case Drop(side, i) => i < |SeatOf(c, side).inc|
  }

  function After(c: Conn, mv: ConnMove): Conn
    requires Can(c, mv)
  {
    match mv
    case Poll(side, recv, expired) => Reseat(c, side, AfterPoll(SeatOf(c, side), side.SideA?, recv, expired))
    case Act(side, act) => Reseat(c, side, AfterAct(SeatOf(c, side), act))
    case Drop(side, i) =>
      var st := SeatOf(c, side);
      Reseat(c, side, st.(inc := st.inc[..i] + st.inc[i + 1..]))
  }

  /** Both sides enter open_conn after tloe_endpoint_init; nothing is in flight. */
  predicate Cold(c: Conn) {
    && c.m.Opens? && IsInitial(c.m.o) && c.m.n == Absent(true)
    && c.s.Opens? && IsInitial(c.s.o) && c.s.n == Absent(false)
    && c.ms == [] && c.sm == []
  }

  predicate ConnStep(c: Conn, mv: ConnMove, c': Conn) {
    Can(c, mv) && c' == After(c, mv)
  }

  predicate IsConnRun(cs: seq<Conn>, mvs: seq<ConnMove>) {
    && |cs| == |mvs| + 1 && Cold(cs[0])
    && forall i {:trigger mvs[i]} :: 0 <= i < |mvs| ==> ConnStep(cs[i], mvs[i], cs[i + 1])
  }

  predicate BothRun(c: Conn) {
    c.m.Runs? && c.s.Runs?
  }

  /** Nothing is lost before both sides have returned. */
  predicate OpensLossless(cs: seq<Conn>, mvs: seq<ConnMove>) {
    forall i {:trigger mvs[i]} :: 0 <= i < |mvs| && i < |cs| ==> (mvs[i].Drop? ==> BothRun(cs[i]))
  }

  /** Both sides have returned and the slave has accepted the master's last opening frame. */
  predicate Agreed(c: Conn) {
    BothRun(c) && c.s.n.got >= 6
  }

  // ----- As a system of two endpoints -----

  /** A side still opening, seen from the other: its frames are as good as sent, none accepted. */
  function Absent(master: bool): Node {
    Entered(Ep(Running, |Opened(master)|, 0, MAX_SEQ_NUM, [], [], [], [0, 0, 0, 0, 0, 0], [0, 0, 0, 0, 0, 0],
               false, false, Counters(0, 0, 0, 0)), master).(granted := Grant(5))
  }

  function SystemOf(c: Conn): System {
    System(c.m.n, c.s.n, c.ms, c.sm)
  }
}
