/** Runs of two calm nodes, drawn in pictures and taken one loop turn at a time. */
module Turns {
  import opened LinkSpec
  import opened SeqNum
  import opened World
  import opened Invariant
  import opened SystemProof
  import opened Picture

  /** Some run from the start ends in w. */
  ghost predicate Reachable(w: System) {
    exists ws: seq<System>, mvs: seq<Move> :: IsRun(ws, mvs) && Start(ws[0]) && ws[|mvs|] == w
  }

  lemma StartReachable(w: System)
    requires Start(w)
    ensures Reachable(w)
  {
    assert IsRun([w], []);
  }

  lemma StepReachable(w: System, mv: Move, w': System)
    requires Reachable(w) && Step(w, mv, w')
    ensures Reachable(w')
  {
    var ws: seq<System>, mvs: seq<Move> :| IsRun(ws, mvs) && Start(ws[0]) && ws[|mvs|] == w;
    var ws', mvs' := ws + [w'], mvs + [mv];
    forall i {:trigger mvs'[i]} | 0 <= i < |mvs'| ensures Step(ws'[i], mvs'[i], ws'[i + 1]) {
      if i < |mvs| {
        assert Step(ws[i], mvs[i], ws[i + 1]);
      }
    }
    assert IsRun(ws', mvs');
  }

  lemma ReachableInv(w: System)
    requires Reachable(w)
    ensures SystemInv(w, WINDOW_SIZE) && Inv(w.b, w.a, w.ab, w.ba, WINDOW_SIZE)
  {
    var ws: seq<System>, mvs: seq<Move> :| IsRun(ws, mvs) && Start(ws[0]) && ws[|mvs|] == w;
    StartHasInv(ws[0]);
    RunKeepsInv(ws, mvs, WINDOW_SIZE, |mvs|);
    InvSymmetric(w.a, w.b, w.ba, w.ab, WINDOW_SIZE);
  }

  // ----- Pictures of the system -----

  datatype Pic = Pic(a: Half, b: Half, ab: seq<Item>, ba: seq<Item>)

  function View(p: Pic, side: Side): Scene {
    if side.SideA? then Scene(p.a, p.ba, p.ab) else Scene(p.b, p.ab, p.ba)
  }

  function Redraw(p: Pic, side: Side, s: Scene): Pic {
    if side.SideA? then Pic(s.me, p.b, s.out, s.inc) else Pic(p.a, s.me, s.inc, s.out)
  }

  predicate Drawn(w: System, p: Pic) {
    && Calm(w.a) && Calm(w.b)
    && SceneOf(At(w, SideA)) == View(p, SideA) && SceneOf(At(w, SideB)) == View(p, SideB)
  }

  /** Some run leads to a state with this picture. */
  ghost predicate Shown(p: Pic) {
    exists w :: Reachable(w) && Drawn(w, p)
  }

  function Peer(w: System, side: Side): Node {
    if side.SideA? then w.b else w.a
  }

  lemma BothInv(w: System, side: Side)
    requires Reachable(w)
    ensures LocalInv(At(w, side), Peer(w, side), WINDOW_SIZE)
  {
    ReachableInv(w);
  }

  predicate SameOffsets(w: System) {
    w.a.txOff == w.b.rxOff && w.b.txOff == w.a.rxOff
  }

  lemma ReachableOffsets(w: System)
    requires Reachable(w)
    ensures SameOffsets(w)
  {
    ReachableInv(w);
  }

  lemma SceneFromPeer(l: Local, p: Node)
    requires p.txOff == l.n.rxOff && p.rxOff == l.n.txOff
    ensures SceneOf(Local(p, l.out, l.inc)) == Scene(HalfOf(p), SceneOf(l).out, SceneOf(l).inc)
  {
  }

  lemma PutDrawn(w: System, p: Pic, side: Side, l': Local)
    requires Drawn(w, p) && SameOffsets(w) && SameOffsets(Put(w, side, l')) && Calm(l'.n)
    ensures Drawn(Put(w, side, l'), Redraw(p, side, SceneOf(l')))
  {
    SceneFromPeer(l', Peer(w, side));
    SceneFromPeer(At(w, side), Peer(w, side));
  }

  /** One step whose effect on the acting node's scene is known. */
  lemma ActShows(w: System, p: Pic, side: Side, act: Action, s: Scene)
    requires Reachable(w) && Drawn(w, p) && Acts(At(w, side), act, s)
    ensures Shown(Redraw(p, side, s))
  {
    var l' := LocalStep(At(w, side), act);
    var w' := Put(w, side, l');
    StepReachable(w, Move(side, act), w');
    ReachableOffsets(w);
    ReachableOffsets(w');
    PutDrawn(w, p, side, l');
  }

  /** Room for one more parked ack, no message coming, and a fresh ack if TX is to take one out. */
  predicate Ready(s: Scene) {
    && |s.me.waiting| < ACK_CAPACITY && (s.inc != [] ==> s.inc[0].zero)
    && (Builds(s.me) ==> s.me.got - AckNumber(s.me.waiting[0]) < HALF)
  }

  lemma ReachableTransmits(w: System, side: Side, now: int)
    requires Reachable(w) && Calm(At(w, side).n) && Ready(SceneOf(At(w, side)))
    ensures Acts(At(w, side), Action.Transmit(now), Broadcast(SceneOf(At(w, side)), now))
  {
    BothInv(w, side);
    TransmitScene(At(w, side), Peer(w, side), now);
  }

  lemma ReachableReceives(w: System, side: Side, now: int)
    requires Reachable(w) && Calm(At(w, side).n)
    requires var s := SceneOf(At(w, side)); s.inc != [] && s.inc[0].zero && |s.me.waiting| < ACK_CAPACITY
    ensures Acts(At(w, side), Action.Receive(now), Listened(SceneOf(At(w, side))))
  {
    BothInv(w, side);
    ReceiveScene(At(w, side), Peer(w, side), now);
  }

  lemma Transmits(p: Pic, side: Side, now: int)
    requires Shown(p) && Ready(View(p, side))
    ensures Shown(Redraw(p, side, Broadcast(View(p, side), now)))
  {
    var w :| Reachable(w) && Drawn(w, p);
    ReachableTransmits(w, side, now);
    ActShows(w, p, side, Action.Transmit(now), Broadcast(View(p, side), now));
  }

  lemma Receives(p: Pic, side: Side, now: int)
    requires Shown(p) && View(p, side).inc != [] && View(p, side).inc[0].zero
    requires |View(p, side).me.waiting| < ACK_CAPACITY
    ensures Shown(Redraw(p, side, Listened(View(p, side))))
  {
    var w :| Reachable(w) && Drawn(w, p);
    ReachableReceives(w, side, now);
    ActShows(w, p, side, Action.Receive(now), Listened(View(p, side)));
  }

  /** The network loses the oldest frame on its way to one side. */
  lemma LosesHead(p: Pic, side: Side)
    requires Shown(p) && View(p, side).inc != []
    ensures Shown(Redraw(p, side, Deaf(View(p, side))))
  {
    var w :| Reachable(w) && Drawn(w, p);
    LoseScene(At(w, side));
    ActShows(w, p, side, Action.Lose(0), Deaf(View(p, side)));
  }

  /** A turn of the main loop: TX, RX if a frame has come, and no message for the handler. */
  function Turned(p: Pic, side: Side, now: int): Pic {
    var s := Broadcast(View(p, side), now);
    Redraw(p, side, if s.inc == [] then s else Listened(s))
  }

  lemma TakesTurn(p: Pic, side: Side, now: int)
    requires Shown(p) && Ready(View(p, side))
    ensures Shown(Turned(p, side, now))
  {
    Transmits(p, side, now);
    var q := Redraw(p, side, Broadcast(View(p, side), now));
    if View(q, side).inc != [] {
      Receives(q, side, now);
    }
  }

  // ----- Pictures that follow from pictures -----

  function Lost(p: Pic, side: Side): Pic
    requires View(p, side).inc != []
  {
    Redraw(p, side, Deaf(View(p, side)))
  }

  /** A collection of pictures that turns of either side and losses do not leave. */
  ghost predicate Closed(drawn: Pic -> bool) {
    && (forall p, side, now :: drawn(p) && Ready(View(p, side)) ==> drawn(Turned(p, side, now)))
    && (forall p, side :: drawn(p) && View(p, side).inc != [] ==> drawn(Lost(p, side)))
  }

  lemma TurnsTo(drawn: Pic -> bool, p: Pic, side: Side, now: int, q: Pic)
    requires Closed(drawn) && drawn(p) && Ready(View(p, side)) && Turned(p, side, now) == q
    ensures drawn(q)
  {
  }

  /** The picture without the first k frames on their way to one side. */
  function Without(p: Pic, side: Side, k: nat): Pic
    requires k <= |View(p, side).inc|
  {
    Redraw(p, side, View(p, side).(inc := View(p, side).inc[k..]))
  }

  lemma {:induction false} Loses(drawn: Pic -> bool, p: Pic, side: Side, k: nat)
    requires Closed(drawn) && drawn(p) && k <= |View(p, side).inc|
    ensures drawn(Without(p, side, k))
  {
    if k == 0 {
      assert Without(p, side, 0) == p;
    } else {
      Loses(drawn, p, side, k - 1);
      LosesOne(p, side, k - 1);
    }
  }

  lemma LosesOne(p: Pic, side: Side, k: nat)
    requires k < |View(p, side).inc|
    ensures View(Without(p, side, k), side).inc != []
    ensures Lost(Without(p, side, k), side) == Without(p, side, k + 1)
  {
    assert View(Without(p, side, k), side).inc == View(p, side).inc[k..];
  }

  /** What some run shows is closed. */
  lemma ShownClosed()
    ensures Closed(p => Shown(p))
  {
    forall p, side, now | Shown(p) && Ready(View(p, side)) ensures Shown(Turned(p, side, now)) {
      TakesTurn(p, side, now);
    }
    forall p, side | Shown(p) && View(p, side).inc != [] ensures Shown(Lost(p, side)) {
      LosesHead(p, side);
    }
  }
}
