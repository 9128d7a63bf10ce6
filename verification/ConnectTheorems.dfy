/** What holds of a connection from a cold start, with and without loss while it is opened. */
module ConnectTheorems {
  import opened Options
  import opened SeqNum
  import opened TileLink
  import opened LinkSpec
  import opened World
  import opened Invariant
  import opened CreditProof
  import opened SystemProof
  import opened MemoryProof
  import opened Theorems
  import opened Handshake
  import opened HandshakeFacts
  import opened Connect
  import opened ConnectInv
  import opened ConnectProof

  /** Whenever both sides run, the steady-state invariant holds, whatever was lost before. */
  lemma BothRunIsGood(cs: seq<Conn>, mvs: seq<ConnMove>, i: nat)
    requires IsConnRun(cs, mvs) && i < |cs| && BothRun(cs[i])
    ensures Good(cs[i])
  {
    ConnRunKeeps(cs, mvs, i);
  }

  // ----- Numbers -----

  /** k numbers before tx */
  function Before(tx: int, k: int): int {
    (tx - k) % SEQ_MOD
  }

  /** The number y expects is the next one of x, or that of a frame x has yet to see acknowledged. */
  predicate NumbersMeet(x: Node, y: Node) {
    exists k :: 0 <= k <= |x.h.link.window| && y.h.link.nextRx == Before(x.h.link.nextTx, k)
  }

  lemma MeetsNumbers(x: Node, y: Node)
    requires WindowInv(x) && Meets(x, y) && y.got >= y.peerOpen
    ensures NumbersMeet(x, y)
  {
    assert Before(x.h.link.nextTx, GTx(x) - GRx(y)) == GRx(y) % SEQ_MOD;
  }

  /**
   Whatever was lost: once both have returned and the slave has accepted the master's last
   opening frame, each side expects the number after what the other has had acknowledged.
   */
  lemma AgreedNumbersMeet(cs: seq<Conn>, mvs: seq<ConnMove>, i: nat)
    requires IsConnRun(cs, mvs) && i < |cs| && Agreed(cs[i])
    ensures NumbersMeet(cs[i].m.n, cs[i].s.n) && NumbersMeet(cs[i].s.n, cs[i].m.n)
  {
    BothRunIsGood(cs, mvs, i);
    MeetsNumbers(cs[i].m.n, cs[i].s.n);
    MeetsNumbers(cs[i].s.n, cs[i].m.n);
  }

  lemma MeetsOnlyAfterSix(m: Node, s: Node)
    requires WindowInv(m) && Meets(m, s) && Rooted(m, true) && Rooted(s, false) && s.got < 6
    ensures !NumbersMeet(m, s)
  {
    forall k | 0 <= k <= |m.h.link.window| ensures s.h.link.nextRx != Before(m.h.link.nextTx, k) {
      assert 6 <= GTx(m) - k <= 10;
      assert Before(m.h.link.nextTx, k) == (GTx(m) - k) % SEQ_MOD;
    }
  }

  /** While both run, the slave's number meets the master's if and only if it has that frame. */
  lemma NumbersMeetIff(cs: seq<Conn>, mvs: seq<ConnMove>, i: nat)
    requires IsConnRun(cs, mvs) && i < |cs| && BothRun(cs[i])
    ensures NumbersMeet(cs[i].m.n, cs[i].s.n) <==> cs[i].s.n.got >= 6
    ensures NumbersMeet(cs[i].s.n, cs[i].m.n)
  {
    BothRunIsGood(cs, mvs, i);
    MeetsNumbers(cs[i].s.n, cs[i].m.n);
    if cs[i].s.n.got >= 6 {
      MeetsNumbers(cs[i].m.n, cs[i].s.n);
    } else {
      MeetsOnlyAfterSix(cs[i].m.n, cs[i].s.n);
    }
  }

  lemma MeetsAtSix(m: Node, s: Node)
    requires WindowInv(m) && Meets(m, s) && Rooted(m, true) && Rooted(s, false) && s.got == 6
    ensures s.h.link.nextRx == 6 && m.h.link.nextTx == 6 + |m.h.link.window|
  {
  }

  /** When it has just accepted that frame, all the master sent since is in the master's window. */
  lemma JustAgreed(cs: seq<Conn>, mvs: seq<ConnMove>, i: nat)
    requires IsConnRun(cs, mvs) && i < |cs| && Agreed(cs[i]) && cs[i].s.n.got == 6
    ensures cs[i].s.n.h.link.nextRx == 6
    ensures cs[i].m.n.h.link.nextTx == 6 + |cs[i].m.n.h.link.window|
  {
    BothRunIsGood(cs, mvs, i);
    MeetsAtSix(cs[i].m.n, cs[i].s.n);
  }

  // ----- Credits -----

  lemma ReturnsOnAnnouncement(o: Opening, ev: Event)
    requires SlaveOpens(o)
    requires ev.recv.Some? ==> ev.recv.value.chan < CHANNEL_NUM
    requires ev.recv.Some? && (o.flag || ev.recv.value.ftype == TYPE_OPEN_CONNECTION) ==> IsAnnouncement(ev.recv.value)
    ensures var t := SlaveTurn(o, ev.recv, ev.expired);
            t.o.done ==> ev.recv.Some? && 1 <= ev.recv.value.chan <= 5 && t.o.ep.nextRx == ev.recv.value.chan
  {
    if ev.recv.Some? && (o.flag || ev.recv.value.ftype == TYPE_OPEN_CONNECTION) {
      SlaveTakesOpening(o, ev);
      OpeningFills(o.ep, ev.recv.value);
    } else {
      SlaveIdleTurn(o, ev);
    }
  }

  /** The slave returns on an announcement, expecting the number after it. */
  lemma SlaveReturns(c: Conn, recv: bool, expired: bool)
    requires Good(c) && CanPoll(SeatOf(c, SideB), recv) && !Misses(c, recv)
    requires After(c, Poll(SideB, recv, expired)).s.Runs?
    ensures recv && 1 <= c.ms[0].frame.chan <= 5
    ensures var n := After(c, Poll(SideB, recv, expired)).s.n;
            n.granted == Grant(c.ms[0].frame.chan) && n.got == c.ms[0].frame.chan
  {
    if recv {
      SlaveHeard(c.m.n, c.s.n, c.ms, c.sm);
    }
    ReturnsOnAnnouncement(c.s.o, Event(Heard(SeatOf(c, SideB), recv), expired));
  }

  /** A running slave keeps running with the grant it returned with. */
  predicate HasGrant(c: Conn, g: seq<int>) {
    c.s.Runs? && c.s.n.granted == g
  }

  lemma StepKeepsGrant(c: Conn, mv: ConnMove, g: seq<int>)
    requires HasGrant(c, g) && Can(c, mv)
    ensures HasGrant(After(c, mv), g)
  {
  }

  lemma GrantStays(cs: seq<Conn>, mvs: seq<ConnMove>, j: nat, i: nat, g: seq<int>)
    requires IsConnRun(cs, mvs) && j <= i < |cs| && HasGrant(cs[j], g)
    ensures HasGrant(cs[i], g)
  {
    var rest := cs[j..];
    forall k | 0 < k < |rest| && HasGrant(rest[k - 1], g) ensures HasGrant(rest[k], g) {
      assert cs[j + k - 1 + 1] == After(cs[j + k - 1], mvs[j + k - 1]);
      StepKeepsGrant(cs[j + k - 1], mvs[j + k - 1], g);
    }
    Throughout(rest, (c: Conn) => HasGrant(c, g), i - j);
  }

  /** Step j is the turn in which the slave returned. */
  predicate ReturnsAt(cs: seq<Conn>, j: nat) {
    j + 1 < |cs| && cs[j].s.Opens? && cs[j + 1].s.Runs?
  }

  lemma StuckDoesNotReturn(c: Conn, mv: ConnMove)
    requires Stuck(c) && Can(c, mv)
    ensures After(c, mv).s.Opens?
  {
    StuckStaysStuck(c, mv);
  }

  lemma MissingDoesNotReturn(c: Conn, recv: bool, expired: bool)
    requires Good(c) && CanPoll(SeatOf(c, SideB), recv) && Misses(c, recv)
    ensures After(c, Poll(SideB, recv, expired)).s.Opens?
  {
    MissingLeavesStuck(c, recv, expired);
  }

  lemma OnlyPollReturns(c: Conn, mv: ConnMove)
    requires Can(c, mv) && c.s.Opens? && After(c, mv).s.Runs?
    ensures mv.Poll? && mv.side.SideB?
  {
  }

  lemma GoodReturnStep(c: Conn, recv: bool, expired: bool)
    requires Good(c) && CanPoll(SeatOf(c, SideB), recv) && After(c, Poll(SideB, recv, expired)).s.Runs?
    ensures recv && 1 <= c.ms[0].frame.chan <= 5
    ensures HasGrant(After(c, Poll(SideB, recv, expired)), Grant(c.ms[0].frame.chan))
  {
    if Misses(c, recv) {
      MissingDoesNotReturn(c, recv, expired);
    } else {
      SlaveReturns(c, recv, expired);
    }
  }

  /** The step that brings the slave out of its loop is a turn on an announcement. */
  lemma ReturnStep(c: Conn, mv: ConnMove)
    requires GoodOrStuck(c) && Can(c, mv) && c.s.Opens? && After(c, mv).s.Runs?
    ensures c.ms != [] && 1 <= c.ms[0].frame.chan <= 5
    ensures HasGrant(After(c, mv), Grant(c.ms[0].frame.chan))
  {
    OnlyPollReturns(c, mv);
    if Stuck(c) {
      StuckDoesNotReturn(c, mv);
    } else {
      GoodReturnStep(c, mv.recv, mv.expired);
    }
  }

  lemma ReturnGrants(cs: seq<Conn>, mvs: seq<ConnMove>, j: nat)
    requires IsConnRun(cs, mvs) && ReturnsAt(cs, j)
    ensures cs[j].ms != [] && 1 <= cs[j].ms[0].frame.chan <= 5
    ensures HasGrant(cs[j + 1], Grant(cs[j].ms[0].frame.chan))
  {
    ConnRunKeeps(cs, mvs, j);
    ReturnStep(cs[j], mvs[j]);
  }

  lemma ReturnFixesGrant(cs: seq<Conn>, mvs: seq<ConnMove>, j: nat, i: nat)
    requires IsConnRun(cs, mvs) && ReturnsAt(cs, j) && j < i < |cs|
    ensures cs[j].ms != [] && 1 <= cs[j].ms[0].frame.chan <= 5
    ensures HasGrant(cs[i], Grant(cs[j].ms[0].frame.chan))
  {
    ReturnGrants(cs, mvs, j);
    GrantStays(cs, mvs, j + 1, i, Grant(cs[j].ms[0].frame.chan));
  }

  lemma RunningSlaveCredit(cs: seq<Conn>, mvs: seq<ConnMove>, i: nat)
    requires IsConnRun(cs, mvs) && i < |cs| && cs[i].s.Runs?
    ensures CreditInv(cs[i].s.n, cs[i].m.n)
  {
    ConnRunKeeps(cs, mvs, i);
  }

  /**
   Whatever was lost: the slave's credits, wherever they are, add up to 1024 on the channels
   up to that of the announcement it returned on, and to 2048 on those above.  So all five
   are right if and only if it returned on channel E's.
   */
  lemma CreditsFollowReturn(cs: seq<Conn>, mvs: seq<ConnMove>, j: nat, i: nat, c: nat)
    requires IsConnRun(cs, mvs) && ReturnsAt(cs, j) && j < i < |cs| && CHANNEL_A <= c <= CHANNEL_E
    ensures cs[j].ms != []
    ensures var s, m := cs[i].s.n, cs[i].m.n;
            && |s.h.link.credits| == |m.h.link.flow| == CHANNEL_NUM
            && CreditTotal(c, s, m) == if c <= cs[j].ms[0].frame.chan then 1024 else 2048
  {
    ReturnFixesGrant(cs, mvs, j, i);
    RunningSlaveCredit(cs, mvs, i);
    GrantedTotal(cs[i].s.n, cs[i].m.n, cs[j].ms[0].frame.chan, c);
  }

  lemma GrantedTotal(s: Node, m: Node, k: int, c: nat)
    requires CreditInv(s, m) && s.granted == Grant(k) && CHANNEL_A <= c <= CHANNEL_E
    ensures CreditTotal(c, s, m) == if c <= k then 1024 else 2048
  {
  }

  predicate AllRight(s: Node, m: Node) {
    && |s.h.link.credits| == |m.h.link.flow| == CHANNEL_NUM
    && forall c :: CHANNEL_A <= c <= CHANNEL_E ==> CreditTotal(c, s, m) == 1024
  }

  lemma CreditsRightIff(cs: seq<Conn>, mvs: seq<ConnMove>, j: nat, i: nat)
    requires IsConnRun(cs, mvs) && ReturnsAt(cs, j) && j < i < |cs|
    ensures cs[j].ms != []
    ensures AllRight(cs[i].s.n, cs[i].m.n) <==> cs[j].ms[0].frame.chan == CHANNEL_E
  {
    ReturnFixesGrant(cs, mvs, j, i);
    RunningSlaveCredit(cs, mvs, i);
    RightIff(cs[i].s.n, cs[i].m.n, cs[j].ms[0].frame.chan);
  }

  lemma RightIff(s: Node, m: Node, k: int)
    requires CreditInv(s, m) && s.granted == Grant(k) && 1 <= k <= 5
    ensures AllRight(s, m) <==> k == CHANNEL_E
  {
    GrantedTotal(s, m, k, CHANNEL_E);
    if k == CHANNEL_E {
      forall c: nat | CHANNEL_A <= c <= CHANNEL_E ensures CreditTotal(c, s, m) == 1024 {
        GrantedTotal(s, m, k, c);
      }
    }
  }

  lemma MasterCredit(c: Conn)
    requires Good(c)
    ensures CreditInv(c.m.n, c.s.n) && c.m.n.granted == Grant(5)
  {
  }

  /** The master's credits are right whatever was lost. */
  lemma MasterCreditsRight(cs: seq<Conn>, mvs: seq<ConnMove>, i: nat)
    requires IsConnRun(cs, mvs) && i < |cs| && BothRun(cs[i])
    ensures AllRight(cs[i].m.n, cs[i].s.n)
  {
    BothRunIsGood(cs, mvs, i);
    MasterCredit(cs[i]);
    RightIff(cs[i].m.n, cs[i].s.n, 5);
  }

  lemma {:induction false} NoFlits(c: nat, fs: seq<Frame>)
    requires forall i :: 0 <= i < |fs| ==> fs[i].msgs == []
    ensures FrameFlits(c, fs) == 0
  {
    if fs != [] {
      NoFlits(c, fs[1..]);
    }
  }

  /** A slave that has just agreed and a connection that has carried nothing else. */
  predicate Unused(m: Node, s: Node) {
    s.sent == Opened(false) && s.got == |m.sent| && m.got == |s.sent|
  }

  lemma UnusedHolds(m: Node, s: Node, c: nat)
    requires CreditInv(s, m) && NodeInv(m) && Rooted(s, false) && Unused(m, s) && CHANNEL_A <= c <= CHANNEL_E
    requires m.delivered == Flatten(s.sent[..m.got])
    ensures |s.h.link.credits| == CHANNEL_NUM && s.h.link.credits[c] == s.granted[c]
  {
    OpenedCarryNothing(s, false, |s.sent|);
    assert m.h.link.inbox == [] && m.handled == [];
    assert Unaccepted(s, m) == [] && Unaccepted(m, s) == [];
    assert CreditTotal(c, s, m) == s.granted[c];
  }

  /**
   On a connection not yet used the slave itself holds those credits: 1024 on the channels
   up to that of the announcement it returned on, 2048 on those above.
   */
  lemma UnusedSlaveHolds(cs: seq<Conn>, mvs: seq<ConnMove>, j: nat, i: nat, c: nat)
    requires IsConnRun(cs, mvs) && ReturnsAt(cs, j) && j < i < |cs| && CHANNEL_A <= c <= CHANNEL_E
    requires Agreed(cs[i]) && Unused(cs[i].m.n, cs[i].s.n)
    ensures cs[j].ms != [] && |cs[i].s.n.h.link.credits| == CHANNEL_NUM
    ensures cs[i].s.n.h.link.credits[c] == if c <= cs[j].ms[0].frame.chan then 1024 else 2048
  {
    ReturnFixesGrant(cs, mvs, j, i);
    BothRunIsGood(cs, mvs, i);
    UnusedConnHolds(cs[i], c);
  }

  lemma UnusedConnHolds(c: Conn, chan: nat)
    requires Good(c) && Unused(c.m.n, c.s.n) && CHANNEL_A <= chan <= CHANNEL_E
    ensures |c.s.n.h.link.credits| == CHANNEL_NUM && c.s.n.h.link.credits[chan] == c.s.n.granted[chan]
  {
    UnusedHolds(c.m.n, c.s.n, chan);
  }

  // ----- A slave left behind -----

  /** Whatever the two sides add once they run comes after their opening frames. */
  lemma MasterActAddsLate(c: Conn, act: Action)
    requires Good(c) && CanAct(SeatOf(c, SideA), act)
    ensures AddsLate(c.ms, After(c, Act(SideA, act)).ms, 6)
  {
    RunnerAddsLate(Local(c.m.n, c.sm, c.ms), act, c.s.n);
  }

  lemma SlaveActAddsLate(c: Conn, act: Action)
    requires Good(c) && CanAct(SeatOf(c, SideB), act)
    ensures AddsLate(c.sm, After(c, Act(SideB, act)).sm, 5)
  {
    InvSymmetric(c.m.n, c.s.n, c.sm, c.ms, OPENING_LAG);
    RunnerAddsLate(Local(c.s.n, c.ms, c.sm), act, c.m.n);
  }

  /** A slave that hears the later frames of the master while it still lacks a channel never returns. */
  lemma StuckNeverReturns(cs: seq<Conn>, mvs: seq<ConnMove>, j: nat, i: nat)
    requires IsConnRun(cs, mvs) && j <= i < |cs| && Stuck(cs[j])
    ensures cs[i].s.Opens?
  {
    var rest := cs[j..];
    forall k | 0 < k < |rest| && Stuck(rest[k - 1]) ensures Stuck(rest[k]) {
      assert cs[j + k - 1 + 1] == After(cs[j + k - 1], mvs[j + k - 1]);
      StuckStaysStuck(cs[j + k - 1], mvs[j + k - 1]);
    }
    Throughout(rest, Stuck, i - j);
  }

  // ----- Opening without loss -----

  /**
   The slave hears the announcements one by one: what it expects next is the first frame on
   its way, and all the others follow.
   */
  predicate Waits(o: Opening, ms: seq<Flight>, silent: bool) {
    var k := o.ep.nextRx;
    && 0 <= k < 5 && Filled(o.ep.credits, k) && (k >= 1 ==> o.flag)
    && (if silent then ms == [] && k == 0
        else |ms| >= 5 - k && forall i :: 0 <= i < 5 - k ==> ms[i].seqG == k + i)
  }

  /** Has the master not taken its first turn? */
  predicate NotStarted(m: Party) {
    m.Opens? && !m.o.started
  }

  predicate InStep(c: Conn) {
    if c.s.Opens? then Waits(c.s.o, c.ms, NotStarted(c.m)) else c.s.n.granted == Grant(5)
  }

  lemma MasterStartsRound(o: Opening, fs: seq<Frame>)
    requires 0 <= o.ep.nextRx <= 5 && o.timer
    requires |fs| >= 5 && fs[..5] == Round(true, o.ep.nextRx) && AllOpeningOk(fs, true)
    ensures forall i :: 0 <= i < 5 ==> TagAll(fs, |Opened(true)|, |Opened(false)|)[i].seqG == i
  {
    RoundOk(true, o.ep.nextRx);
    forall i | 0 <= i < 5 ensures TagAll(fs, |Opened(true)|, |Opened(false)|)[i].seqG == i {
      assert fs[i] == fs[..5][i];
      OpeningTag(fs[i], true);
    }
  }

  /** More frames behind the announcements change nothing. */
  lemma WaitsWithMore(o: Opening, ms: seq<Flight>, ms': seq<Flight>)
    requires Waits(o, ms, false) && |ms| <= |ms'| && ms'[..|ms|] == ms
    ensures Waits(o, ms', false)
  {
    forall i | 0 <= i < |ms| ensures ms'[i] == ms[i] {
      assert ms'[i] == ms'[..|ms|][i];
    }
  }

  lemma MasterPollInStep(c: Conn, recv: bool, expired: bool)
    requires Phases(c) && InStep(c) && c.s.Opens? && CanPoll(SeatOf(c, SideA), recv)
    requires recv ==> FromSlave(c.sm[0].frame) && IsSeq(c.sm[0].frame.seqAck)
    ensures InStep(After(c, Poll(SideA, recv, expired)))
  {
    var st := SeatOf(c, SideA);
    MasterTurnFacts(c.m.o, Heard(st, recv), expired);
    var t := MasterTurn(c.m.o, Heard(st, recv), expired);
    MasterSends(c.m.o, t.o.done, t.frames);
    var ms' := c.ms + TagAll(t.frames, |Opened(true)|, |Opened(false)|);
    if NotStarted(c.m) {
      assert t.frames[..5] == Round(true, c.m.o.ep.nextRx);
      MasterStartsRound(c.m.o, t.frames);
      assert ms' == TagAll(t.frames, |Opened(true)|, |Opened(false)|);
    } else {
      WaitsWithMore(c.s.o, c.ms, ms');
    }
  }

  lemma SlaveTakesExpected(o: Opening, ms: seq<Flight>, ev: Event)
    requires SlaveOpens(o) && Waits(o, ms, false) && ms != [] && ev.recv == Some(ms[0].frame)
    requires IsAnnouncement(ms[0].frame) && ms[0].frame.seqNum == ms[0].seqG
    ensures var t := SlaveTurn(o, ev.recv, ev.expired);
            if t.o.done then t.o.ep.nextRx == 5 else Waits(t.o, ms[1..], false)
  {
    var k := o.ep.nextRx;
    OpenedAt(true, k);
    SlaveTakesOpening(o, ev);
    var t := SlaveTurn(o, ev.recv, ev.expired);
    FilledDecides(t.o.ep.credits, k + 1);
  }

  lemma SlaveHearsInStep(c: Conn, expired: bool)
    requires InStep(c) && CanPoll(SeatOf(c, SideB), true) && SlaveOpens(c.s.o)
    requires IsAnnouncement(c.ms[0].frame) && c.ms[0].frame.seqNum == c.ms[0].seqG
    ensures InStep(After(c, Poll(SideB, true, expired)))
  {
    SlaveTakesExpected(c.s.o, c.ms, Event(Heard(SeatOf(c, SideB), true), expired));
  }

  lemma SlaveWaitsInStep(c: Conn, expired: bool)
    requires InStep(c) && CanPoll(SeatOf(c, SideB), false) && SlaveOpens(c.s.o)
    ensures InStep(After(c, Poll(SideB, false, expired)))
  {
    SlaveIdleTurn(c.s.o, Event(None, expired));
  }

  lemma SlavePollInStep(c: Conn, recv: bool, expired: bool)
    requires Good(c) && InStep(c) && CanPoll(SeatOf(c, SideB), recv)
    ensures !Misses(c, recv)
    ensures InStep(After(c, Poll(SideB, recv, expired)))
  {
    if recv {
      SlaveHeard(c.m.n, c.s.n, c.ms, c.sm);
      SlaveHearsInStep(c, expired);
    } else {
      SlaveWaitsInStep(c, expired);
    }
  }

  lemma ActInStep(c: Conn, side: Side, act: Action)
    requires Good(c) && InStep(c) && CanAct(SeatOf(c, side), act)
    ensures InStep(After(c, Act(side, act)))
  {
    if c.s.Runs? {
      StepKeepsGrant(c, Act(side, act), Grant(5));
    } else {
      MasterActAddsLate(c, act);
      WaitsWithMore(c.s.o, c.ms, After(c, Act(SideA, act)).ms);
    }
  }

  lemma MasterHeard(c: Conn)
    requires Good(c) && c.m.Opens? && c.sm != []
    ensures FromSlave(c.sm[0].frame) && IsSeq(c.sm[0].frame.seqAck)
  {
    assert FwdOk(c.s.n, c.m.n, c.sm[0], OPENING_LAG) && BwdOk(c.m.n, c.s.n, c.sm[0]);
    MasterHears(c.m.n, c.s.n, c.sm[0]);
  }

  /** The slave misses nothing, and goes on as before. */
  predicate StaysInStep(c: Conn, mv: ConnMove)
    requires Can(c, mv)
  {
    !(mv.Poll? && mv.side.SideB? && Misses(c, mv.recv)) && InStep(After(c, mv))
  }

  lemma StepKeepsInStep(c: Conn, mv: ConnMove)
    requires Good(c) && InStep(c) && Can(c, mv) && (mv.Drop? ==> BothRun(c))
    ensures StaysInStep(c, mv)
  {
    if c.s.Runs? {
      RunningInStep(c, mv);
    } else if mv.Poll? {
      PollMoveInStep(c, mv);
    } else {
      ActMoveInStep(c, mv);
    }
  }

  lemma PollMoveInStep(c: Conn, mv: ConnMove)
    requires Good(c) && InStep(c) && Can(c, mv) && mv.Poll? && c.s.Opens?
    ensures StaysInStep(c, mv)
  {
    PollInStep(c, mv.side, mv.recv, mv.expired);
  }

  lemma ActMoveInStep(c: Conn, mv: ConnMove)
    requires Good(c) && InStep(c) && Can(c, mv) && mv.Act?
    ensures StaysInStep(c, mv)
  {
    ActInStep(c, mv.side, mv.act);
  }

  lemma RunningInStep(c: Conn, mv: ConnMove)
    requires c.s.Runs? && InStep(c) && Can(c, mv)
    ensures StaysInStep(c, mv)
  {
    StepKeepsGrant(c, mv, Grant(5));
  }

  lemma PollInStep(c: Conn, side: Side, recv: bool, expired: bool)
    requires Good(c) && InStep(c) && c.s.Opens? && CanPoll(SeatOf(c, side), recv)
    ensures !(side.SideB? && Misses(c, recv))
    ensures InStep(After(c, Poll(side, recv, expired)))
  {
    if side.SideB? {
      SlavePollInStep(c, recv, expired);
    } else {
      if recv {
        MasterHeard(c);
      }
      MasterPollInStep(c, recv, expired);
    }
  }

  predicate GoodInStep(c: Conn) {
    Good(c) && InStep(c)
  }

  lemma RunStepInStep(cs: seq<Conn>, mvs: seq<ConnMove>, i: nat)
    requires IsConnRun(cs, mvs) && OpensLossless(cs, mvs) && 0 < i < |cs| && GoodInStep(cs[i - 1])
    ensures GoodInStep(cs[i])
  {
    assert cs[i - 1 + 1] == After(cs[i - 1], mvs[i - 1]);
    StepKeepsInStep(cs[i - 1], mvs[i - 1]);
    NoMissKeepsGood(cs[i - 1], mvs[i - 1]);
  }

  lemma ColdInStep(c: Conn)
    requires Cold(c)
    ensures GoodInStep(c)
  {
    ColdIsGood(c);
  }

  lemma LosslessInStep(cs: seq<Conn>, mvs: seq<ConnMove>, i: nat)
    requires IsConnRun(cs, mvs) && OpensLossless(cs, mvs) && i < |cs|
    ensures GoodInStep(cs[i])
  {
    ColdInStep(cs[0]);
    forall k | 0 < k < |cs| && GoodInStep(cs[k - 1]) ensures GoodInStep(cs[k]) {
      RunStepInStep(cs, mvs, k);
    }
    Throughout(cs, GoodInStep, i);
  }

  /**
   Opened without loss, however often rounds are resent and whatever the sides send as soon
   as they have returned: the credits of both are right, and when the slave has just taken
   the master's last opening frame it expects 6, the first number of the master's window.
   */
  lemma HandshakeAgrees(cs: seq<Conn>, mvs: seq<ConnMove>, i: nat)
    requires IsConnRun(cs, mvs) && OpensLossless(cs, mvs) && i < |cs| && BothRun(cs[i])
    ensures AllRight(cs[i].m.n, cs[i].s.n) && AllRight(cs[i].s.n, cs[i].m.n)
    ensures Agreed(cs[i]) ==> NumbersMeet(cs[i].m.n, cs[i].s.n) && NumbersMeet(cs[i].s.n, cs[i].m.n)
    ensures cs[i].s.n.got == 6 ==>
              cs[i].s.n.h.link.nextRx == 6 && cs[i].m.n.h.link.nextTx == 6 + |cs[i].m.n.h.link.window|
  {
    LosslessInStep(cs, mvs, i);
    MasterCreditsRight(cs, mvs, i);
    RunningSlaveCredit(cs, mvs, i);
    RightIff(cs[i].s.n, cs[i].m.n, 5);
    if Agreed(cs[i]) {
      AgreedNumbersMeet(cs, mvs, i);
    }
    if cs[i].s.n.got == 6 {
      JustAgreed(cs, mvs, i);
    }
  }

  // ----- What the connection is for -----

  /** Only the master asks, and its requests are valid. */
  predicate MasterOnly(mvs: seq<ConnMove>) {
    forall i :: 0 <= i < |mvs| ==> (mvs[i].Act? ==> MasterAsks(Move(mvs[i].side, mvs[i].act)))
  }

  lemma EnteredMem(e: Ep, master: bool)
    requires e.status.Running?
    ensures MasterMem(Entered(e, master)) && SlaveMem(Entered(e, master))
  {
  }

  lemma TurnKeepsStatus(master: bool, o: Opening, recv: Option<Frame>, expired: bool)
    requires Openable(o.ep) && (recv.Some? ==> recv.value.chan < CHANNEL_NUM)
    ensures LoopTurn(master, o, recv, expired).o.ep.status == o.ep.status
  {
  }

  lemma PollKeepsMem(c: Conn, side: Side, recv: bool, expired: bool)
    requires MemInv(SystemOf(c)) && CanPoll(SeatOf(c, side), recv) && SeatOf(c, side).p.o.ep.status.Running?
    ensures MemInv(SystemOf(After(c, Poll(side, recv, expired))))
  {
    var st := SeatOf(c, side);
    TurnKeepsStatus(side.SideA?, st.p.o, Heard(st, recv), expired);
    EnteredMem(LoopTurn(side.SideA?, st.p.o, Heard(st, recv), expired).o.ep, side.SideA?);
  }

  lemma OpeningRuns(c: Conn, side: Side)
    requires Phases(c) && SeatOf(c, side).p.Opens?
    ensures SeatOf(c, side).p.o.ep.status.Running?
  {
  }

  lemma ConnStepKeepsMem(c: Conn, mv: ConnMove)
    requires Good(c) && MemInv(SystemOf(c)) && Can(c, mv)
    requires mv.Act? ==> MasterAsks(Move(mv.side, mv.act))
    ensures MemInv(SystemOf(After(c, mv)))
  {
    if mv.Poll? {
      OpeningRuns(c, mv.side);
      PollKeepsMem(c, mv.side, mv.recv, mv.expired);
    } else {
      ActIsStep(c, mv);
      StepKeepsMem(SystemOf(c), Move(mv.side, if mv.Act? then mv.act else Lose(mv.i)), OPENING_LAG);
    }
  }

  predicate ServesOrStuck(c: Conn) {
    (Good(c) && MemInv(SystemOf(c))) || Stuck(c)
  }

  lemma RunStepServes(cs: seq<Conn>, mvs: seq<ConnMove>, i: nat)
    requires IsConnRun(cs, mvs) && MasterOnly(mvs) && 0 < i < |cs| && ServesOrStuck(cs[i - 1])
    ensures ServesOrStuck(cs[i])
  {
    assert cs[i - 1 + 1] == After(cs[i - 1], mvs[i - 1]);
    if Stuck(cs[i - 1]) {
      StuckStaysStuck(cs[i - 1], mvs[i - 1]);
    } else {
      StepKeepsGood(cs[i - 1], mvs[i - 1]);
      ConnStepKeepsMem(cs[i - 1], mvs[i - 1]);
    }
  }

  lemma ColdServes(c: Conn)
    requires Cold(c)
    ensures ServesOrStuck(c)
  {
    ColdIsGood(c);
    ColdMem(c.m.n, c.s.n, c.ms, c.sm);
  }

  lemma ColdMem(m: Node, s: Node, ms: seq<Flight>, sm: seq<Flight>)
    requires m == Absent(true) && s == Absent(false)
    ensures MemInv(System(m, s, ms, sm))
  {
    EnteredMem(m.h.link, true);
    EnteredMem(s.h.link, false);
  }

  lemma ConnRunServes(cs: seq<Conn>, mvs: seq<ConnMove>, i: nat)
    requires IsConnRun(cs, mvs) && MasterOnly(mvs) && i < |cs|
    ensures ServesOrStuck(cs[i])
  {
    ColdServes(cs[0]);
    forall k | 0 < k < |cs| && ServesOrStuck(cs[k - 1]) ensures ServesOrStuck(cs[k]) {
      RunStepServes(cs, mvs, k);
    }
    Throughout(cs, ServesOrStuck, i);
  }

  lemma GoodAccounts(c: Conn)
    requires Good(c)
    ensures Accounted(c.m.n, c.s.n) && Accounted(c.s.n, c.m.n)
  {
    DirAccounted(c.m.n, c.s.n, c.ms, c.sm, OPENING_LAG);
    DirAccounted(c.s.n, c.m.n, c.sm, c.ms, OPENING_LAG);
  }

  lemma GoodInbox(n: Node, p: Node)
    requires CreditInv(p, n) && NodeInv(n)
    ensures n.h.link.status != InboxOverflow && |n.h.link.inbox| <= 9216
  {
    InboxBounded(n, p);
  }

  /**
   A connection from its cold start, whatever is lost from the first frame on: once both
   sides run, messages arrive exactly once and in order both ways and no inbox overflows.
   */
  lemma ConnectionIsReliable(cs: seq<Conn>, mvs: seq<ConnMove>, i: nat)
    requires IsConnRun(cs, mvs) && i < |cs| && BothRun(cs[i])
    ensures Accounted(cs[i].m.n, cs[i].s.n) && Accounted(cs[i].s.n, cs[i].m.n)
    ensures cs[i].m.n.h.link.status != InboxOverflow && |cs[i].m.n.h.link.inbox| <= 9216
    ensures cs[i].s.n.h.link.status != InboxOverflow && |cs[i].s.n.h.link.inbox| <= 9216
  {
    BothRunIsGood(cs, mvs, i);
    GoodAccounts(cs[i]);
    GoodInbox(cs[i].m.n, cs[i].s.n);
    GoodInbox(cs[i].s.n, cs[i].m.n);
  }

  lemma ServesPrefix(c: Conn)
    requires ServesOrStuck(c) && BothRun(c)
    ensures AllValid(c.m.n.asked) && c.m.n.delivered <= Answers(c.m.n.asked)
  {
    AcceptedArePrefix(SystemOf(c), OPENING_LAG);
  }

  /** And the responses the master has accepted are those of a sequential memory. */
  lemma ConnectionServesMemory(cs: seq<Conn>, mvs: seq<ConnMove>, i: nat)
    requires IsConnRun(cs, mvs) && MasterOnly(mvs) && i < |cs| && BothRun(cs[i])
    ensures AllValid(cs[i].m.n.asked) && cs[i].m.n.delivered <= Answers(cs[i].m.n.asked)
  {
    ConnRunServes(cs, mvs, i);
    ServesPrefix(cs[i]);
  }
}
