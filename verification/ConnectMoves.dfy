/** Single moves of a connection, each with what it does, along runs from a cold start. */
module ConnectMoves {
  import opened Options
  import opened SeqNum
  import opened TileLink
  import opened FlowSpec
  import opened LinkSpec
  import opened World
  import opened Invariant
  import opened ReceiveProof
  import opened Handshake
  import opened HandshakeFacts
  import opened Connect
  import opened ConnectInv
  import opened ConnectProof
  import opened ConnectTheorems

  /** Some run from a cold start passes b and ends in c. */
  ghost predicate Leads(b: Conn, c: Conn) {
    exists cs, mvs, j :: Passes(cs, mvs, j, b, c)
  }

  /** The run passes through b at j and ends in c. */
  ghost predicate Passes(cs: seq<Conn>, mvs: seq<ConnMove>, j: int, b: Conn, c: Conn) {
    IsConnRun(cs, mvs) && 0 <= j < |cs| && cs[j] == b && cs[|cs| - 1] == c
  }

  lemma ExtendRun(cs: seq<Conn>, mvs: seq<ConnMove>, mv: ConnMove, c': Conn)
    requires IsConnRun(cs, mvs) && ConnStep(cs[|cs| - 1], mv, c')
    ensures IsConnRun(cs + [c'], mvs + [mv])
  {
    var cs', mvs' := cs + [c'], mvs + [mv];
    forall i | 0 <= i < |mvs'| ensures ConnStep(cs'[i], mvs'[i], cs'[i + 1]) {
      if i < |mvs| {
        assert mvs'[i] == mvs[i] && cs'[i] == cs[i] && cs'[i + 1] == cs[i + 1];
      } else {
        assert mvs'[i] == mv && cs'[i] == cs[|cs| - 1] && cs'[i + 1] == c';
      }
    }
  }

  lemma Reach(b: Conn, c: Conn, mv: ConnMove, c': Conn)
    requires Leads(b, c) && ConnStep(c, mv, c')
    ensures Leads(b, c')
  {
    var cs, mvs, j :| Passes(cs, mvs, j, b, c);
    ExtendRun(cs, mvs, mv, c');
    LeadsFrom(cs + [c'], mvs + [mv], j);
  }

  lemma LeadsFrom(cs: seq<Conn>, mvs: seq<ConnMove>, j: nat)
    requires IsConnRun(cs, mvs) && j < |cs|
    ensures Leads(cs[j], cs[|cs| - 1])
  {
    assert Passes(cs, mvs, j, cs[j], cs[|cs| - 1]);
  }

  lemma LeadsGoodOrStuck(b: Conn, c: Conn)
    requires Leads(b, c)
    ensures GoodOrStuck(c)
  {
    var cs, mvs, j :| Passes(cs, mvs, j, b, c);
    RunEndsGoodOrStuck(cs, mvs, j, b, c);
  }

  lemma RunEndsGoodOrStuck(cs: seq<Conn>, mvs: seq<ConnMove>, j: int, b: Conn, c: Conn)
    requires Passes(cs, mvs, j, b, c)
    ensures GoodOrStuck(c)
  {
    ConnRunKeeps(cs, mvs, |cs| - 1);
  }

  /** Short of a running master and an opening slave, a state of a run is good. */
  lemma LeadsIsGood(b: Conn, c: Conn)
    requires Leads(b, c) && (c.m.Opens? || c.s.Runs?)
    ensures Good(c)
  {
    LeadsGoodOrStuck(b, c);
  }

  /** So is one with an announcement on its way. */
  lemma AnnouncedIsGood(b: Conn, c: Conn, i: nat)
    requires Leads(b, c) && i < |c.ms| && c.ms[i].frame.chan != 0
    ensures Good(c)
  {
    LeadsGoodOrStuck(b, c);
  }

  /** The numbers of the frames in flight. */
  predicate Carries(fs: seq<Flight>, nums: seq<int>) {
    |fs| == |nums| && forall i :: 0 <= i < |nums| ==> fs[i].seqG == nums[i]
  }

  // ----- What single moves do -----

  lemma RoundSent(o: Opening, expired: bool)
    requires MasterOpens(o) && o.timer
    ensures var t := MasterTurn(o, None, expired);
            && !t.o.done && t.frames == Round(true, o.ep.nextRx) && t.o.timer == expired && t.o.ep.nextRx == o.ep.nextRx
            && Carries(TagAll(t.frames, |Opened(true)|, |Opened(false)|), [0, 1, 2, 3, 4])
  {
    MasterTurnFacts(o, None, expired);
    FilledDecides(o.ep.credits, o.ep.nextRx);
    RoundOk(true, o.ep.nextRx);
    MasterStartsRound(o, Round(true, o.ep.nextRx));
  }

  /** The master sends a round and hears nothing. */
  lemma SendsRound(b: Conn, c: Conn, expired: bool) returns (c': Conn)
    requires Leads(b, c) && c.m.Opens? && c.m.o.timer && c.ms == []
    ensures Leads(b, c') && c'.s == c.s && c'.sm == c.sm && Carries(c'.ms, [0, 1, 2, 3, 4])
    ensures c'.m.Opens? && c'.m.o.timer == expired && c'.m.o.ep.nextRx == c.m.o.ep.nextRx
  {
    var mv := Poll(SideA, false, expired);
    LeadsIsGood(b, c);
    c' := After(c, mv);
    Reach(b, c, mv, c');
    RoundSent(c.m.o, expired);
    assert c'.ms == TagAll(MasterTurn(c.m.o, None, expired).frames, |Opened(true)|, |Opened(false)|);
  }

  lemma AfterDrop(c: Conn, i: nat)
    requires i < |c.ms|
    ensures After(c, Drop(SideB, i)) == c.(ms := c.ms[..i] + c.ms[i + 1..])
  {
  }

  lemma Loses(b: Conn, c: Conn, i: nat) returns (c': Conn)
    requires Leads(b, c) && i < |c.ms|
    ensures Leads(b, c') && c' == c.(ms := c.ms[..i] + c.ms[i + 1..])
  {
    AfterDrop(c, i);
    c' := c.(ms := c.ms[..i] + c.ms[i + 1..]);
    Reach(b, c, Drop(SideB, i), c');
  }

  /** What the slave adds to what is on its way to the master. */
  predicate Grows(o: Opening, sm: seq<Flight>, sm': seq<Flight>) {
    && sm <= sm'
    && (o.flag && o.timer ==> |sm'| >= |sm| + 5 && Carries(sm'[|sm|..|sm| + 5], [0, 1, 2, 3, 4]))
  }

  lemma SlaveGrows(o: Opening, ev: Event, sm: seq<Flight>)
    requires SlaveOpens(o) && (ev.recv.Some? ==> ev.recv.value.chan < CHANNEL_NUM)
    requires AllOpeningOk(SlaveTurn(o, ev.recv, ev.expired).frames, false)
    ensures Grows(o, sm, sm + TagAll(SlaveTurn(o, ev.recv, ev.expired).frames, |Opened(false)|, |Opened(true)|))
  {
    var fs := SlaveTurn(o, ev.recv, ev.expired).frames;
    SlaveSends(o, ev);
    if o.flag && o.timer {
      RoundOk(false, o.ep.nextRx);
      forall i | 0 <= i < 5 ensures TagAll(fs, |Opened(false)|, |Opened(true)|)[i].seqG == i {
        assert fs[i] == Round(false, o.ep.nextRx)[i];
        OpeningTag(fs[i], false);
      }
    }
  }

  /** The slave after announcement k: still opening, or returned if that was the last channel. */
  predicate Took(o: Opening, p: Party, k: nat)
    requires k < 5 && Openable(o.ep)
  {
    if AllChannelsFilled(o.ep.credits[k + 1 := 1024]) then
      && p.Runs? && p.n.got == k + 1 && p.n.granted == Grant(k + 1) && p.n.sent == Opened(false)
      && p.n.h.link.status.Running?
    else
      && p.Opens? && p.o.flag && Openable(p.o.ep) && p.o.ep.credits == o.ep.credits[k + 1 := 1024]
      && p.o.started == (o.started || (o.flag && o.timer)) && p.o.timer == !p.o.started
  }

  lemma TurnTakes(o: Opening, f: Frame, k: nat, n: Node)
    requires SlaveOpens(o) && IsAnnouncement(f) && f.seqNum == k < 5 && (o.flag || k == 0)
    ensures var t := SlaveTurn(o, Some(f), false);
            Took(o, if t.o.done then Runs(Entered(t.o.ep, false)) else Opens(t.o, n), k)
  {
    OpenedAt(true, k);
    SlaveTakesOpening(o, Event(Some(f), false));
  }

  lemma AfterTurn(c: Conn)
    requires CanPoll(SeatOf(c, SideB), true)
    ensures var c', t := After(c, Poll(SideB, true, false)), SlaveTurn(c.s.o, Some(c.ms[0].frame), false);
            && c'.m == c.m && c'.ms == c.ms[1..]
            && c'.sm == c.sm + TagAll(t.frames, |Opened(false)|, |Opened(true)|)
            && c'.s == if t.o.done then Runs(Entered(t.o.ep, false)) else Opens(t.o, c.s.n)
  {
  }

  lemma HeadIs(c: Conn, k: nat)
    requires Good(c) && c.s.Opens? && c.ms != [] && c.ms[0].seqG == k < 5
    ensures SlaveOpens(c.s.o) && CanPoll(SeatOf(c, SideB), true) && !Misses(c, true)
    ensures IsAnnouncement(c.ms[0].frame) && c.ms[0].frame.seqNum == k
    ensures AllOpeningOk(SlaveTurn(c.s.o, Some(c.ms[0].frame), false).frames, false)
  {
    SlaveHeard(c.m.n, c.s.n, c.ms, c.sm);
    SlavePollFacts(c, true, false);
  }

  lemma ReachedHeadIs(b: Conn, c: Conn, k: nat)
    requires Leads(b, c) && c.s.Opens? && c.ms != [] && c.ms[0].seqG == k < 5
    requires c.m.Opens? || c.ms[0].frame.chan != 0
    ensures SlaveOpens(c.s.o) && CanPoll(SeatOf(c, SideB), true)
    ensures IsAnnouncement(c.ms[0].frame) && c.ms[0].frame.seqNum == k
    ensures AllOpeningOk(SlaveTurn(c.s.o, Some(c.ms[0].frame), false).frames, false)
  {
    if c.m.Opens? {
      LeadsIsGood(b, c);
    } else {
      AnnouncedIsGood(b, c, 0);
    }
    HeadIs(c, k);
  }

  /** The slave takes announcement k. */
  lemma TakesAnnouncement(b: Conn, c: Conn, k: nat) returns (c': Conn)
    requires Leads(b, c) && c.s.Opens? && c.ms != [] && c.ms[0].seqG == k < 5 && (c.s.o.flag || k == 0)
    requires c.m.Opens? || c.ms[0].frame.chan != 0
    ensures Leads(b, c') && c'.m == c.m && c'.ms == c.ms[1..] && Grows(c.s.o, c.sm, c'.sm)
    ensures Openable(c.s.o.ep) && Took(c.s.o, c'.s, k)
    ensures c'.s.Opens? && (!c.s.o.flag || !c.s.o.timer) ==> c'.sm == c.sm
  {
    ReachedHeadIs(b, c, k);
    SlaveSends(c.s.o, Event(Some(c.ms[0].frame), false));
    c' := After(c, Poll(SideB, true, false));
    Reach(b, c, Poll(SideB, true, false), c');
    AfterTurn(c);
    TurnTakes(c.s.o, c.ms[0].frame, k, c.s.n);
    SlaveGrows(c.s.o, Event(Some(c.ms[0].frame), false), c.sm);
  }

  // ----- The master's side -----

  /** The master after number k: still opening, or returned if it was the last. */
  predicate Heeded(p: Party, k: nat) {
    if k == 4 then p.Runs? && p.n.sent == Opened(true) && p.n.got == 5
    else p.Opens? && !p.o.timer && p.o.ep.nextRx == k + 1
  }

  lemma TurnHeeds(o: Opening, f: Frame, k: nat, n: Node)
    requires MasterOpens(o) && !o.timer && o.ep.nextRx == k < 5 && FromSlave(f) && IsSeq(f.seqAck) && f.seqNum == k
    ensures var t := MasterTurn(o, Some(f), false);
            && Heeded(if t.o.done then Runs(Entered(t.o.ep, true)) else Opens(t.o, n), k)
            && Carries(TagAll(t.frames, |Opened(true)|, |Opened(false)|), if k == 4 then [5] else [])
  {
    MasterTurnFacts(o, Some(f), false);
    FillNext(o.ep, f);
    FilledDecides(TakeOpening(o.ep, f).credits, k + 1);
    OpenedAt(true, 5);
    OpeningTag(LastOpening(), true);
  }

  lemma MasterHeadIs(c: Conn, k: nat)
    requires Good(c) && c.m.Opens? && c.sm != [] && c.sm[0].seqG == k < 5
    ensures MasterOpens(c.m.o) && CanPoll(SeatOf(c, SideA), true)
    ensures FromSlave(c.sm[0].frame) && IsSeq(c.sm[0].frame.seqAck) && c.sm[0].frame.seqNum == k
  {
    MasterHeard(c);
    HeadNumber(c.s.n, c.m.n, c.sm, c.ms, k);
  }

  lemma HeadNumber(s: Node, m: Node, sm: seq<Flight>, ms: seq<Flight>, k: nat)
    requires Dir(s, m, sm, ms, OPENING_LAG) && Rooted(s, false) && sm != [] && sm[0].seqG == k < 5
    ensures sm[0].frame.seqNum == k && sm[0].frame.chan < CHANNEL_NUM
  {
    assert FwdOk(s, m, sm[0], OPENING_LAG);
    assert s.sent[k].seqNum == k % SEQ_MOD;
  }

  lemma AfterMasterTurn(c: Conn)
    requires CanPoll(SeatOf(c, SideA), true)
    ensures var c', t := After(c, Poll(SideA, true, false)), MasterTurn(c.m.o, Some(c.sm[0].frame), false);
            && c'.s == c.s && c'.sm == c.sm[1..]
            && c'.ms == c.ms + TagAll(t.frames, |Opened(true)|, |Opened(false)|)
            && c'.m == if t.o.done then Runs(Entered(t.o.ep, true)) else Opens(t.o, c.m.n)
  {
  }

  /** The master takes number k, the one it expects. */
  lemma Heeds(b: Conn, c: Conn, k: nat) returns (c': Conn)
    requires Leads(b, c) && c.m.Opens? && !c.m.o.timer && c.m.o.ep.nextRx == k
    requires c.sm != [] && c.sm[0].seqG == k < 5
    ensures Leads(b, c') && c'.s == c.s && c'.sm == c.sm[1..] && Heeded(c'.m, k)
    ensures c.ms <= c'.ms && Carries(c'.ms[|c.ms|..], if k == 4 then [5] else [])
  {
    LeadsIsGood(b, c);
    MasterHeadIs(c, k);
    TurnHeeds(c.m.o, c.sm[0].frame, k, c.m.n);
    AfterMasterTurn(c);
    c' := After(c, Poll(SideA, true, false));
    var more := TagAll(MasterTurn(c.m.o, Some(c.sm[0].frame), false).frames, |Opened(true)|, |Opened(false)|);
    assert c'.ms[|c.ms|..] == more;
    Reach(b, c, Poll(SideA, true, false), c');
  }

  lemma HeedsOne(b: Conn, c: Conn, k: nat) returns (c': Conn)
    requires Leads(b, c) && c.m.Opens? && !c.m.o.timer && c.m.o.ep.nextRx == k < 4 && |c.sm| >= 1 && c.sm[0].seqG == k
    ensures Leads(b, c') && c'.s == c.s && c'.ms == c.ms && c'.sm == c.sm[1..]
    ensures c'.m.Opens? && !c'.m.o.timer && c'.m.o.ep.nextRx == k + 1
  {
    c' := Heeds(b, c, k);
    assert c'.ms == c.ms + c'.ms[|c.ms|..];
  }

  // ----- The slave running -----

  lemma ReceivesNext(n: Node, p: Node, inc: seq<Flight>, out: seq<Flight>, now: int)
    requires Inv(p, n, out, inc, OPENING_LAG) && Rooted(n, false) && Rooted(p, true)
    requires inc != [] && inc[0].seqG == n.got < 6 && n.h.link.status.Running?
    ensures Enabled(Local(n, inc, out), Receive(now))
    ensures var n' := AfterReceive(n, inc[0], now);
            n'.got == n.got + 1 && n'.h.link.status.Running? && n'.sent == n.sent && n'.granted == n.granted
  {
    var fl := inc[0];
    assert FwdOk(p, n, fl, OPENING_LAG) && BwdOk(n, p, fl);
    ClassifyRefines(p, n, fl, OPENING_LAG);
    SystemProof.IncomingFits(n, p, fl, OPENING_LAG);
    ReceiveEffect(n, fl, now);
  }

  /** RX of the slave accepts the frame it expects. */
  lemma Receives(b: Conn, c: Conn) returns (c': Conn)
    requires Leads(b, c) && c.s.Runs? && c.s.n.h.link.status.Running? && c.ms != [] && c.ms[0].seqG == c.s.n.got < 6
    ensures Leads(b, c') && c'.m == c.m && c'.ms == c.ms[1..] && c'.s.Runs? && c'.s.n.h.link.status.Running?
    ensures c'.s.n.got == c.s.n.got + 1 && c'.s.n.sent == c.s.n.sent && c'.s.n.granted == c.s.n.granted
  {
    LeadsIsGood(b, c);
    ReceivesNext(c.s.n, c.m.n, c.ms, c.sm, 0);
    AfterReceives(c);
    c' := After(c, Act(SideB, Receive(0)));
    Reach(b, c, Act(SideB, Receive(0)), c');
  }

  lemma AfterReceives(c: Conn)
    requires CanAct(SeatOf(c, SideB), Receive(0))
    ensures var c' := After(c, Act(SideB, Receive(0)));
            c'.m == c.m && c'.ms == c.ms[1..] && c'.s == Runs(AfterReceive(c.s.n, c.ms[0], 0))
  {
  }

  // ----- Turns without a frame, and losses on the way back -----

  lemma LosesBack(b: Conn, c: Conn) returns (c': Conn)
    requires Leads(b, c) && c.sm != []
    ensures Leads(b, c') && c' == c.(sm := c.sm[1..])
  {
    c' := After(c, Drop(SideA, 0));
    Reach(b, c, Drop(SideA, 0), c');
    assert c.sm[..0] + c.sm[1..] == c.sm[1..];
  }

  lemma LosesHead(b: Conn, c: Conn) returns (c': Conn)
    requires Leads(b, c) && c.ms != []
    ensures Leads(b, c') && c' == c.(ms := c.ms[1..])
  {
    c' := Loses(b, c, 0);
    assert c.ms[..0] + c.ms[1..] == c.ms[1..];
  }

  lemma {:induction false} LosesAll(b: Conn, c: Conn) returns (c': Conn)
    requires Leads(b, c)
    ensures Leads(b, c') && c' == c.(ms := [])
    decreases |c.ms|
  {
    c' := c;
    if c.ms != [] {
      c' := LosesHead(b, c);
      c' := LosesAll(b, c');
    }
  }

  lemma {:induction false} LosesAllBack(b: Conn, c: Conn) returns (c': Conn)
    requires Leads(b, c)
    ensures Leads(b, c') && c' == c.(sm := [])
    decreases |c.sm|
  {
    c' := c;
    if c.sm != [] {
      c' := LosesBack(b, c);
      c' := LosesAllBack(b, c');
    }
  }

  /** The master hears nothing until its timer has expired. */
  lemma MasterWaits(b: Conn, c: Conn) returns (c': Conn)
    requires Leads(b, c) && c.m.Opens?
    ensures Leads(b, c') && c'.s == c.s && c'.sm == c.sm
    ensures c'.m.Opens? && c'.m.o.timer && c'.m.o.ep.nextRx == c.m.o.ep.nextRx
  {
    LeadsIsGood(b, c);
    IdleMaster(c.m.o);
    c' := After(c, Poll(SideA, false, true));
    Reach(b, c, Poll(SideA, false, true), c');
  }

  lemma IdleMaster(o: Opening)
    requires MasterOpens(o)
    ensures var t := MasterTurn(o, None, true);
            !t.o.done && t.o.timer && t.o.ep.nextRx == o.ep.nextRx
  {
    MasterTurnFacts(o, None, true);
    FilledDecides(o.ep.credits, o.ep.nextRx);
  }

  /** The slave hears nothing in one turn; it sends its round if one is due. */
  lemma SlaveWaits(b: Conn, c: Conn, expired: bool) returns (c': Conn)
    requires Leads(b, c) && c.m.Opens? && c.s.Opens?
    ensures Leads(b, c') && c'.m == c.m && c'.ms == c.ms && c'.s.Opens? && c'.s.o.flag == c.s.o.flag
    ensures c'.s.o.started == (c.s.o.started || (c.s.o.flag && c.s.o.timer))
    ensures c'.s.o.timer == (!c'.s.o.started || expired)
    ensures c.sm == [] && c.s.o.flag && c.s.o.timer ==> Carries(c'.sm, [0, 1, 2, 3, 4])
  {
    SlaveIsOpening(b, c);
    IdleSlave(c.s.o, expired);
    c' := After(c, Poll(SideB, false, expired));
    Reach(b, c, Poll(SideB, false, expired), c');
    AfterSlaveWaits(c, expired);
  }

  lemma SlaveIsOpening(b: Conn, c: Conn)
    requires Leads(b, c) && c.m.Opens? && c.s.Opens?
    ensures SlaveOpens(c.s.o) && CanPoll(SeatOf(c, SideB), false)
  {
    LeadsIsGood(b, c);
  }

  lemma AfterSlaveWaits(c: Conn, expired: bool)
    requires CanPoll(SeatOf(c, SideB), false) && !SlaveTurn(c.s.o, None, expired).o.done
    ensures var c', t := After(c, Poll(SideB, false, expired)), SlaveTurn(c.s.o, None, expired);
            && c'.m == c.m && c'.ms == c.ms && c'.s == Opens(t.o, c.s.n)
            && c'.sm == c.sm + TagAll(t.frames, |Opened(false)|, |Opened(true)|)
            && (c.sm == [] ==> c'.sm == TagAll(t.frames, |Opened(false)|, |Opened(true)|))
  {
  }

  lemma IdleSlave(o: Opening, expired: bool)
    requires SlaveOpens(o)
    ensures var t := SlaveTurn(o, None, expired);
            && !t.o.done && t.o.flag == o.flag && t.o.started == (o.started || (o.flag && o.timer))
            && t.o.timer == (!t.o.started || expired)
            && (o.flag && o.timer ==> Carries(TagAll(t.frames, |Opened(false)|, |Opened(true)|), [0, 1, 2, 3, 4]))
  {
    var t := SlaveTurn(o, None, expired);
    SlaveIdleTurn(o, Event(None, expired));
    SlaveSends(o, Event(None, expired));
    if o.flag && o.timer {
      RoundOk(false, o.ep.nextRx);
      forall i | 0 <= i < 5 ensures TagAll(t.frames, |Opened(false)|, |Opened(true)|)[i].seqG == i {
        OpeningTag(t.frames[i], false);
      }
    }
  }
}
