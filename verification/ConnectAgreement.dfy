/**
 Exactly when a connection can still be agreed on, in every state of every run: what has to
 be on its way, and to whom.
 */
module ConnectAgreement {
  import opened Options
  import opened SeqNum
  import opened TileLink
  import opened FlowSpec
  import opened LinkSpec
  import opened World
  import opened Invariant
  import opened SystemProof
  import opened Handshake
  import opened HandshakeFacts
  import opened Connect
  import opened ConnectInv
  import opened ConnectProof
  import opened OpeningRules
  import opened ConnectTheorems
  import opened ConnectMoves

  // ----- What has to be on its way -----

  /** fs holds frames numbered k to last, in that order, with whatever between them. */
  predicate Follows(fs: seq<Flight>, k: int, last: int) {
    k > last || (fs != [] && Follows(fs[1..], if fs[0].seqG == k then k + 1 else k, last))
  }

  /** A channel the slave has not been told of. */
  predicate Lacks(credits: seq<int>, c: int) {
    CHANNEL_A <= c <= CHANNEL_E && |credits| == CHANNEL_NUM && credits[c] != 1024
  }

  predicate Announced(ms: seq<Flight>, j: int, c: int) {
    exists i :: 0 <= i < j && i < |ms| && ms[i].frame.chan == c
  }

  /** Frame j announces the last channel the slave lacks, and all it will expect then follows. */
  predicate Completes(credits: seq<int>, ms: seq<Flight>, j: int) {
    && 0 <= j < |ms| && Lacks(credits, ms[j].frame.chan)
    && (forall c :: CHANNEL_A <= c <= CHANNEL_E && Lacks(credits, c) && c != ms[j].frame.chan ==> Announced(ms, j, c))
    && Follows(ms[j + 1..], ms[j].frame.chan, 5)
  }

  /**
   Opening sides repeat their announcements, running ones do not.  So while both are opening
   nothing is lost for good; once the slave runs, the rest of its announcements has to be on
   the way to the master; once the master runs, what the slave lacks and then expects has to
   be on the way to the slave.
   */
  predicate CanAgree(c: Conn) {
    if c.s.Opens? then
      c.m.Opens? || exists j :: 0 <= j < |c.ms| && Completes(c.s.o.ep.credits, c.ms, j)
    else if c.m.Opens? then
      c.s.n.h.link.status.Running? && Follows(c.sm, c.m.o.ep.nextRx, 4)
    else
      c.s.n.got >= 6 || (c.s.n.h.link.status.Running? && Follows(c.ms, c.s.n.got, 5))
  }

  // ----- Sequences -----

  /** Places in fs, one after another, where the numbers k to last are found. */
  predicate Picks(fs: seq<Flight>, at: seq<int>, k: int, last: int) {
    && |at| == last - k + 1
    && (forall i :: 0 <= i < |at| ==> 0 <= at[i] < |fs| && fs[at[i]].seqG == k + i)
    && (forall i, j :: 0 <= i < j < |at| ==> at[i] < at[j])
  }

  /** Taking the first place for each number finds them if they are there. */
  lemma {:induction false} FollowsIfPicked(fs: seq<Flight>, at: seq<int>, k: int, last: int)
    requires k <= last + 1 && Picks(fs, at, k, last)
    ensures Follows(fs, k, last)
    decreases |fs|
  {
    if k <= last {
      assert 0 <= at[0] < |fs|;
      var tail := fs[1..];
      if fs[0].seqG == k {
        var rest := seq(last - k, i requires 0 <= i < last - k => at[i + 1] - 1);
        forall i | 0 <= i < |rest| ensures 0 <= rest[i] < |tail| && tail[rest[i]].seqG == k + 1 + i {
          assert at[0] < at[i + 1] && fs[at[i + 1]].seqG == k + (i + 1);
        }
        FollowsIfPicked(tail, rest, k + 1, last);
      } else {
        var rest := seq(last - k + 1, i requires 0 <= i < last - k + 1 => at[i] - 1);
        forall i | 0 <= i < |rest| ensures 0 <= rest[i] < |tail| && tail[rest[i]].seqG == k + i {
          assert i > 0 ==> at[0] < at[i];
          assert at[0] != 0 && fs[at[i]].seqG == k + i;
        }
        FollowsIfPicked(tail, rest, k, last);
      }
    }
  }

  lemma {:induction false} FollowsPicks(fs: seq<Flight>, k: int, last: int) returns (at: seq<int>)
    requires k <= last + 1 && Follows(fs, k, last)
    ensures Picks(fs, at, k, last)
    decreases |fs|
  {
    at := [];
    if k <= last {
      var found := fs[0].seqG == k;
      at := FollowsPicks(fs[1..], if found then k + 1 else k, last);
      at := PicksShifted(fs, at, if found then k + 1 else k, last);
      if found {
        PicksFirst(fs, at, k, last);
        at := [0] + at;
      }
    }
  }

  lemma PicksShifted(fs: seq<Flight>, rest: seq<int>, k: int, last: int) returns (at: seq<int>)
    requires fs != [] && k <= last + 1 && Picks(fs[1..], rest, k, last)
    ensures Picks(fs, at, k, last) && forall i :: 0 <= i < |at| ==> at[i] > 0
  {
    at := seq(|rest|, i requires 0 <= i < |rest| => rest[i] + 1);
    forall i | 0 <= i < |at| ensures 0 < at[i] < |fs| && fs[at[i]].seqG == k + i {
      assert fs[at[i]] == fs[1..][rest[i]];
    }
  }

  lemma PicksFirst(fs: seq<Flight>, at: seq<int>, k: int, last: int)
    requires fs != [] && fs[0].seqG == k <= last && Picks(fs, at, k + 1, last)
    requires forall i :: 0 <= i < |at| ==> at[i] > 0
    ensures Picks(fs, [0] + at, k, last)
  {
    var all := [0] + at;
    forall i | 0 <= i < |all| ensures 0 <= all[i] < |fs| && fs[all[i]].seqG == k + i {
      if i > 0 {
        assert all[i] == at[i - 1];
      }
    }
  }

  /** Follows is the subsequence relation. */
  lemma FollowsIff(fs: seq<Flight>, k: int, last: int)
    requires k <= last + 1
    ensures Follows(fs, k, last) <==> exists at :: Picks(fs, at, k, last)
  {
    if Follows(fs, k, last) {
      var at := FollowsPicks(fs, k, last);
    }
    if at :| Picks(fs, at, k, last) {
      FollowsIfPicked(fs, at, k, last);
    }
  }

  lemma {:induction false} FollowsFewer(fs: seq<Flight>, k: int, last: int)
    requires Follows(fs, k, last)
    ensures Follows(fs, k + 1, last)
    decreases |fs|, 1
  {
    if k <= last {
      if fs[0].seqG == k {
        FollowsTail(fs, k + 1, last);
      } else {
        FollowsFewer(fs[1..], k, last);
        FollowsTail(fs, k + 1, last);
      }
    }
  }

  lemma {:induction false} FollowsTail(fs: seq<Flight>, k: int, last: int)
    requires fs != [] && Follows(fs[1..], k, last)
    ensures Follows(fs, k, last)
    decreases |fs|, 0
  {
    if k <= last && fs[0].seqG == k {
      FollowsFewer(fs[1..], k, last);
    }
  }

  lemma {:induction false} FollowsWithout(fs: seq<Flight>, i: nat, k: int, last: int)
    requires i < |fs| && Follows(fs[..i] + fs[i + 1..], k, last)
    ensures Follows(fs, k, last)
    decreases i
  {
    var less := fs[..i] + fs[i + 1..];
    if i == 0 {
      assert less == fs[1..];
      FollowsTail(fs, k, last);
    } else if k <= last {
      assert less[1..] == fs[1..][..i - 1] + fs[1..][i..] && less[0] == fs[0];
      FollowsWithout(fs[1..], i - 1, if fs[0].seqG == k then k + 1 else k, last);
    }
  }

  /** Frames with later numbers at the end do not matter. */
  lemma {:induction false} FollowsBefore(fs: seq<Flight>, more: seq<Flight>, k: int, last: int)
    requires forall i :: 0 <= i < |more| ==> more[i].seqG > last
    requires Follows(fs + more, k, last)
    ensures Follows(fs, k, last)
    decreases |fs| + |more|
  {
    if k <= last {
      if fs == [] {
        assert fs + more == more;
        NothingFollows(more, k, last);
      } else {
        assert (fs + more)[1..] == fs[1..] + more;
        FollowsBefore(fs[1..], more, if fs[0].seqG == k then k + 1 else k, last);
      }
    }
  }

  lemma {:induction false} NothingFollows(fs: seq<Flight>, k: int, last: int)
    requires k <= last && forall i :: 0 <= i < |fs| ==> fs[i].seqG > last
    ensures !Follows(fs, k, last)
    decreases |fs|
  {
    if fs != [] {
      NothingFollows(fs[1..], k, last);
    }
  }

  lemma LateDoesNotHelp(fs: seq<Flight>, fs': seq<Flight>, k: int, last: int)
    requires AddsLate(fs, fs', last + 1) && Follows(fs', k, last)
    ensures Follows(fs, k, last)
  {
    assert fs' == fs + fs'[|fs|..];
    FollowsBefore(fs, fs'[|fs|..], k, last);
  }

  // ----- Hope once lost is lost for ever: both sides running -----

  lemma LostWhileRunning(c: Conn, c': Conn)
    requires BothRun(c) && BothRun(c') && !CanAgree(c)
    requires || (c'.s == c.s && AddsLate(c.ms, c'.ms, 6))
             || (c'.ms == c.ms && c'.s.n.got == c.s.n.got && c.s.n.h.link.status.Running?)
             || (c.ms != [] && c'.ms == c.ms[1..] && c'.s.n.got == c.s.n.got && c.s.n.h.link.status.Running?)
             || (c.ms != [] && c'.ms == c.ms[1..] && c'.s.n.got == c.s.n.got + 1 && c.ms[0].seqG == c.s.n.got
                 && c.s.n.h.link.status.Running?)
    ensures !CanAgree(c')
  {
    var k := c.s.n.got;
    if c'.s == c.s && AddsLate(c.ms, c'.ms, 6) {
      if Follows(c'.ms, k, 5) {
        LateDoesNotHelp(c.ms, c'.ms, k, 5);
      }
    } else if c'.s.n.got == k + 1 {
      assert Follows(c.ms, k, 5) == Follows(c.ms[1..], k + 1, 5);
    } else if c'.ms != c.ms && Follows(c'.ms, k, 5) {
      FollowsTail(c.ms, k, 5);
    }
  }

  lemma RunnersStayLost(c: Conn, side: Side, act: Action)
    requires Good(c) && BothRun(c) && !CanAgree(c) && CanAct(SeatOf(c, side), act)
    ensures !CanAgree(After(c, Act(side, act)))
  {
    var c' := After(c, Act(side, act));
    if side.SideA? {
      MasterActAddsLate(c, act);
    } else {
      InvSymmetric(c.m.n, c.s.n, c.sm, c.ms, OPENING_LAG);
      AcceptsNext(Local(c.s.n, c.ms, c.sm), act, c.m.n);
    }
    LostWhileRunning(c, c');
  }

  // ----- The master opening, the slave running -----

  lemma SmallNumber(m: Node, s: Node, fl: Flight)
    requires IsAbsent(m, true) && Rooted(s, false) && SentInv(s) && WindowInv(s) && Meets(s, m)
    requires FwdOk(s, m, fl, OPENING_LAG)
    ensures fl.frame.seqNum == fl.seqG
  {
    assert 0 <= fl.seqG <= GTx(s) <= 9;
    if fl.frame.ftype != TYPE_ACKONLY {
      assert s.sent[fl.seqG].seqNum == fl.seqG % SEQ_MOD;
    }
  }

  /** A turn of the master takes a frame exactly if it carries the number expected. */
  lemma MasterCounts(o: Opening, recv: Option<Frame>, expired: bool)
    requires MasterOpens(o)
    requires recv.Some? ==> FromSlave(recv.value) && IsSeq(recv.value.seqAck)
    ensures var t := MasterTurn(o, recv, expired);
            && (t.o.done ==> t.o.ep.nextRx == 5)
            && t.o.ep.nextRx == o.ep.nextRx + if recv.Some? && recv.value.seqNum == o.ep.nextRx then 1 else 0
  {
    MasterTurnFacts(o, recv, expired);
    MasterTakesNext(o, recv, expired);
  }

  lemma MasterTakesNext(o: Opening, recv: Option<Frame>, expired: bool)
    requires Openable(o.ep) && 0 <= o.ep.nextRx <= 5
    requires recv.Some? ==> FromSlave(recv.value)
    ensures MasterTurn(o, recv, expired).o.ep.nextRx
         == o.ep.nextRx + if recv.Some? && recv.value.seqNum == o.ep.nextRx then 1 else 0
  {
    MasterTurnExactly(o, recv, expired);
    TakesAndCounts(o, recv, MasterTurn(o, recv, expired));
  }

  lemma TakesAndCounts(o: Opening, recv: Option<Frame>, t: Turn)
    requires Openable(o.ep) && 0 <= o.ep.nextRx <= 5 && (recv.Some? ==> recv.value.chan < CHANNEL_NUM)
    requires HearsOpening(o, recv, recv.Some? && recv.value.seqNum == o.ep.nextRx, t)
    ensures t.o.ep.nextRx == o.ep.nextRx + if recv.Some? && recv.value.seqNum == o.ep.nextRx then 1 else 0
  {
  }

  /** The channel and the master after a turn, from what was on its way. */
  lemma LostToMaster(c: Conn, c': Conn, recv: bool)
    requires c.m.Opens? && c.s.Runs? && !CanAgree(c) && c.s.n.got <= 5 && c.m.o.ep.nextRx <= 4
    requires recv ==> c.sm != []
    requires c'.s == c.s && c'.sm == Rest(c.sm, recv)
    requires var k' := c.m.o.ep.nextRx + if recv && c.sm[0].seqG == c.m.o.ep.nextRx then 1 else 0;
             if c'.m.Opens? then c'.m.o.ep.nextRx == k' else k' == 5
    ensures !CanAgree(c')
  {
    var k := c.m.o.ep.nextRx;
    if recv {
      assert Follows(c.sm, k, 4) == Follows(c.sm[1..], if c.sm[0].seqG == k then k + 1 else k, 4);
    }
  }

  lemma HeardNumber(c: Conn)
    requires Good(c) && c.m.Opens? && c.sm != []
    ensures FromSlave(c.sm[0].frame) && IsSeq(c.sm[0].frame.seqAck) && c.sm[0].frame.seqNum == c.sm[0].seqG
  {
    MasterHeard(c);
    assert FwdOk(c.s.n, c.m.n, c.sm[0], OPENING_LAG);
    SmallNumber(c.m.n, c.s.n, c.sm[0]);
  }

  lemma MasterPollParts(c: Conn, recv: bool, expired: bool)
    requires CanPoll(SeatOf(c, SideA), recv)
    ensures var c' := After(c, Poll(SideA, recv, expired));
            var t := MasterTurn(c.m.o, Heard(SeatOf(c, SideA), recv), expired);
            && c'.s == c.s && c'.sm == Rest(c.sm, recv)
            && c'.m == if t.o.done then Runs(Entered(t.o.ep, true)) else Opens(t.o, c.m.n)
  {
  }

  lemma MasterPollStaysLost(c: Conn, recv: bool, expired: bool)
    requires Good(c) && c.s.Runs? && !CanAgree(c) && CanPoll(SeatOf(c, SideA), recv)
    ensures !CanAgree(After(c, Poll(SideA, recv, expired)))
  {
    if recv {
      HeardNumber(c);
    }
    MasterCounts(c.m.o, Heard(SeatOf(c, SideA), recv), expired);
    MasterPollParts(c, recv, expired);
    LostToMaster(c, After(c, Poll(SideA, recv, expired)), recv);
  }

  lemma SlaveActStaysLost(c: Conn, act: Action)
    requires Good(c) && c.m.Opens? && !CanAgree(c) && CanAct(SeatOf(c, SideB), act)
    ensures !CanAgree(After(c, Act(SideB, act)))
  {
    SlaveActAddsLate(c, act);
    var c' := After(c, Act(SideB, act));
    if Follows(c'.sm, c.m.o.ep.nextRx, 4) {
      LateDoesNotHelp(c.sm, c'.sm, c.m.o.ep.nextRx, 4);
    }
  }

  // ----- The master running, the slave opening -----

  /** While the slave is opening, the channel a frame names tells its number. */
  lemma ChanTellsNumber(m: Node, s: Node, fl: Flight)
    requires IsAbsent(s, false) && Rooted(m, true) && CreditInv(s, m) && SentInv(m) && WindowInv(m) && NodeInv(m)
    requires FwdOk(m, s, fl, OPENING_LAG)
    ensures if fl.seqG < 5 then fl.frame.chan == fl.seqG + 1 else fl.frame.chan == 0
  {
    MasterIsMute(m, s);
    if fl.seqG < 5 {
      OpenedAt(true, fl.seqG);
      assert m.sent[fl.seqG] == Opened(true)[fl.seqG];
    }
  }

  predicate ChansTell(ms: seq<Flight>) {
    forall i :: 0 <= i < |ms| ==> if ms[i].seqG < 5 then ms[i].frame.chan == ms[i].seqG + 1 else ms[i].frame.chan == 0
  }

  lemma AllChansTell(m: Node, s: Node, ms: seq<Flight>, sm: seq<Flight>)
    requires Inv(m, s, sm, ms, OPENING_LAG) && IsAbsent(s, false) && Rooted(m, true)
    ensures ChansTell(ms)
  {
    forall i | 0 <= i < |ms|
      ensures if ms[i].seqG < 5 then ms[i].frame.chan == ms[i].seqG + 1 else ms[i].frame.chan == 0
    {
      ChanTellsNumber(m, s, ms[i]);
    }
  }

  lemma CompletesTail(credits: seq<int>, ms: seq<Flight>, j: int)
    requires ms != [] && Completes(credits, ms[1..], j)
    ensures Completes(credits, ms, j + 1)
  {
    forall c | CHANNEL_A <= c <= CHANNEL_E && Lacks(credits, c) && c != ms[j + 1].frame.chan
      ensures Announced(ms, j + 1, c)
    {
      assert Announced(ms[1..], j, c);
      var i :| 0 <= i < j && i < |ms[1..]| && ms[1..][i].frame.chan == c;
      assert ms[i + 1].frame.chan == c;
    }
    assert ms[1..][j + 1..] == ms[j + 2..];
  }

  /** Taking an announcement early is no better than having it on the way. */
  lemma CompletesTaken(credits: seq<int>, ms: seq<Flight>, j: int)
    requires ms != [] && |credits| == CHANNEL_NUM && CHANNEL_A <= ms[0].frame.chan <= CHANNEL_E
    requires Completes(credits[ms[0].frame.chan := 1024], ms[1..], j)
    ensures Completes(credits, ms, j + 1)
  {
    var less := credits[ms[0].frame.chan := 1024];
    forall c | CHANNEL_A <= c <= CHANNEL_E && Lacks(credits, c) && c != ms[j + 1].frame.chan
      ensures Announced(ms, j + 1, c)
    {
      if c == ms[0].frame.chan {
        assert ms[0].frame.chan == c;
      } else {
        assert Lacks(less, c) && Announced(ms[1..], j, c);
        var i :| 0 <= i < j && i < |ms[1..]| && ms[1..][i].frame.chan == c;
        assert ms[i + 1].frame.chan == c;
      }
    }
    assert ms[1..][j + 1..] == ms[j + 2..];
  }

  /** Returning on the frame in front is one way to go on. */
  lemma CompletesNow(credits: seq<int>, ms: seq<Flight>)
    requires ms != [] && TwoValued(credits) && CHANNEL_A <= ms[0].frame.chan <= CHANNEL_E
    requires !AllChannelsFilled(credits) && AllChannelsFilled(credits[ms[0].frame.chan := 1024])
    requires Follows(ms[1..], ms[0].frame.chan, 5)
    ensures Completes(credits, ms, 0)
  {
    AllFilledIff(credits);
    AllFilledIff(credits[ms[0].frame.chan := 1024]);
    var c :| CHANNEL_A <= c <= CHANNEL_E && credits[c] != 1024;
    assert credits[ms[0].frame.chan := 1024][c] == 1024;
    forall d | CHANNEL_A <= d <= CHANNEL_E && d != ms[0].frame.chan ensures credits[d] == 1024 {
      assert credits[ms[0].frame.chan := 1024][d] == 1024;
    }
  }

  predicate Hopeless(credits: seq<int>, ms: seq<Flight>) {
    forall j :: 0 <= j < |ms| ==> !Completes(credits, ms, j)
  }

  lemma HopelessTail(credits: seq<int>, ms: seq<Flight>)
    requires ms != [] && Hopeless(credits, ms)
    ensures Hopeless(credits, ms[1..])
  {
    var tail := ms[1..];
    forall j | 0 <= j < |tail| ensures !Completes(credits, tail, j) {
      if Completes(credits, tail, j) {
        CompletesTail(credits, ms, j);
      }
    }
  }

  lemma HopelessTaken(credits: seq<int>, ms: seq<Flight>)
    requires ms != [] && |credits| == CHANNEL_NUM && CHANNEL_A <= ms[0].frame.chan <= CHANNEL_E && Hopeless(credits, ms)
    ensures Hopeless(credits[ms[0].frame.chan := 1024], ms[1..])
  {
    var less, tail := credits[ms[0].frame.chan := 1024], ms[1..];
    forall j | 0 <= j < |tail| ensures !Completes(less, tail, j) {
      if Completes(less, tail, j) {
        CompletesTaken(credits, ms, j);
      }
    }
  }

  /** Later frames name no channel and follow nothing. */
  lemma CompletesBefore(credits: seq<int>, ms: seq<Flight>, ms': seq<Flight>, j: int)
    requires AddsLate(ms, ms', 6) && ChansTell(ms') && Completes(credits, ms', j)
    ensures Completes(credits, ms, j)
  {
    assert ms'[j] == ms'[..|ms|][j];
    forall c | CHANNEL_A <= c <= CHANNEL_E && Lacks(credits, c) && c != ms[j].frame.chan ensures Announced(ms, j, c) {
      assert Announced(ms', j, c);
      var i :| 0 <= i < j && i < |ms'| && ms'[i].frame.chan == c;
      assert ms'[i] == ms'[..|ms|][i];
    }
    assert ms'[j + 1..] == ms[j + 1..] + ms'[|ms|..];
    FollowsBefore(ms[j + 1..], ms'[|ms|..], ms[j].frame.chan, 5);
  }

  lemma HopelessWithMore(credits: seq<int>, ms: seq<Flight>, ms': seq<Flight>)
    requires AddsLate(ms, ms', 6) && ChansTell(ms') && Hopeless(credits, ms)
    ensures Hopeless(credits, ms')
  {
    forall j | 0 <= j < |ms'| ensures !Completes(credits, ms', j) {
      if Completes(credits, ms', j) {
        CompletesBefore(credits, ms, ms', j);
      }
    }
  }

  lemma CompletesWithout(credits: seq<int>, ms: seq<Flight>, i: nat, less: seq<Flight>, j: int)
    requires i < |ms| && less == ms[..i] + ms[i + 1..] && Completes(credits, less, j)
    ensures Completes(credits, ms, if j < i then j else j + 1)
  {
    var j' := if j < i then j else j + 1;
    assert ms[j'] == less[j];
    forall c | CHANNEL_A <= c <= CHANNEL_E && Lacks(credits, c) && c != ms[j'].frame.chan ensures Announced(ms, j', c) {
      assert Announced(less, j, c);
      var k :| 0 <= k < j && k < |less| && less[k].frame.chan == c;
      var k' := if k < i then k else k + 1;
      assert ms[k'] == less[k];
    }
    if j < i {
      var rest := ms[j' + 1..];
      assert less[j + 1..] == rest[..i - j - 1] + rest[i - j..];
      FollowsWithout(rest, i - j - 1, ms[j'].frame.chan, 5);
    } else {
      assert less[j + 1..] == ms[j' + 1..];
    }
  }

  lemma HopelessWithout(credits: seq<int>, ms: seq<Flight>, i: nat, less: seq<Flight>)
    requires i < |ms| && less == ms[..i] + ms[i + 1..] && Hopeless(credits, ms)
    ensures Hopeless(credits, less)
  {
    forall j | 0 <= j < |less| ensures !Completes(credits, less, j) {
      if Completes(credits, less, j) {
        CompletesWithout(credits, ms, i, less, j);
      }
    }
  }

  /** What a turn of the slave leaves, from what was on its way. */
  lemma LostToSlave(c: Conn, c': Conn)
    requires c.m.Runs? && c'.m == c.m && c.s.Opens? && c.ms != [] && TwoValued(c.s.o.ep.credits)
    requires !AllChannelsFilled(c.s.o.ep.credits) && Hopeless(c.s.o.ep.credits, c.ms) && c'.ms == c.ms[1..]
    requires CHANNEL_A <= c.ms[0].frame.chan <= CHANNEL_E
    requires var less := c.s.o.ep.credits[c.ms[0].frame.chan := 1024];
             if c'.s.Opens? then c'.s.o.ep.credits == less
             else c'.s.n.got == c.ms[0].frame.chan && AllChannelsFilled(less)
    ensures !CanAgree(c')
  {
    var credits := c.s.o.ep.credits;
    if c'.s.Opens? {
      HopelessTaken(credits, c.ms);
    } else if Follows(c.ms[1..], c.ms[0].frame.chan, 5) {
      CompletesNow(credits, c.ms);
    }
  }

  lemma SlavePollParts(c: Conn, recv: bool, expired: bool)
    requires CanPoll(SeatOf(c, SideB), recv)
    ensures var c', t := After(c, Poll(SideB, recv, expired)), SlaveTurn(c.s.o, Heard(SeatOf(c, SideB), recv), expired);
            && c'.m == c.m && c'.ms == Rest(c.ms, recv)
            && c'.s == (if t.o.done then Runs(Entered(t.o.ep, false)) else Opens(t.o, c.s.n))
            && (t.o.done <==> AllChannelsFilled(t.o.ep.credits))
  {
  }

  /** What the slave makes of the frame in front. */
  lemma SlaveMakesOf(o: Opening, f: Frame, expired: bool)
    requires SlaveOpens(o) && IsAnnouncement(f)
    ensures var t := SlaveTurn(o, Some(f), expired);
            if o.flag || f.ftype == TYPE_OPEN_CONNECTION
            then && CHANNEL_A <= f.chan <= CHANNEL_E
                 && t.o.ep.credits == o.ep.credits[f.chan := 1024] && t.o.ep.nextRx == f.chan
            else t.o.ep.credits == o.ep.credits && !t.o.done
  {
    if o.flag || f.ftype == TYPE_OPEN_CONNECTION {
      SlaveTakesOpening(o, Event(Some(f), expired));
      OpeningFills(o.ep, f);
    } else {
      SlaveIdleTurn(o, Event(Some(f), expired));
    }
  }

  lemma SlaveTakesLost(c: Conn, expired: bool)
    requires CanPoll(SeatOf(c, SideB), true) && c.m.Runs? && SlaveOpens(c.s.o) && !CanAgree(c)
    requires IsAnnouncement(c.ms[0].frame)
    ensures !CanAgree(After(c, Poll(SideB, true, expired)))
  {
    var c' := After(c, Poll(SideB, true, expired));
    SlaveMakesOf(c.s.o, c.ms[0].frame, expired);
    SlavePollParts(c, true, expired);
    if c.s.o.flag || c.ms[0].frame.ftype == TYPE_OPEN_CONNECTION {
      LostToSlave(c, c');
    } else {
      HopelessTail(c.s.o.ep.credits, c.ms);
    }
  }

  lemma SlaveIgnoresLost(c: Conn, recv: bool, expired: bool)
    requires CanPoll(SeatOf(c, SideB), recv) && c.m.Runs? && SlaveOpens(c.s.o) && !CanAgree(c)
    requires recv ==> !c.s.o.flag && c.ms[0].frame.ftype != TYPE_OPEN_CONNECTION
    ensures !CanAgree(After(c, Poll(SideB, recv, expired)))
  {
    SlaveIdleTurn(c.s.o, Event(Heard(SeatOf(c, SideB), recv), expired));
    SlavePollParts(c, recv, expired);
    if recv {
      HopelessTail(c.s.o.ep.credits, c.ms);
    }
  }

  lemma SlavePollStaysLost(c: Conn, recv: bool, expired: bool)
    requires Good(c) && c.m.Runs? && !CanAgree(c) && CanPoll(SeatOf(c, SideB), recv) && !Misses(c, recv)
    ensures !CanAgree(After(c, Poll(SideB, recv, expired)))
  {
    if recv && c.ms[0].seqG < 5 {
      SlaveHeard(c.m.n, c.s.n, c.ms, c.sm);
      SlaveTakesLost(c, expired);
    } else {
      SlaveIgnoresLost(c, recv, expired);
    }
  }

  lemma GoodChansTell(c: Conn)
    requires Good(c) && c.s.Opens?
    ensures ChansTell(c.ms)
  {
    AllChansTell(c.m.n, c.s.n, c.ms, c.sm);
  }

  lemma AfterMasterTell(c: Conn, act: Action)
    requires Good(c) && c.s.Opens? && CanAct(SeatOf(c, SideA), act)
    ensures ChansTell(After(c, Act(SideA, act)).ms)
  {
    ActKeepsSystem(c, Act(SideA, act));
    var c' := After(c, Act(SideA, act));
    AllChansTell(c'.m.n, c'.s.n, c'.ms, c'.sm);
  }

  lemma MasterActStaysLost(c: Conn, act: Action)
    requires Good(c) && c.s.Opens? && !CanAgree(c) && CanAct(SeatOf(c, SideA), act)
    ensures !CanAgree(After(c, Act(SideA, act)))
  {
    MasterActAddsLate(c, act);
    AfterMasterTell(c, act);
    LostWithMore(c, After(c, Act(SideA, act)));
  }

  lemma LostWithMore(c: Conn, c': Conn)
    requires c.s.Opens? && c.m.Runs? && c'.m.Runs? && c'.s == c.s && !CanAgree(c)
    requires AddsLate(c.ms, c'.ms, 6) && ChansTell(c'.ms)
    ensures !CanAgree(c')
  {
    HopelessWithMore(c.s.o.ep.credits, c.ms, c'.ms);
  }

  lemma StuckIsLost(c: Conn)
    requires Stuck(c)
    ensures !CanAgree(c)
  {
  }

  // ----- Every step -----

  lemma DropStaysLost(c: Conn, side: Side, i: nat)
    requires !CanAgree(c) && i < |SeatOf(c, side).inc|
    ensures !CanAgree(After(c, Drop(side, i)))
  {
    var c' := After(c, Drop(side, i));
    if c.s.Opens? {
      if side.SideB? {
        HopelessWithout(c.s.o.ep.credits, c.ms, i, c'.ms);
      }
    } else if c.m.Opens? {
      if side.SideA? && Follows(c'.sm, c.m.o.ep.nextRx, 4) {
        FollowsWithout(c.sm, i, c.m.o.ep.nextRx, 4);
      }
    } else if side.SideB? && Follows(c'.ms, c.s.n.got, 5) {
      FollowsWithout(c.ms, i, c.s.n.got, 5);
    }
  }

  lemma ActStaysLost(c: Conn, side: Side, act: Action)
    requires Good(c) && !CanAgree(c) && CanAct(SeatOf(c, side), act)
    ensures !CanAgree(After(c, Act(side, act)))
  {
    if BothRun(c) {
      RunnersStayLost(c, side, act);
    } else if side.SideA? {
      MasterActStaysLost(c, act);
    } else {
      SlaveActStaysLost(c, act);
    }
  }

  lemma PollStaysLost(c: Conn, side: Side, recv: bool, expired: bool)
    requires Good(c) && !CanAgree(c) && CanPoll(SeatOf(c, side), recv)
    ensures !CanAgree(After(c, Poll(side, recv, expired)))
  {
    if side.SideA? {
      MasterPollStaysLost(c, recv, expired);
    } else if Misses(c, recv) {
      MissingLeavesStuck(c, recv, expired);
      StuckIsLost(After(c, Poll(side, recv, expired)));
    } else {
      SlavePollStaysLost(c, recv, expired);
    }
  }

  lemma GoodStaysLost(c: Conn, mv: ConnMove)
    requires Good(c) && !CanAgree(c) && Can(c, mv)
    ensures !CanAgree(After(c, mv))
  {
    match mv {
      case Poll(side, recv, expired) => PollStaysLost(c, side, recv, expired);
      case Act(side, act) => ActStaysLost(c, side, act);
      case Drop(side, i) => DropStaysLost(c, side, i);
    }
  }

  lemma StaysLost(c: Conn, mv: ConnMove)
    requires GoodOrStuck(c) && !CanAgree(c) && Can(c, mv)
    ensures !CanAgree(After(c, mv))
  {
    if Stuck(c) {
      StuckStaysStuck(c, mv);
      StuckIsLost(After(c, mv));
    } else {
      GoodStaysLost(c, mv);
    }
  }

  // ----- While there is hope: the slave running -----

  /** The numbers from, from + 1, ... up to last, and nothing else. */
  predicate Counts(fs: seq<Flight>, from: int, last: int) {
    |fs| == last - from + 1 && forall i :: 0 <= i < |fs| ==> fs[i].seqG == from + i
  }

  lemma {:induction false} CountsFollow(fs: seq<Flight>, from: int, k: int, last: int)
    requires Counts(fs, from, last) && from <= k <= last + 1
    ensures Follows(fs, k, last)
    decreases |fs|
  {
    if k <= last {
      var tail := fs[1..];
      forall i | 0 <= i < |tail| ensures tail[i].seqG == from + 1 + i {
        assert tail[i] == fs[i + 1];
      }
      CountsFollow(tail, from + 1, if from == k then k + 1 else k, last);
    }
  }

  /** RX takes what it expects, the network drops the rest. */
  lemma {:induction false} FinishRunning(b: Conn, c: Conn) returns (c': Conn)
    requires Leads(b, c) && BothRun(c)
    requires c.s.n.got >= 6 || (c.s.n.h.link.status.Running? && Follows(c.ms, c.s.n.got, 5))
    ensures Leads(b, c') && Agreed(c')
    decreases |c.ms|
  {
    c' := c;
    if c.s.n.got < 6 {
      if c.ms[0].seqG == c.s.n.got {
        c' := Receives(b, c);
      } else {
        c' := LosesHead(b, c);
      }
      c' := FinishRunning(b, c');
    }
  }

  // ----- The master running, the slave opening -----

  lemma CompletesLater(credits: seq<int>, ms: seq<Flight>, j: int)
    requires Completes(credits, ms, j) && j > 0
    requires !Lacks(credits, ms[0].frame.chan) || ms[0].frame.chan == ms[j].frame.chan
    ensures Completes(credits, ms[1..], j - 1)
  {
    var tail := ms[1..];
    forall c | CHANNEL_A <= c <= CHANNEL_E && Lacks(credits, c) && c != tail[j - 1].frame.chan
      ensures Announced(tail, j - 1, c)
    {
      assert Announced(ms, j, c);
      var i :| 0 <= i < j && i < |ms| && ms[i].frame.chan == c;
      assert tail[i - 1].frame.chan == c;
    }
    assert tail[j..] == ms[j + 1..];
  }

  lemma CompletesFilled(credits: seq<int>, ms: seq<Flight>, j: int)
    requires Completes(credits, ms, j) && j > 0 && Lacks(credits, ms[0].frame.chan)
    requires ms[0].frame.chan != ms[j].frame.chan
    ensures Completes(credits[ms[0].frame.chan := 1024], ms[1..], j - 1)
  {
    var less, tail := credits[ms[0].frame.chan := 1024], ms[1..];
    forall c | CHANNEL_A <= c <= CHANNEL_E && Lacks(less, c) && c != tail[j - 1].frame.chan
      ensures Announced(tail, j - 1, c)
    {
      assert Announced(ms, j, c);
      var i :| 0 <= i < j && i < |ms| && ms[i].frame.chan == c;
      assert tail[i - 1].frame.chan == c;
    }
    assert tail[j..] == ms[j + 1..];
  }

  lemma LastFills(credits: seq<int>, ms: seq<Flight>)
    requires Completes(credits, ms, 0) && TwoValued(credits)
    ensures AllChannelsFilled(credits[ms[0].frame.chan := 1024])
  {
    var less := credits[ms[0].frame.chan := 1024];
    forall c | CHANNEL_A <= c <= CHANNEL_E ensures less[c] == 1024 {
      assert Lacks(credits, c) && c != ms[0].frame.chan ==> Announced(ms, 0, c);
    }
    AllFilledIff(less);
  }

  lemma StillLacks(credits: seq<int>, c: int)
    requires TwoValued(credits) && Lacks(credits, c)
    ensures !AllChannelsFilled(credits)
  {
    AllFilledIff(credits);
  }

  /** What a state with an announcement on its way to an opening slave looks like. */
  lemma AnnouncedFacts(b: Conn, c: Conn, j: int)
    requires Leads(b, c) && c.s.Opens? && 0 <= j < |c.ms| && c.ms[j].frame.chan != 0
    ensures TwoValued(c.s.o.ep.credits) && Openable(c.s.o.ep) && ChansTell(c.ms)
  {
    AnnouncedIsGood(b, c, j);
    GoodChansTell(c);
  }

  lemma TakesLast(b: Conn, c: Conn) returns (c': Conn)
    requires Leads(b, c) && c.m.Runs? && c.s.Opens? && c.s.o.flag && Completes(c.s.o.ep.credits, c.ms, 0)
    ensures Leads(b, c') && BothRun(c') && c'.s.n.h.link.status.Running? && Follows(c'.ms, c'.s.n.got, 5)
  {
    AnnouncedFacts(b, c, 0);
    LastFills(c.s.o.ep.credits, c.ms);
    c' := TakesAnnouncement(b, c, c.ms[0].seqG);
  }

  lemma TakesLacking(b: Conn, c: Conn, j: int) returns (c': Conn)
    requires Leads(b, c) && c.m.Runs? && c.s.Opens? && c.s.o.flag && Completes(c.s.o.ep.credits, c.ms, j) && j > 0
    requires Lacks(c.s.o.ep.credits, c.ms[0].frame.chan) && c.ms[0].frame.chan != c.ms[j].frame.chan
    ensures Leads(b, c') && c'.m.Runs? && c'.s.Opens? && c'.s.o.flag && c'.ms == c.ms[1..]
    ensures Completes(c'.s.o.ep.credits, c'.ms, j - 1)
  {
    var credits, ms := c.s.o.ep.credits, c.ms;
    AnnouncedFacts(b, c, j);
    CompletesFilled(credits, ms, j);
    StillLacks(credits[ms[0].frame.chan := 1024], ms[j].frame.chan);
    c' := TakesAnnouncement(b, c, ms[0].seqG);
  }

  /** The slave takes what it lacks but the last, then that, then goes on. */
  lemma {:induction false} FinishSlave(b: Conn, c: Conn, j: int) returns (c': Conn)
    requires Leads(b, c) && c.m.Runs? && c.s.Opens? && c.s.o.flag && Completes(c.s.o.ep.credits, c.ms, j)
    ensures Leads(b, c') && Agreed(c')
    decreases |c.ms|
  {
    var credits, ms := c.s.o.ep.credits, c.ms;
    if j == 0 {
      c' := TakesLast(b, c);
      c' := FinishRunning(b, c');
    } else if Lacks(credits, ms[0].frame.chan) && ms[0].frame.chan != ms[j].frame.chan {
      c' := TakesLacking(b, c, j);
      c' := FinishSlave(b, c', j - 1);
    } else {
      CompletesLater(credits, ms, j);
      c' := LosesHead(b, c);
      c' := FinishSlave(b, c', j - 1);
    }
  }

  // ----- The master opening -----

  lemma MasterFacts(b: Conn, c: Conn)
    requires Leads(b, c) && c.m.Opens?
    ensures 0 <= c.m.o.ep.nextRx <= 4 && c.s.n.got <= 5
    ensures c.s.Opens? ==> SlaveOpens(c.s.o)
  {
    LeadsIsGood(b, c);
    FilledDecides(c.m.o.ep.credits, c.m.o.ep.nextRx);
  }

  /** The master has sent a fresh round, and will not send another unasked. */
  lemma SendsFreshRound(b: Conn, c: Conn) returns (c': Conn)
    requires Leads(b, c) && c.m.Opens?
    ensures Leads(b, c') && c'.s == c.s && c'.sm == c.sm && Counts(c'.ms, 0, 4)
    ensures c'.m.Opens? && !c'.m.o.timer && c'.m.o.ep.nextRx == c.m.o.ep.nextRx
  {
    c' := MasterWaits(b, c);
    c' := LosesAll(b, c');
    c' := SendsRound(b, c', false);
  }

  lemma CountsSnoc(ms: seq<Flight>, ms': seq<Flight>)
    requires Counts(ms, 0, 4) && ms <= ms' && Carries(ms'[|ms|..], [5])
    ensures Counts(ms', 0, 5)
  {
    assert ms'[5] == ms'[5..][0];
  }

  /** The master hears the rest of the slave's announcements and returns. */
  lemma {:induction false} HearsRest(b: Conn, c: Conn) returns (c': Conn)
    requires Leads(b, c) && c.m.Opens? && !c.m.o.timer && Counts(c.ms, 0, 4) && Follows(c.sm, c.m.o.ep.nextRx, 4)
    ensures Leads(b, c') && c'.m.Runs? && c'.s == c.s && Counts(c'.ms, 0, 5) && c.ms <= c'.ms
    decreases |c.sm|
  {
    MasterFacts(b, c);
    var k := c.m.o.ep.nextRx;
    if c.sm[0].seqG != k {
      c' := LosesBack(b, c);
      c' := HearsRest(b, c');
    } else if k < 4 {
      c' := HeedsOne(b, c, k);
      c' := HearsRest(b, c');
    } else {
      c' := Heeds(b, c, 4);
      CountsSnoc(c.ms, c'.ms);
    }
  }

  lemma FinishMaster(b: Conn, c: Conn) returns (c': Conn)
    requires Leads(b, c) && c.m.Opens? && c.s.Runs? && CanAgree(c)
    ensures Leads(b, c') && Agreed(c')
  {
    MasterFacts(b, c);
    var c1 := SendsFreshRound(b, c);
    var c2 := HearsRest(b, c1);
    CountsFollow(c2.ms, 0, c2.s.n.got, 5);
    c' := FinishRunning(b, c2);
  }

  // ----- Both opening -----

  /** Before the first announcement the slave says nothing and the master knows nothing. */
  predicate Flagged(c: Conn) {
    c.s.Opens? && !c.s.o.flag ==> !c.s.o.started && c.sm == [] && c.m.Opens? && c.m.o.ep.nextRx == 0
  }

  lemma UnheardMaster(c: Conn, recv: bool, expired: bool)
    requires CanPoll(SeatOf(c, SideA), recv) && MasterOpens(c.m.o) && c.m.o.ep.nextRx == 0 && c.sm == []
    ensures var c' := After(c, Poll(SideA, recv, expired));
            c'.s == c.s && c'.sm == [] && c'.m.Opens? && c'.m.o.ep.nextRx == 0
  {
    MasterCounts(c.m.o, None, expired);
    MasterPollParts(c, recv, expired);
  }

  lemma UnflaggedSlave(c: Conn, recv: bool, expired: bool)
    requires CanPoll(SeatOf(c, SideB), recv) && Flagged(c)
    ensures Flagged(After(c, Poll(SideB, recv, expired)))
  {
  }

  lemma OthersKeepFlagged(c: Conn, mv: ConnMove)
    requires Flagged(c) && Can(c, mv) && !mv.Poll?
    ensures Flagged(After(c, mv))
  {
  }

  lemma PollKeepsFlagged(c: Conn, recv: bool, expired: bool)
    requires Flagged(c) && CanPoll(SeatOf(c, SideA), recv) && MasterOpens(c.m.o)
    ensures Flagged(After(c, Poll(SideA, recv, expired)))
  {
    MasterPollParts(c, recv, expired);
    if c.s.Opens? && !c.s.o.flag {
      UnheardMaster(c, recv, expired);
    }
  }

  lemma StepKeepsFlagged(c: Conn, mv: ConnMove)
    requires (c.m.Opens? ==> MasterOpens(c.m.o)) && Flagged(c) && Can(c, mv)
    ensures Flagged(After(c, mv))
  {
    if !mv.Poll? {
      OthersKeepFlagged(c, mv);
    } else if mv.side.SideA? {
      PollKeepsFlagged(c, mv.recv, mv.expired);
    } else {
      UnflaggedSlave(c, mv.recv, mv.expired);
    }
  }

  lemma RunStepFlagged(cs: seq<Conn>, mvs: seq<ConnMove>, i: nat)
    requires IsConnRun(cs, mvs) && 0 < i < |cs| && Flagged(cs[i - 1])
    ensures Flagged(cs[i])
  {
    ConnRunKeeps(cs, mvs, i - 1);
    FlaggedStep(cs[i - 1], mvs[i - 1], cs[i]);
  }

  lemma FlaggedStep(c: Conn, mv: ConnMove, c': Conn)
    requires GoodOrStuck(c) && Flagged(c) && ConnStep(c, mv, c')
    ensures Flagged(c')
  {
    StepKeepsFlagged(c, mv);
  }

  lemma RunFlagged(cs: seq<Conn>, mvs: seq<ConnMove>, i: nat)
    requires IsConnRun(cs, mvs) && i < |cs|
    ensures Flagged(cs[i])
  {
    forall k | 0 < k < |cs| && Flagged(cs[k - 1]) ensures Flagged(cs[k]) {
      RunStepFlagged(cs, mvs, k);
    }
    Throughout(cs, Flagged, i);
  }

  lemma LeadsFlagged(b: Conn, c: Conn)
    requires Leads(b, c)
    ensures Flagged(c)
  {
    var cs, mvs, j :| Passes(cs, mvs, j, b, c);
    RunEndsFlagged(cs, mvs, j, b, c);
  }

  lemma RunEndsFlagged(cs: seq<Conn>, mvs: seq<ConnMove>, j: int, b: Conn, c: Conn)
    requires Passes(cs, mvs, j, b, c)
    ensures Flagged(c)
  {
    RunFlagged(cs, mvs, |cs| - 1);
  }

  lemma FirstIsNotLast(o: Opening)
    requires SlaveOpens(o) && !o.flag && !o.started
    ensures Openable(o.ep) && !AllChannelsFilled(o.ep.credits[1 := 1024])
  {
    OneIsNotAll(o.ep.credits[1 := 1024], 1);
  }

  /** The slave has heard of the connection. */
  lemma RaisesFlag(b: Conn, c: Conn) returns (c': Conn)
    requires Leads(b, c) && c.m.Opens? && c.s.Opens?
    ensures Leads(b, c') && c'.m.Opens? && c'.s.Opens? && c'.s.o.flag
  {
    c' := c;
    if !c.s.o.flag {
      LeadsFlagged(b, c);
      MasterFacts(b, c);
      FirstIsNotLast(c.s.o);
      c' := SendsFreshRound(b, c);
      c' := TakesAnnouncement(b, c', 0);
    }
  }

  /** And has sent its announcements once more. */
  lemma ServesFreshRound(b: Conn, c: Conn) returns (c': Conn)
    requires Leads(b, c) && c.m.Opens? && c.s.Opens? && c.s.o.flag
    ensures Leads(b, c') && c'.m == c.m && c'.s.Opens? && c'.s.o.flag && Counts(c'.sm, 0, 4)
  {
    c' := SlaveWaits(b, c, true);
    c' := LosesAllBack(b, c');
    c' := SlaveWaits(b, c', false);
  }

  /** The highest channel lacking is the last one of a round. */
  lemma HighestCompletes(credits: seq<int>, ms: seq<Flight>) returns (j: int)
    requires TwoValued(credits) && !AllChannelsFilled(credits) && Counts(ms, 0, 5) && ChansTell(ms)
    ensures Completes(credits, ms, j)
  {
    AllFilledIff(credits);
    var some :| CHANNEL_A <= some <= CHANNEL_E && credits[some] != 1024;
    j := 4;
    while !Lacks(credits, j + 1)
      invariant some <= j + 1 <= 5 && Lacks(credits, some)
      invariant forall c :: j + 1 < c <= CHANNEL_E ==> !Lacks(credits, c)
      decreases j
    {
      j := j - 1;
    }
    assert ms[j].frame.chan == j + 1;
    forall c | CHANNEL_A <= c <= CHANNEL_E && Lacks(credits, c) && c != j + 1 ensures Announced(ms, j, c) {
      assert ms[c - 1].frame.chan == c;
    }
    var rest := ms[j + 1..];
    forall i | 0 <= i < |rest| ensures rest[i].seqG == j + 1 + i {
      assert rest[i] == ms[j + 1 + i];
    }
    CountsFollow(rest, j + 1, j + 1, 5);
  }

  lemma FinishOpening(b: Conn, c: Conn) returns (c': Conn)
    requires Leads(b, c) && c.m.Opens? && c.s.Opens?
    ensures Leads(b, c') && Agreed(c')
  {
    var c1 := RaisesFlag(b, c);
    var c2 := ServesFreshRound(b, c1);
    MasterFacts(b, c2);
    var c3 := SendsFreshRound(b, c2);
    CountsFollow(c3.sm, 0, c3.m.o.ep.nextRx, 4);
    NamesFirst(b, c3);
    var c4 := HearsRest(b, c3);
    var j := RoundCompletes(b, c4);
    c' := FinishSlave(b, c4, j);
  }

  lemma NamesFirst(b: Conn, c: Conn)
    requires Leads(b, c) && c.m.Opens? && c.s.Opens? && Counts(c.ms, 0, 4)
    ensures c.ms[0].frame.chan == 1
  {
    LeadsIsGood(b, c);
    GoodChansTell(c);
  }

  lemma RoundCompletes(b: Conn, c: Conn) returns (j: int)
    requires Leads(b, c) && c.s.Opens? && SlaveOpens(c.s.o) && Counts(c.ms, 0, 5) && c.ms[0].frame.chan == 1
    ensures Completes(c.s.o.ep.credits, c.ms, j)
  {
    AnnouncedFacts(b, c, 0);
    j := HighestCompletes(c.s.o.ep.credits, c.ms);
  }

  // ----- The exact condition -----

  lemma FinishWaiting(b: Conn, c: Conn) returns (c': Conn)
    requires Leads(b, c) && c.m.Runs? && c.s.Opens? && CanAgree(c)
    ensures Leads(b, c') && Agreed(c')
  {
    LeadsFlagged(b, c);
    var j :| 0 <= j < |c.ms| && Completes(c.s.o.ep.credits, c.ms, j);
    c' := FinishSlave(b, c, j);
  }

  /** While the condition holds, some continuation ends in agreement. */
  lemma Finish(b: Conn, c: Conn) returns (c': Conn)
    requires Leads(b, c) && CanAgree(c)
    ensures Leads(b, c') && Agreed(c')
  {
    if c.s.Runs? {
      if c.m.Runs? {
        c' := FinishRunning(b, c);
      } else {
        c' := FinishMaster(b, c);
      }
    } else if c.m.Runs? {
      c' := FinishWaiting(b, c);
    } else {
      c' := FinishOpening(b, c);
    }
  }

  lemma StepStaysLost(c: Conn, mv: ConnMove, c': Conn)
    requires GoodOrStuck(c) && !CanAgree(c) && ConnStep(c, mv, c')
    ensures !CanAgree(c')
  {
    StaysLost(c, mv);
  }

  lemma RunStepStaysLost(cs: seq<Conn>, mvs: seq<ConnMove>, i: nat)
    requires IsConnRun(cs, mvs) && 0 < i < |cs| && !CanAgree(cs[i - 1])
    ensures !CanAgree(cs[i])
  {
    RunStepIs(cs, mvs, i);
    StepStaysLost(cs[i - 1], mvs[i - 1], cs[i]);
  }

  /** Once it fails it fails for ever, and no later state is one of agreement. */
  lemma LostForEver(cs: seq<Conn>, mvs: seq<ConnMove>, j: nat, i: nat)
    requires IsConnRun(cs, mvs) && j <= i < |cs| && !CanAgree(cs[j])
    ensures !CanAgree(cs[i]) && !Agreed(cs[i])
  {
    var rest := cs[j..];
    forall k | 0 < k < |rest| && !CanAgree(rest[k - 1]) ensures !CanAgree(rest[k]) {
      RunStepStaysLost(cs, mvs, j + k);
    }
    Throughout(rest, (c: Conn) => !CanAgree(c), i - j);
  }

  /** Some run continues from c to agreement. */
  ghost predicate Agreeable(c: Conn) {
    exists c' :: Leads(c, c') && Agreed(c')
  }

  lemma AgreeableOnlyIf(c: Conn)
    requires Agreeable(c)
    ensures CanAgree(c)
  {
    var c' :| Leads(c, c') && Agreed(c');
    var cs, mvs, j :| Passes(cs, mvs, j, c, c');
    AgreedOnlyIf(cs, mvs, j, c, c');
  }

  lemma AgreedOnlyIf(cs: seq<Conn>, mvs: seq<ConnMove>, j: int, c: Conn, c': Conn)
    requires Passes(cs, mvs, j, c, c') && Agreed(c')
    ensures CanAgree(c)
  {
    if !CanAgree(c) {
      LostForEver(cs, mvs, j, |cs| - 1);
    }
  }

  /**
   In every state of every run, whatever was lost: the two sides can still agree if and
   only if what they need and will not be sent again is on its way.
   */
  lemma AgreeableIff(cs: seq<Conn>, mvs: seq<ConnMove>, i: nat)
    requires IsConnRun(cs, mvs) && i < |cs|
    ensures Agreeable(cs[i]) <==> CanAgree(cs[i])
  {
    if Agreeable(cs[i]) {
      AgreeableOnlyIf(cs[i]);
    }
    if CanAgree(cs[i]) {
      PrefixLeads(cs, mvs, i);
      var c' := Finish(cs[i], cs[i]);
    }
  }

  lemma PrefixLeads(cs: seq<Conn>, mvs: seq<ConnMove>, i: nat)
    requires IsConnRun(cs, mvs) && i < |cs|
    ensures Leads(cs[i], cs[i])
  {
    var cs', mvs' := cs[..i + 1], mvs[..i];
    forall k | 0 <= k < |mvs'| ensures ConnStep(cs'[k], mvs'[k], cs'[k + 1]) {
      assert mvs'[k] == mvs[k];
    }
    LeadsFrom(cs', mvs', i);
  }

  // ----- The master's last opening frame -----

  predicate Has(fs: seq<Flight>, number: int) {
    exists i :: 0 <= i < |fs| && fs[i].seqG == number
  }

  lemma {:induction false} FollowsHasLast(fs: seq<Flight>, k: int, last: int)
    requires Follows(fs, k, last) && k <= last
    ensures Has(fs, last)
    decreases |fs|
  {
    var k' := if fs[0].seqG == k then k + 1 else k;
    if k' <= last {
      FollowsHasLast(fs[1..], k', last);
      var i :| 0 <= i < |fs[1..]| && fs[1..][i].seqG == last;
      assert fs[i + 1].seqG == last;
    } else {
      assert fs[0].seqG == last;
    }
  }

  lemma CompletesHasLast(credits: seq<int>, ms: seq<Flight>, j: int)
    requires Completes(credits, ms, j)
    ensures Has(ms, 5)
  {
    var rest := ms[j + 1..];
    FollowsHasLast(rest, ms[j].frame.chan, 5);
    var i :| 0 <= i < |rest| && rest[i].seqG == 5;
    assert ms[j + 1 + i].seqG == 5;
  }

  lemma NeedsLast(c: Conn)
    requires c.m.Runs? && !Has(c.ms, 5) && (c.s.Runs? ==> c.s.n.got <= 5)
    ensures !CanAgree(c)
  {
    if c.s.Opens? {
      forall j | 0 <= j < |c.ms| ensures !Completes(c.s.o.ep.credits, c.ms, j) {
        if Completes(c.s.o.ep.credits, c.ms, j) {
          CompletesHasLast(c.s.o.ep.credits, c.ms, j);
        }
      }
    } else if Follows(c.ms, c.s.n.got, 5) {
      FollowsHasLast(c.ms, c.s.n.got, 5);
    }
  }

  lemma DropLosesLast(c: Conn, k: nat)
    requires Phases(c) && k < |c.ms| && c.ms[k].seqG == 5
    ensures !CanAgree(After(c, Drop(SideB, k)))
  {
    var c' := After(c, Drop(SideB, k));
    forall i | 0 <= i < |c'.ms| ensures c'.ms[i].seqG != 5 {
      assert i < k ==> c.ms[i].seqG < 5;
    }
    NeedsLast(c');
  }

  lemma DropStep(cs: seq<Conn>, mvs: seq<ConnMove>, j: nat, k: nat)
    requires IsConnRun(cs, mvs) && j < |mvs| && mvs[j] == Drop(SideB, k)
    requires k < |cs[j].ms| && cs[j].ms[k].seqG == 5
    ensures !CanAgree(cs[j + 1])
  {
    ConnRunKeeps(cs, mvs, j);
    DropEither(cs[j], k);
    assert cs[j + 1] == After(cs[j], mvs[j]);
  }

  lemma DropEither(c: Conn, k: nat)
    requires GoodOrStuck(c) && k < |c.ms| && c.ms[k].seqG == 5
    ensures !CanAgree(After(c, Drop(SideB, k)))
  {
    if Stuck(c) {
      StuckIsLost(c);
      DropStaysLost(c, SideB, k);
    } else {
      DropLosesLast(c, k);
    }
  }

  /** Once the master's last opening frame is dropped there is no agreement, ever. */
  lemma DroppedLastNeverAgrees(cs: seq<Conn>, mvs: seq<ConnMove>, j: nat, k: nat, i: nat)
    requires IsConnRun(cs, mvs) && j < i < |cs| && mvs[j] == Drop(SideB, k)
    requires k < |cs[j].ms| && cs[j].ms[k].seqG == 5
    ensures !Agreed(cs[i])
  {
    DropStep(cs, mvs, j, k);
    LostForEver(cs, mvs, j + 1, i);
  }
}
