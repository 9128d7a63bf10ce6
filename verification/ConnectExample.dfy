/**
 A run in which one announcement is lost: both sides open and agree on the numbers, but the
 slave ends with 2048 credits on three channels.
 */
module ConnectExample {
  import opened TileLink
  import opened FlowSpec
  import opened World
  import opened Invariant
  import opened Handshake
  import opened HandshakeFacts
  import opened Connect
  import opened ConnectInv
  import opened ConnectProof
  import opened ConnectTheorems
  import opened ConnectMoves

  // ----- The run -----

  lemma ColdReachable(c: Conn)
    requires Cold(c)
    ensures Leads(c, c)
  {
    assert Passes([c], [], 0, c, c);
  }

  /** A slave with some channels filled. */
  predicate Filling(p: Party, credits: seq<int>, started: bool) {
    && p.Opens? && Openable(p.o.ep) && p.o.ep.credits[1..] == credits
    && p.o.flag && p.o.started == started && p.o.timer == !started
  }

  lemma WithoutSecond(ms: seq<Flight>)
    requires Carries(ms, [0, 1, 2, 3, 4])
    ensures Carries(ms[..1] + ms[2..], [0, 2, 3, 4])
  {
  }

  /** The first round is sent and its second frame lost. */
  lemma Losing(c0: Conn, expired: bool) returns (c: Conn)
    requires Cold(c0)
    ensures Leads(c0, c) && Carries(c.ms, [0, 2, 3, 4]) && c.sm == [] && c.s == c0.s
    ensures c.m.Opens? && c.m.o.timer == expired && c.m.o.ep.nextRx == 0
  {
    ColdReachable(c0);
    var c1 := SendsRound(c0, c0, expired);
    c := Loses(c0, c1, 1);
    WithoutSecond(c1.ms);
  }

  lemma NotFilled(credits: seq<int>)
    requires |credits| == CHANNEL_NUM && credits[CHANNEL_B] == 128
    ensures !AllChannelsFilled(credits)
  {
    Bits.Pow2Values();
  }

  lemma AllFilled(credits: seq<int>)
    requires |credits| == CHANNEL_NUM && credits[1..] == [1024, 1024, 1024, 1024, 1024]
    ensures AllChannelsFilled(credits)
  {
    Bits.Pow2Values();
    forall c | CHANNEL_A <= c <= CHANNEL_E ensures credits[c] == 1024 {
      assert credits[c] == credits[1..][c - 1];
    }
  }

  lemma Fills(b: Conn, c: Conn, k: nat) returns (c': Conn)
    requires Leads(b, c) && c.m.Opens? && c.s.Opens? && c.ms != [] && c.ms[0].seqG == k < 5 && (c.s.o.flag || k == 0)
    requires Openable(c.s.o.ep) && c.s.o.ep.credits[CHANNEL_B] == 128 && k != 1
    ensures Leads(b, c') && c'.m == c.m && c'.ms == c.ms[1..] && Grows(c.s.o, c.sm, c'.sm)
    ensures (!c.s.o.flag || !c.s.o.timer) ==> c'.sm == c.sm
    ensures Filling(c'.s, c.s.o.ep.credits[k + 1 := 1024][1..], c.s.o.started || (c.s.o.flag && c.s.o.timer))
  {
    NotFilled(c.s.o.ep.credits[k + 1 := 1024]);
    c' := TakesAnnouncement(b, c, k);
  }

  lemma Tail(ms: seq<Flight>, k: int, nums: seq<int>)
    requires Carries(ms, [k] + nums)
    ensures ms != [] && ms[0].seqG == k && Carries(ms[1..], nums)
  {
    assert ms[0].seqG == ([k] + nums)[0];
    forall i | 0 <= i < |nums| ensures ms[1..][i].seqG == nums[i] {
      assert ms[i + 1].seqG == ([k] + nums)[i + 1];
    }
  }

  /** The first turn raises the flag, the second sends the slave's round. */
  lemma TakesFirst(b: Conn, c: Conn) returns (c': Conn)
    requires Leads(b, c) && c.m.Opens? && Carries(c.ms, [0, 2, 3, 4]) && c.sm == [] && c.s.Opens? && IsInitial(c.s.o)
    ensures Leads(b, c') && c'.m == c.m && Carries(c'.ms, [2, 3, 4]) && c'.sm == []
    ensures Filling(c'.s, [1024, 128, 128, 128, 128], false)
  {
    Tail(c.ms, 0, [2, 3, 4]);
    c' := Fills(b, c, 0);
  }

  lemma TakesThird(b: Conn, c: Conn) returns (c': Conn)
    requires Leads(b, c) && c.m.Opens? && Carries(c.ms, [2, 3, 4]) && c.sm == []
    requires Filling(c.s, [1024, 128, 128, 128, 128], false)
    ensures Leads(b, c') && c'.m == c.m && Carries(c'.ms, [3, 4])
    ensures |c'.sm| >= 5 && Carries(c'.sm[..5], [0, 1, 2, 3, 4])
    ensures Filling(c'.s, [1024, 128, 1024, 128, 128], true)
  {
    Tail(c.ms, 2, [3, 4]);
    c' := Fills(b, c, 2);
    assert c'.sm[|c.sm|..|c.sm| + 5] == c'.sm[..5];
  }

  lemma TakesLater(b: Conn, c: Conn, k: nat, nums: seq<int>, credits: seq<int>) returns (c': Conn)
    requires Leads(b, c) && c.m.Opens? && Carries(c.ms, [k] + nums) && k < 5 && k != 1
    requires |credits| == 5 && credits[1] == 128 && Filling(c.s, credits, true)
    ensures Leads(b, c') && c'.m == c.m && Carries(c'.ms, nums) && c'.sm == c.sm
    ensures Filling(c'.s, credits[k := 1024], true)
  {
    Tail(c.ms, k, nums);
    c' := Fills(b, c, k);
  }

  lemma TakesLast(b: Conn, c: Conn) returns (c': Conn)
    requires Leads(b, c) && c.m.Opens? && Carries(c.ms, [1, 2, 3, 4])
    requires Filling(c.s, [1024, 128, 1024, 1024, 1024], true)
    ensures Leads(b, c') && c'.m == c.m && Carries(c'.ms, [2, 3, 4]) && c.sm <= c'.sm
    ensures c'.s.Runs? && c'.s.n.got == 2 && c'.s.n.granted == Grant(2) && c'.s.n.sent == Opened(false)
    ensures c'.s.n.h.link.status.Running?
  {
    Tail(c.ms, 1, [2, 3, 4]);
    AllFilled(c.s.o.ep.credits[2 := 1024]);
    c' := TakesAnnouncement(b, c, 1);
  }

  /** The slave hears the rest of the first round and sends its own. */
  lemma FirstRound(b: Conn, c: Conn) returns (c': Conn)
    requires Leads(b, c) && c.m.Opens? && Carries(c.ms, [0, 2, 3, 4]) && c.sm == [] && c.s.Opens? && IsInitial(c.s.o)
    ensures Leads(b, c') && c'.m == c.m && c'.ms == [] && Filling(c'.s, [1024, 128, 1024, 1024, 1024], true)
    ensures |c'.sm| >= 5 && Carries(c'.sm[..5], [0, 1, 2, 3, 4])
  {
    c' := TakesFirst(b, c);
    c' := TakesThird(b, c');
    c' := TakesLater(b, c', 3, [4], [1024, 128, 1024, 128, 128]);
    c' := TakesLater(b, c', 4, [], [1024, 128, 1024, 1024, 128]);
  }

  /** On the second round it returns, on channel B's announcement. */
  lemma SecondRound(b: Conn, c: Conn) returns (c': Conn)
    requires Leads(b, c) && c.m.Opens? && c.m.o.timer && c.ms == [] && Filling(c.s, [1024, 128, 1024, 1024, 1024], true)
    ensures Leads(b, c') && c'.m.Opens? && !c'.m.o.timer && c'.m.o.ep.nextRx == c.m.o.ep.nextRx
    ensures Carries(c'.ms, [2, 3, 4]) && c.sm <= c'.sm
    ensures c'.s.Runs? && c'.s.n.got == 2 && c'.s.n.granted == Grant(2) && c'.s.n.sent == Opened(false)
    ensures c'.s.n.h.link.status.Running?
  {
    c' := SendsRound(b, c, false);
    c' := TakesLater(b, c', 0, [1, 2, 3, 4], [1024, 128, 1024, 1024, 1024]);
    c' := TakesLast(b, c');
  }

  lemma HeedsFour(b: Conn, c: Conn) returns (c': Conn)
    requires Leads(b, c) && c.m.Opens? && !c.m.o.timer && c.m.o.ep.nextRx == 0
    requires |c.sm| >= 5 && c.sm[0].seqG == 0 && c.sm[1].seqG == 1 && c.sm[2].seqG == 2 && c.sm[3].seqG == 3
    ensures Leads(b, c') && c'.s == c.s && c'.ms == c.ms && c'.sm == c.sm[4..]
    ensures c'.m.Opens? && !c'.m.o.timer && c'.m.o.ep.nextRx == 4
  {
    c' := HeedsOne(b, c, 0);
    c' := HeedsOne(b, c', 1);
    c' := HeedsOne(b, c', 2);
    c' := HeedsOne(b, c', 3);
  }

  lemma HeedsFifth(b: Conn, c: Conn) returns (c': Conn)
    requires Leads(b, c) && c.m.Opens? && !c.m.o.timer && c.m.o.ep.nextRx == 4
    requires c.sm != [] && c.sm[0].seqG == 4 && Carries(c.ms, [2, 3, 4])
    ensures Leads(b, c') && c'.s == c.s && Carries(c'.ms, [2, 3, 4, 5])
    ensures c'.m.Runs? && c'.m.n.sent == Opened(true) && c'.m.n.got == 5
  {
    c' := Heeds(b, c, 4);
    assert c'.ms == c.ms + c'.ms[|c.ms|..];
  }

  /** The master hears the slave's round and returns. */
  lemma MasterReturns(b: Conn, c: Conn) returns (c': Conn)
    requires Leads(b, c) && c.m.Opens? && !c.m.o.timer && c.m.o.ep.nextRx == 0
    requires |c.sm| >= 5 && Carries(c.sm[..5], [0, 1, 2, 3, 4]) && Carries(c.ms, [2, 3, 4])
    ensures Leads(b, c') && c'.s == c.s && Carries(c'.ms, [2, 3, 4, 5])
    ensures c'.m.Runs? && c'.m.n.sent == Opened(true) && c'.m.n.got == 5
  {
    assert forall i :: 0 <= i < 5 ==> c.sm[i] == c.sm[..5][i];
    c' := HeedsFour(b, c);
    c' := HeedsFifth(b, c');
  }

  lemma ReceivesOne(b: Conn, c: Conn, k: nat, nums: seq<int>) returns (c': Conn)
    requires Leads(b, c) && c.s.Runs? && c.s.n.h.link.status.Running? && Carries(c.ms, [k] + nums) && c.s.n.got == k < 6
    ensures Leads(b, c') && c'.m == c.m && c'.s.Runs? && c'.s.n.h.link.status.Running? && Carries(c'.ms, nums)
    ensures c'.s.n.got == k + 1 && c'.s.n.sent == c.s.n.sent && c'.s.n.granted == c.s.n.granted
  {
    Tail(c.ms, k, nums);
    c' := Receives(b, c);
  }

  /** RX of the slave takes what is left of the second round as new. */
  lemma TakesAgain(b: Conn, c: Conn) returns (c': Conn)
    requires Leads(b, c) && c.s.Runs? && c.s.n.h.link.status.Running? && Carries(c.ms, [2, 3, 4, 5]) && c.s.n.got == 2
    ensures Leads(b, c') && c'.m == c.m && c'.s.Runs? && c'.s.n.got == 6
    ensures c'.s.n.sent == c.s.n.sent && c'.s.n.granted == c.s.n.granted
  {
    c' := ReceivesOne(b, c, 2, [3, 4, 5]);
    c' := ReceivesOne(b, c', 3, [4, 5]);
    c' := ReceivesOne(b, c', 4, [5]);
    c' := ReceivesOne(b, c', 5, []);
  }

  lemma HoldsGrant(c: Conn, k: nat)
    requires Good(c) && c.m.n.sent == Opened(true) && c.m.n.got == 5 && c.s.n.sent == Opened(false) && c.s.n.got == 6
    requires c.s.n.granted == Grant(k)
    ensures |c.s.n.h.link.credits| == CHANNEL_NUM && c.s.n.h.link.credits[1..] == Grant(k)[1..]
    ensures c.m.n.h.link.nextTx == 6 && c.s.n.h.link.nextRx == 6
  {
    forall i: nat | CHANNEL_A <= i <= CHANNEL_E ensures c.s.n.h.link.credits[i] == Grant(k)[i] {
      UnusedHolds(c.m.n, c.s.n, i);
    }
    MeetsAtSix(c.m.n, c.s.n);
  }

  /**
   A cold start, the loss of one announcement, and nothing else out of the ordinary: both
   sides return and agree on the numbers, but the slave holds 2048 credits on C, D and E.
   */
  lemma LostAnnouncementDoublesCredits(c0: Conn) returns (c: Conn)
    requires Cold(c0)
    ensures Leads(c0, c) && Agreed(c) && c.m.n.h.link.nextTx == 6 && c.s.n.h.link.nextRx == 6
    ensures |c.s.n.h.link.credits| == CHANNEL_NUM && c.s.n.h.link.credits[1..] == [1024, 1024, 2048, 2048, 2048]
  {
    var c1 := Losing(c0, true);
    var c2 := FirstRound(c0, c1);
    var c3 := SecondRound(c0, c2);
    assert c2.sm[..5] == c3.sm[..5];
    var c4 := MasterReturns(c0, c3);
    c := TakesAgain(c0, c4);
    LeadsIsGood(c0, c);
    HoldsGrant(c, 2);
  }

  // ----- A slave left behind -----

  /** The master returns with nothing but its last opening frame on its way. */
  lemma ReturnsAlone(b: Conn, c: Conn) returns (c': Conn)
    requires Leads(b, c) && c.m.Opens? && !c.m.o.timer && c.m.o.ep.nextRx == 0 && c.ms == []
    requires |c.sm| >= 5 && Carries(c.sm[..5], [0, 1, 2, 3, 4])
    ensures Leads(b, c') && c'.s == c.s && c'.m.Runs? && Carries(c'.ms, [5])
  {
    assert forall i :: 0 <= i < 5 ==> c.sm[i] == c.sm[..5][i];
    c' := HeedsFour(b, c);
    c' := Heeds(b, c', 4);
    assert c'.ms == c'.ms[0..];
  }

  /** A flagged slave takes that frame while it lacks a channel. */
  lemma TakesLate(b: Conn, c: Conn) returns (c': Conn)
    requires Leads(b, c) && c.m.Runs? && c.s.Opens? && c.s.o.flag && Carries(c.ms, [5])
    ensures Leads(b, c') && Stuck(c')
  {
    LeadsGoodOrStuck(b, c);
    c' := c;
    if !Stuck(c) {
      LateCanPoll(c);
      c' := After(c, Poll(SideB, true, false));
      Reach(b, c, Poll(SideB, true, false), c');
      MissingLeavesStuck(c, true, false);
    }
  }

  lemma LateCanPoll(c: Conn)
    requires Good(c) && c.s.Opens? && c.s.o.flag && Carries(c.ms, [5])
    ensures CanPoll(SeatOf(c, SideB), true) && Misses(c, true)
  {
    assert FwdOk(c.m.n, c.s.n, c.ms[0], OPENING_LAG);
  }

  /**
   A cold start and the loss of one announcement, the master hearing the slave's round before
   its timer expires: the master returns, and the slave stays in its loop for ever.
   */
  lemma LostAnnouncementLeavesSlave(c0: Conn) returns (c: Conn)
    requires Cold(c0)
    ensures Leads(c0, c) && Stuck(c)
  {
    var c1 := Losing(c0, false);
    var c2 := FirstRound(c0, c1);
    var c3 := ReturnsAlone(c0, c2);
    c := TakesLate(c0, c3);
  }
}
