/** The invariant of a connection that is opening, and what sending and returning do to it. */
module ConnectInv {
  import opened Options
  import opened Bits
  import opened SeqNum
  import opened TileLink
  import opened FlowSpec
  import opened LinkSpec
  import opened HostSpec
  import opened World
  import opened Invariant
  import opened TransmitProof
  import opened ReceiveProof
  import opened CreditProof
  import opened Handshake
  import opened HandshakeFacts
  import opened Connect

  /** Four frames of a window and six opening frames. */
  const OPENING_LAG: int := 10

  /** n's history begins with its opening frames. */
  predicate Rooted(n: Node, master: bool) {
    && Opened(master) <= n.sent
    && n.open == |Opened(master)| && n.peerOpen == |Opened(!master)| && n.txOff == 0 && n.rxOff == 0
  }

  /** n as it was while its side was opening, or when it returned. */
  predicate Fresh(n: Node, master: bool) {
    && Rooted(n, master) && n.sent == Opened(master) && n.got <= 5
    && n.h.link.window == []
  }

  // ----- Sending opening frames -----

  lemma OpeningFlight(n: Node, master: bool, p: Node, f: Frame)
    requires Fresh(n, master) && OpeningOk(f, master) && Meets(n, p)
    ensures var fl := Tag(f, |Opened(master)|, |Opened(!master)|);
            && FwdOk(n, p, fl, OPENING_LAG)
            && fl.seqG == f.seqNum
  {
    var tx := |Opened(master)|;
    UnwrapExact(f.seqNum, tx);
    if f.ftype != TYPE_ACKONLY {
      OpenedAt(master, f.seqNum);
    }
  }

  lemma OpeningAck(n: Node, master: bool, p: Node, f: Frame)
    requires Fresh(n, master) && OpeningOk(f, master) && Meets(p, n)
    ensures BwdOk(p, n, Tag(f, |Opened(master)|, |Opened(!master)|))
  {
    var g := if f.seqAck == MAX_SEQ_NUM then -1 else f.seqAck;
    UnwrapExact(g, |Opened(!master)| - 1);
    if f.ftype != TYPE_ACKONLY {
      OpenedAt(master, f.seqNum);
    }
  }

  /** A side in its opening loop sends frames the invariant allows. */
  lemma OpeningsKeepInv(n: Node, master: bool, p: Node, inc: seq<Flight>, out: seq<Flight>, fs: seq<Frame>)
    requires Inv(n, p, inc, out, OPENING_LAG) && Fresh(n, master) && AllOpeningOk(fs, master)
    ensures Inv(n, p, inc, out + TagAll(fs, |Opened(master)|, |Opened(!master)|), OPENING_LAG)
  {
    var more := TagAll(fs, |Opened(master)|, |Opened(!master)|);
    forall i | 0 <= i < |more|
      ensures FwdOk(n, p, more[i], OPENING_LAG) && more[i].txSnap == GTx(n)
      ensures BwdOk(p, n, more[i]) && more[i].rxSnap == Seen(n)
    {
      OpeningFlight(n, master, p, fs[i]);
      OpeningAck(n, master, p, fs[i]);
    }
    FwdAppend(n, p, out, more, OPENING_LAG);
    BwdAppend(p, n, out, more);
  }

  // ----- Credit of the opening frames -----

  lemma {:induction false} FrameSumsConcat(c: nat, a: seq<Frame>, b: seq<Frame>)
    ensures FrameFlits(c, a + b) == FrameFlits(c, a) + FrameFlits(c, b)
    ensures FrameCredit(c, a + b) == FrameCredit(c, a) + FrameCredit(c, b)
  {
    if a == [] {
      assert a + b == b;
    } else {
      FrameSumsConcat(c, a[1..], b);
      assert (a + b)[1..] == a[1..] + b;
    }
  }

  /** The first k opening frames announce 1024 credits on each of the first k channels. */
  lemma {:induction false} OpenedSums(master: bool, c: nat, k: nat)
    requires k <= |Opened(master)| && CHANNEL_A <= c <= CHANNEL_E
    ensures FrameFlits(c, Opened(master)[..k]) == 0
    ensures FrameCredit(c, Opened(master)[..k]) == if c <= k then 1024 else 0
  {
    if k > 0 {
      OpenedSums(master, c, k - 1);
      OpenedAt(master, k - 1);
      assert Opened(master)[..k] == Opened(master)[..k - 1] + [Opened(master)[k - 1]];
      FrameSumsSnoc(c, Opened(master)[..k - 1], Opened(master)[k - 1]);
      Pow2Values();
    }
  }

  /** The first k frames of p announce 1024 credits on channels 1 to k and carry no message. */
  predicate Announces(p: Node, k: nat, c: nat) {
    && k <= |p.sent|
    && FrameFlits(c, p.sent) == FrameFlits(c, p.sent[k..])
    && FrameCredit(c, p.sent) == FrameCredit(c, p.sent[k..]) + if c <= k then 1024 else 0
  }

  lemma RootedAnnounces(p: Node, master: bool, k: nat, c: nat)
    requires Rooted(p, master) && k <= 5 && CHANNEL_A <= c <= CHANNEL_E
    ensures Announces(p, k, c)
  {
    assert p.sent[..k] == Opened(master)[..k];
    assert p.sent == p.sent[..k] + p.sent[k..];
    FrameSumsConcat(c, p.sent[..k], p.sent[k..]);
    OpenedSums(master, c, k);
  }

  lemma {:induction false} NoMessages(fs: seq<Frame>)
    requires forall i :: 0 <= i < |fs| ==> fs[i].msgs == []
    ensures Flatten(fs) == []
  {
    if fs != [] {
      NoMessages(fs[..|fs| - 1]);
    }
  }

  lemma OpenedCarryNothing(p: Node, master: bool, k: nat)
    requires Rooted(p, master) && k <= |Opened(master)|
    ensures k <= |p.sent| && Flatten(p.sent[..k]) == []
  {
    forall i | 0 <= i < k ensures p.sent[..k][i].msgs == [] {
      OpenedAt(master, i);
      assert p.sent[i] == Opened(master)[i];
    }
    NoMessages(p.sent[..k]);
  }

  // ----- Returning -----

  /** Nothing in the buffers and nothing in the histories but opening frames. */
  predicate Untouched(n: Node) {
    && HostShape(n.h) && n.h.link.status.Running?
    && n.h.link.inbox == [] && n.h.link.ackBuf == [] && n.h.link.flow == [0, 0, 0, 0, 0, 0]
    && n.h.msgBuf == [] && n.h.respBuf == [] && n.h.pending == None && n.h.stats.dropResponse == 0
    && n.parked == [] && n.delivered == [] && n.handled == [] && n.taken == []
  }

  lemma UntouchedNode(n: Node, master: bool)
    requires Untouched(n) && Fresh(n, master)
    ensures NodeInv(n)
  {
    OpenedCarryNothing(n, master, |n.sent|);
    assert n.sent[..|n.sent|] == n.sent && Held(n) == [];
  }

  lemma EnteredNode(e: Ep, master: bool)
    requires ReturnsWith(e, master)
    ensures var n := Entered(e, master);
            Fresh(n, master) && Untouched(n)
  {
  }

  /** Nothing accepted, nothing sent but the opening frames, no credits yet. */
  predicate IsAbsent(b: Node, master: bool) {
    && Fresh(b, master) && b.got == 0 && b.h.link.nextTx == |Opened(master)|
    && b.h.link.inbox == [] && b.h.link.flow == [0, 0, 0, 0, 0, 0]
    && IsVector(b.h.link.credits) && b.granted == Grant(5)
    && forall c :: CHANNEL_A <= c <= CHANNEL_E ==> b.h.link.credits[c] == 0
  }

  /** n has returned where b was absent: it has taken k opening frames and holds 1024 credits. */
  predicate Replaces(n: Node, b: Node, k: nat) {
    && n.sent == b.sent && n.txOff == b.txOff == 0 && n.rxOff == b.rxOff == 0
    && n.open == b.open && n.peerOpen == b.peerOpen && 5 <= n.peerOpen
    && n.h.link.window == b.h.link.window == []
    && b.got == 0 && n.got == k && 1 <= k <= 5
    && n.h.link.nextRx == k && b.h.link.nextTx == n.h.link.nextTx
    && n.parked == [] && n.h.link.ackBuf == [] && n.delivered == []
    && n.h.link.inbox == b.h.link.inbox == []
    && IsVector(n.h.link.credits) && IsVector(b.h.link.credits) && IsVector(n.h.link.flow)
    && n.h.link.flow == b.h.link.flow
    && n.granted == Grant(k) && b.granted == Grant(5)
    && forall c :: CHANNEL_A <= c <= CHANNEL_E ==> n.h.link.credits[c] == 1024 && b.h.link.credits[c] == 0
  }

  lemma EnteredReplaces(e: Ep, b: Node, master: bool)
    requires ReturnsWith(e, master) && IsAbsent(b, master)
    ensures Replaces(Entered(e, master), b, e.nextRx)
  {
  }

  lemma ReplaceConserves(n: Node, b: Node, k: nat, p: Node, c: nat)
    requires Replaces(n, b, k) && CHANNEL_A <= c <= CHANNEL_E && Announces(p, k, c)
    requires CreditInv(b, p) && CreditInv(p, b)
    ensures CreditTotal(c, n, p) == n.granted[c] && CreditTotal(c, p, n) == p.granted[c]
  {
    assert CreditTotal(c, b, p) == b.granted[c] && CreditTotal(c, p, b) == p.granted[c];
    assert Unaccepted(n, p) == Unaccepted(b, p);
    assert Unaccepted(p, b) == p.sent && Unaccepted(p, n) == p.sent[k..];
  }

  lemma ReplaceCredit(n: Node, b: Node, k: nat, p: Node)
    requires Replaces(n, b, k)
    requires forall c: nat :: CHANNEL_A <= c <= CHANNEL_E ==> Announces(p, k, c)
    requires CreditInv(b, p) && CreditInv(p, b)
    ensures CreditInv(n, p) && CreditInv(p, n)
  {
    forall c: nat | CHANNEL_A <= c <= CHANNEL_E
      ensures CreditTotal(c, n, p) == n.granted[c] && CreditTotal(c, p, n) == p.granted[c]
    {
      ReplaceConserves(n, b, k, p, c);
    }
  }

  lemma ReplaceForward(n: Node, b: Node, k: nat, p: Node, inc: seq<Flight>, out: seq<Flight>)
    requires Replaces(n, b, k) && Dir(b, p, out, inc, OPENING_LAG)
    ensures Dir(n, p, out, inc, OPENING_LAG)
  {
    FwdStable(b, n, p, out, OPENING_LAG);
    forall i | 0 <= i < |inc| ensures BwdOk(n, p, inc[i]) {
      assert BwdOk(b, p, inc[i]);
    }
  }

  lemma ReplaceHears(n: Node, b: Node, k: nat, p: Node, inc: seq<Flight>)
    requires Replaces(n, b, k) && p.txOff == 0 && 5 <= p.open && FwdInv(p, b, inc, OPENING_LAG)
    ensures FwdInv(p, n, inc, OPENING_LAG)
  {
    forall i | 0 <= i < |inc| ensures FwdOk(p, n, inc[i], OPENING_LAG) {
      assert FwdOk(p, b, inc[i], OPENING_LAG);
    }
  }

  lemma ReplaceBackward(n: Node, b: Node, k: nat, p: Node, inc: seq<Flight>, out: seq<Flight>)
    requires Replaces(n, b, k) && p.txOff == 0 && 5 <= p.open
    requires k <= |p.sent| && Flatten(p.sent[..k]) == []
    requires Dir(p, b, inc, out, OPENING_LAG)
    ensures Dir(p, n, inc, out, OPENING_LAG)
  {
    ReplaceHears(n, b, k, p, inc);
    BwdStable(p, b, n, out);
  }

  lemma ReplaceKeepsInv(n: Node, b: Node, k: nat, p: Node, inc: seq<Flight>, out: seq<Flight>)
    requires Inv(b, p, inc, out, OPENING_LAG) && Replaces(n, b, k) && NodeInv(n)
    requires p.txOff == 0 && 5 <= p.open && k <= |p.sent| && Flatten(p.sent[..k]) == []
    requires forall c: nat :: CHANNEL_A <= c <= CHANNEL_E ==> Announces(p, k, c)
    ensures Inv(n, p, inc, out, OPENING_LAG)
  {
    ReplaceForward(n, b, k, p, inc, out);
    ReplaceBackward(n, b, k, p, inc, out);
    ReplaceCredit(n, b, k, p);
  }

  lemma PeerAnnounces(p: Node, master: bool, k: nat)
    requires Rooted(p, master) && k <= 5
    ensures p.txOff == 0 && 5 <= p.open && k <= |p.sent| && Flatten(p.sent[..k]) == []
    ensures forall c: nat :: CHANNEL_A <= c <= CHANNEL_E ==> Announces(p, k, c)
  {
    OpenedCarryNothing(p, master, k);
    forall c: nat | CHANNEL_A <= c <= CHANNEL_E ensures Announces(p, k, c) {
      RootedAnnounces(p, master, k, c);
    }
  }

  /** A side that returns takes the place of the absent one. */
  lemma ReturnKeepsInv(e: Ep, b: Node, master: bool, p: Node, inc: seq<Flight>, out: seq<Flight>)
    requires Inv(b, p, inc, out, OPENING_LAG) && IsAbsent(b, master)
    requires ReturnsWith(e, master) && Rooted(p, !master)
    ensures Inv(Entered(e, master), p, inc, out, OPENING_LAG) && Fresh(Entered(e, master), master)
  {
    EnteredNode(e, master);
    UntouchedNode(Entered(e, master), master);
    EnteredReplaces(e, b, master);
    PeerAnnounces(p, !master, e.nextRx);
    ReplaceKeepsInv(Entered(e, master), b, e.nextRx, p, inc, out);
  }

  lemma HeadKeepsChannel(s: Node, r: Node, c: seq<Flight>)
    requires c != []
    ensures FwdInv(s, r, c, OPENING_LAG) ==> FwdInv(s, r, c[1..], OPENING_LAG)
    ensures BwdInv(s, r, c) ==> BwdInv(s, r, c[1..])
  {
    LossKeepsChannel(s, r, c, 0, OPENING_LAG);
    assert c[..0] + c[1..] == c[1..];
  }

  lemma HeadTaken(n: Node, p: Node, inc: seq<Flight>, out: seq<Flight>)
    requires Inv(n, p, inc, out, OPENING_LAG) && inc != []
    ensures Inv(n, p, inc[1..], out, OPENING_LAG)
  {
    HeadKeepsChannel(p, n, inc);
    HeadKeepsChannel(n, p, inc);
  }

  function Rest(inc: seq<Flight>, recv: bool): seq<Flight>
    requires recv ==> inc != []
  {
    if recv then inc[1..] else inc
  }

  /** A turn of an opening loop: frames sent, one perhaps taken. */
  lemma TurnKeepsInv(b: Node, master: bool, p: Node, inc: seq<Flight>, out: seq<Flight>, fs: seq<Frame>, recv: bool)
    requires Inv(b, p, inc, out, OPENING_LAG) && IsAbsent(b, master)
    requires AllOpeningOk(fs, master) && (recv ==> inc != [])
    ensures Inv(b, p, Rest(inc, recv), out + TagAll(fs, |Opened(master)|, |Opened(!master)|), OPENING_LAG)
  {
    OpeningsKeepInv(b, master, p, inc, out, fs);
    if recv {
      HeadTaken(b, p, inc, out + TagAll(fs, |Opened(master)|, |Opened(!master)|));
    }
  }

  /** The numbers in opening frames need no unwrapping. */
  lemma OpeningTag(f: Frame, master: bool)
    requires OpeningOk(f, master)
    ensures Tag(f, |Opened(master)|, |Opened(!master)|).seqG == f.seqNum <= 5
  {
    UnwrapExact(f.seqNum, |Opened(master)|);
    if f.ftype != TYPE_ACKONLY {
      OpenedAt(master, f.seqNum);
    }
  }

  // ----- The invariant -----

  /** After the first frame that is not one of the master's announcements there are no more. */
  predicate Ordered(ms: seq<Flight>) {
    forall i, j :: 0 <= i < j < |ms| && ms[i].seqG >= 5 ==> ms[j].seqG >= 6
  }

  predicate GoodMaster(c: Conn) {
    if c.m.Opens? then
      && MasterOpens(c.m.o) && IsAbsent(c.m.n, true) && c.s.n.got <= 5
      && forall i :: 0 <= i < |c.ms| ==> c.ms[i].seqG < 5
    else c.m.n.got >= 5 && c.m.n.granted == Grant(5)
  }

  predicate GoodSlave(c: Conn) {
    if c.s.Opens? then SlaveOpens(c.s.o) && IsAbsent(c.s.n, false)
    else forall i :: 0 <= i < |c.ms| && c.ms[i].seqG == 5 ==> c.s.n.got <= 5
  }

  predicate Phases(c: Conn) {
    GoodMaster(c) && GoodSlave(c) && Ordered(c.ms)
  }

  /** As good as the steady state: an opening side is one that has accepted nothing yet. */
  predicate Good(c: Conn) {
    && SystemInv(SystemOf(c), OPENING_LAG)
    && Rooted(c.m.n, true) && Rooted(c.s.n, false)
    && Phases(c)
  }

  /** A master with nothing to return. */
  predicate Mute(n: Node) {
    && n.h.link.inbox == [] && n.h.link.flow == [0, 0, 0, 0, 0, 0]
    && forall k :: 0 <= k < |n.h.link.window| ==> n.h.link.window[k].frame.chan == 0
  }

  /** The slave still lacks a channel, and the master has returned and will not announce it again. */
  predicate Stuck(c: Conn) {
    && c.m.Runs? && Mute(c.m.n)
    && c.s.Opens? && Openable(c.s.o.ep) && !AllChannelsFilled(c.s.o.ep.credits)
    && (forall i :: 0 <= i < |c.ms| ==> c.ms[i].frame.chan == 0)
    && (forall i :: 0 <= i < |c.sm| ==> c.sm[i].frame.msgs == [] && c.sm[i].frame.ack == TLOE_ACK)
  }

  // ----- The start -----

  lemma AbsentIsAbsent(master: bool)
    ensures var b := Absent(master);
            IsAbsent(b, master) && Untouched(b) && b.h.link.nextRx == 0
  {
  }

  lemma AbsentSent(b: Node, master: bool)
    requires IsAbsent(b, master)
    ensures SentInv(b)
  {
    forall i | 0 <= i < |b.sent| ensures FrameOk(b.sent[i]) && b.sent[i].seqNum == (b.txOff + i) % SEQ_MOD {
      OpenedAt(master, i);
    }
  }

  lemma OpenedRest(master: bool, c: nat)
    requires CHANNEL_A <= c <= CHANNEL_E
    ensures FrameFlits(c, Opened(master)[5..]) == 0 && FrameCredit(c, Opened(master)[5..]) == 0
  {
    if master {
      assert Opened(master)[5..] == [LastOpening()];
    }
  }

  lemma AbsentChannel(s: Node, r: Node, master: bool, c: nat)
    requires IsAbsent(s, master) && IsAbsent(r, !master) && CHANNEL_A <= c <= CHANNEL_E
    ensures CreditTotal(c, s, r) == 1024
  {
    RootedAnnounces(s, master, 5, c);
    RootedAnnounces(r, !master, 5, c);
    OpenedRest(master, c);
    OpenedRest(!master, c);
    assert Unaccepted(s, r) == s.sent && Unaccepted(r, s) == r.sent;
  }

  lemma AbsentCredit(s: Node, r: Node, master: bool)
    requires IsAbsent(s, master) && IsAbsent(r, !master)
    ensures CreditInv(s, r)
  {
    forall c: nat | CHANNEL_A <= c <= CHANNEL_E ensures CreditTotal(c, s, r) == s.granted[c] {
      AbsentChannel(s, r, master, c);
    }
  }

  lemma AbsentDir(s: Node, r: Node, master: bool)
    requires IsAbsent(s, master) && IsAbsent(r, !master)
    requires Untouched(r) && r.h.link.nextRx == 0
    ensures Dir(s, r, [], [], OPENING_LAG)
  {
    AbsentSent(s, master);
    assert Flatten(s.sent[..0]) == [];
  }

  lemma ColdSlave(o: Opening)
    requires IsInitial(o)
    ensures SlaveOpens(o)
  {
    assert OnlyFilled(o.ep.credits, 0);
    OneIsNotAll(o.ep.credits, 0);
  }

  lemma ColdSystem(m: Node, s: Node)
    requires IsAbsent(m, true) && Untouched(m) && m.h.link.nextRx == 0
    requires IsAbsent(s, false) && Untouched(s) && s.h.link.nextRx == 0
    ensures Inv(m, s, [], [], OPENING_LAG)
  {
    UntouchedNode(m, true);
    UntouchedNode(s, false);
    AbsentCredit(m, s, true);
    AbsentCredit(s, m, false);
    AbsentDir(m, s, true);
    AbsentDir(s, m, false);
  }

  lemma ColdIsGood(c: Conn)
    requires Cold(c)
    ensures Good(c)
  {
    AbsentIsAbsent(true);
    AbsentIsAbsent(false);
    ColdSystem(c.m.n, c.s.n);
    ColdSlave(c.s.o);
  }
}
