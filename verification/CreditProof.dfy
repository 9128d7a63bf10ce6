/** Credits are conserved by every step, so the inbox cannot overflow. */
module CreditProof {
  import opened Options
  import opened Bits
  import opened TileLink
  import opened FlowSpec
  import opened LinkSpec
  import opened HostSpec
  import opened World
  import opened Invariant
  import opened LinkFacts
  import opened TransmitProof
  import opened ReceiveProof

  // ----- Sums -----

  lemma {:induction false} MsgFlitsConcat(c: nat, a: seq<Msg>, b: seq<Msg>)
    ensures MsgFlits(c, a + b) == MsgFlits(c, a) + MsgFlits(c, b)
  {
    if a == [] {
      assert a + b == b;
    } else {
      MsgFlitsConcat(c, a[1..], b);
      assert (a + b)[1..] == a[1..] + b;
    }
  }

  lemma {:induction false} FrameSumsSnoc(c: nat, fs: seq<Frame>, f: Frame)
    ensures FrameFlits(c, fs + [f]) == FrameFlits(c, fs) + MsgFlits(c, f.msgs)
    ensures FrameCredit(c, fs + [f]) == FrameCredit(c, fs) + CarriedCredit(c, f)
  {
    if fs == [] {
      assert fs + [f] == [f];
    } else {
      FrameSumsSnoc(c, fs[1..], f);
      assert (fs + [f])[1..] == fs[1..] + [f];
    }
  }

  // ----- TX -----

  /** The message f carries is paid for, and the credit it carries is taken out of the returns. */
  predicate PaysFor(e: Ep, e': Ep, built: bool, f: Frame) {
    && |e.credits| == |e.flow| == CHANNEL_NUM
    && (if built then
          && f.chan < CHANNEL_NUM
          && (|f.msgs| == 0 || (|f.msgs| == 1 && f.msgs[0].header.chan < CHANNEL_NUM && CanPay(e.credits, f.msgs[0])))
          && e'.credits == (if f.msgs == [] then e.credits else Pay(e.credits, f.msgs[0]))
          && (f.chan == 0 || Pow2(f.credit) <= e.flow[f.chan])
          && e'.flow == (if f.chan == 0 then e.flow else e.flow[f.chan := e.flow[f.chan] - Pow2(f.credit)])
        else e'.credits == e.credits && e'.flow == e.flow)
  }

  /** The credit side of a transmit step. */
  predicate Spends(n: Node, n': Node, built: bool, f: Frame) {
    var e, e' := n.h.link, n'.h.link;
    && n'.got == n.got && n'.granted == n.granted && e'.inbox == e.inbox
    && IsVector(e.credits) && IsVector(e.flow)
    && n'.sent == (if built then n.sent + [f] else n.sent)
    && PaysFor(e, e', built, f)
  }

  lemma SendNormalCredits(e: Ep, req: Option<Msg>, now: int)
    requires IsVector(e.credits) && IsVector(e.flow)
    requires req.Some? ==> req.value.header.chan < CHANNEL_NUM
    ensures var s, f := SendNormal(e, req, now), NormalFrame(e, req);
            && PaysFor(e, s.ep, BuildsFrame(e, req), f)
            && (if BuildsFrame(e, req) && f.msgs != [] then req == Some(f.msgs[0]) && s.unsent == None
                else s.unsent == req)
  {
    SelectedChannelHasCredit(e.flow);
  }

  /** The same of the whole of TX. */
  lemma TxPays(e: Ep, req: Option<Msg>, now: int)
    requires IsVector(e.credits) && IsVector(e.flow)
    requires req.Some? ==> req.value.header.chan < CHANNEL_NUM
    ensures PaysFor(e, TxStep(e, req, now).ep, BuildsFrame(e, req), NormalFrame(e, req))
  {
    TxEffect(e, req, now);
    SendNormalCredits(e, req, now);
  }

  lemma TransmitSpends(n: Node, now: int)
    requires HostShape(n.h) && |n.parked| == |n.h.link.ackBuf|
    requires Request(n).Some? ==> WellSized(Request(n).value)
    ensures Spends(n, AfterTransmit(n, now), BuildsFrame(n.h.link, Request(n)), NormalFrame(n.h.link, Request(n)))
  {
    TransmitEffect(n, now);
    TransmitLink(n, now);
    TxPays(n.h.link, Request(n), now);
    SpendsFromParts(n, AfterTransmit(n, now), BuildsFrame(n.h.link, Request(n)), NormalFrame(n.h.link, Request(n)));
  }

  lemma SpendsFromParts(n: Node, n': Node, built: bool, f: Frame)
    requires Sends(n, n', built, f) && PaysFor(n.h.link, n'.h.link, built, f)
    requires IsVector(n.h.link.credits) && IsVector(n.h.link.flow)
    ensures Spends(n, n', built, f)
  {
  }

  lemma SpendsKeepsVectors(n: Node, n': Node, built: bool, f: Frame)
    requires Spends(n, n', built, f)
    ensures IsVector(n'.h.link.credits) && IsVector(n'.h.link.flow)
  {
  }

  /** What n sends, it pays for; what it returns leaves its own account. */
  lemma SpendsConserves(n: Node, n': Node, built: bool, f: Frame, p: Node, c: nat)
    requires Spends(n, n', built, f)
    requires IsVector(p.h.link.credits) && IsVector(p.h.link.flow)
    requires p.got <= |n.sent| && CHANNEL_A <= c <= CHANNEL_E
    ensures |n'.h.link.credits| == |n'.h.link.flow| == CHANNEL_NUM
    ensures CreditTotal(c, n', p) == CreditTotal(c, n, p)
    ensures CreditTotal(c, p, n') == CreditTotal(c, p, n)
  {
    if built {
      assert Unaccepted(n', p) == Unaccepted(n, p) + [f];
      FrameSumsSnoc(c, Unaccepted(n, p), f);
      if f.msgs != [] {
        assert f.msgs == [f.msgs[0]];
        assert MsgFlits(c, f.msgs) == (if f.msgs[0].header.chan == c then Flits(f.msgs[0]) else 0);
      }
      assert Unaccepted(p, n') == Unaccepted(p, n);
    }
  }

  lemma SpendsKeepsCredit(n: Node, n': Node, built: bool, f: Frame, p: Node)
    requires Spends(n, n', built, f)
    requires p.got <= |n.sent| && CreditInv(n, p) && CreditInv(p, n)
    ensures CreditInv(n', p) && CreditInv(p, n')
  {
    SpendsKeepsVectors(n, n', built, f);
    forall c: nat | CHANNEL_A <= c <= CHANNEL_E
      ensures CreditTotal(c, n', p) == n.granted[c] && CreditTotal(c, p, n') == p.granted[c]
    {
      SpendsConserves(n, n', built, f, p, c);
    }
  }

  // ----- RX -----

  /** An accepted frame moves its flits into the inbox and its credit to the receiver. */
  lemma AcceptedConserves(n: Node, n': Node, fl: Flight, p: Node, c: nat)
    requires Hears(n, n', fl, Accepted)
    requires n.got < |p.sent| && SameButAck(fl.frame, p.sent[n.got]) && p.got <= |n.sent|
    requires IsVector(n.h.link.credits) && IsVector(n.h.link.flow)
    requires IsVector(p.h.link.credits) && IsVector(p.h.link.flow)
    requires CHANNEL_A <= c <= CHANNEL_E
    requires GrantFits(n.granted) && GrantFits(p.granted)
    requires CreditTotal(c, n, p) == n.granted[c] && CreditTotal(c, p, n) == p.granted[c]
    ensures CreditTotal(c, n', p) == n.granted[c] && CreditTotal(c, p, n') == p.granted[c]
  {
    var u, f := Unaccepted(p, n), fl.frame;
    assert u[0] == p.sent[n.got] && u[1..] == Unaccepted(p, n');
    MsgFlitsConcat(c, n.h.link.inbox, f.msgs);
    assert Unaccepted(n', p) == Unaccepted(n, p);
    if f.chan == c {
      assert n.h.link.credits[c] + Pow2(f.credit) <= 2048;
    }
  }

  lemma HearsKeepsCredit(n: Node, n': Node, fl: Flight, o: Outcome, p: Node)
    requires Hears(n, n', fl, o)
    requires o == Accepted ==> n.got < |p.sent| && SameButAck(fl.frame, p.sent[n.got])
    requires p.got <= |n.sent| && CreditInv(n, p) && CreditInv(p, n)
    ensures CreditInv(n', p) && CreditInv(p, n')
  {
    forall c: nat | CHANNEL_A <= c <= CHANNEL_E
      ensures CreditTotal(c, n', p) == n.granted[c] && CreditTotal(c, p, n') == p.granted[c]
    {
      assert CreditTotal(c, n, p) == n.granted[c] && CreditTotal(c, p, n) == p.granted[c];
      if o == Accepted {
        AcceptedConserves(n, n', fl, p, c);
      } else {
        assert Unaccepted(n', p) == Unaccepted(n, p) && Unaccepted(p, n') == Unaccepted(p, n);
      }
    }
  }

  // ----- Handler -----

  /** The credit side of a serve step that consumed a message. */
  predicate Returns(n: Node, n': Node, m: Msg) {
    var e, e' := n.h.link, n'.h.link;
    && IsVector(e.flow) && 0 <= m.header.chan < CHANNEL_NUM
    && e.inbox != [] && m == e.inbox[0]
    && n'.got == n.got && n'.sent == n.sent && n'.granted == n.granted && e'.credits == e.credits
    && e'.inbox == e.inbox[1..] && e'.flow == AddFlow(e.flow, m.header.chan, Flits(m))
  }

  lemma ReturnsConserves(n: Node, n': Node, m: Msg, p: Node, c: nat)
    requires Returns(n, n', m)
    requires IsVector(n.h.link.credits) && IsVector(p.h.link.credits) && IsVector(p.h.link.flow)
    requires CHANNEL_A <= c <= CHANNEL_E
    requires GrantFits(p.granted) && CreditTotal(c, p, n) == p.granted[c]
    ensures CreditTotal(c, n', p) == CreditTotal(c, n, p)
    ensures CreditTotal(c, p, n') == p.granted[c]
  {
    assert Unaccepted(n', p) == Unaccepted(n, p) && Unaccepted(p, n') == Unaccepted(p, n);
    if m.header.chan == c {
      assert n.h.link.flow[c] + Flits(m) <= 2048;
    }
  }

  lemma ReturnsKeepsCredit(n: Node, n': Node, m: Msg, p: Node)
    requires Returns(n, n', m) && CreditInv(n, p) && CreditInv(p, n)
    ensures CreditInv(n', p) && CreditInv(p, n')
  {
    forall c: nat | CHANNEL_A <= c <= CHANNEL_E
      ensures CreditTotal(c, n', p) == n.granted[c] && CreditTotal(c, p, n') == p.granted[c]
    {
      ReturnsConserves(n, n', m, p, c);
    }
  }

  // ----- No overflow -----

  lemma {:induction false} EveryMessageHasAFlit(ms: seq<Msg>)
    requires AllWellSized(ms)
    ensures |ms| <= MsgFlits(1, ms) + MsgFlits(2, ms) + MsgFlits(3, ms) + MsgFlits(4, ms) + MsgFlits(5, ms)
  {
    if ms != [] {
      assert AllWellSized(ms[1..]);
      EveryMessageHasAFlit(ms[1..]);
      FlitsPositive(ms[0]);
    }
  }

  /** The receiver never holds more messages than the sender was granted credits. */
  lemma InboxBounded(n: Node, p: Node)
    requires CreditInv(p, n) && AllWellSized(n.h.link.inbox)
    ensures var g := p.granted;
            |n.h.link.inbox| <= g[1] + g[2] + g[3] + g[4] + g[5]
  {
    var g := p.granted;
    EveryMessageHasAFlit(n.h.link.inbox);
    assert CreditTotal(1, p, n) == g[1] && CreditTotal(2, p, n) == g[2] && CreditTotal(3, p, n) == g[3];
    assert CreditTotal(4, p, n) == g[4] && CreditTotal(5, p, n) == g[5];
  }
}
