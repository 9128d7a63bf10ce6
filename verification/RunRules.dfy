/** What TX and the credits do in every state of every run, in bytes and numbers. */
module RunRules {
  import opened Options
  import opened TileLink
  import opened FlowSpec
  import opened LinkSpec
  import opened HostSpec
  import opened World
  import opened Invariant
  import opened TransmitProof
  import opened ReceiveProof
  import opened Theorems
  import opened TxRules

  // ----- When a message is held over -----

  function Bytes(m: Msg): nat {
    8 + |m.payload|
  }

  /** A message can be paid with the credits that cover its bytes. */
  lemma PayableIsBytes(e: Ep, m: Msg)
    requires |e.credits| == CHANNEL_NUM && WellSized(m) && e.credits[m.header.chan] <= 1024
    ensures Payable(e, m) <==> Bytes(m) <= 8 * e.credits[m.header.chan]
  {
    FlitsHoldBytes(m);
  }

  lemma CreditsAtMost(s: Node, r: Node, c: nat)
    requires Conserved(c, s, r) && IsVector(r.h.link.flow)
    ensures s.h.link.credits[c] <= 1024
  {
  }

  /** What TX makes of message m: it leaves when there is room in the window and the credits cover it. */
  predicate LeavesOrWaits(n: Node, n': Node, m: Msg) {
    var e, e', c := n.h.link, n'.h.link, m.header.chan;
    && 1 <= c < |e.credits| && |e.window| <= 4
    && if |e.window| < 4 && Bytes(m) <= 8 * e.credits[c] then
         && n'.h.pending == None && |e'.window| == |e.window| + 1 && e'.window[|e.window|].frame.msgs == [m]
         && e'.credits == e.credits[c := e.credits[c] - Flits(m)]
       else
         n'.h.pending == Some(m) && e'.credits == e.credits
  }

  lemma LeavesFromInv(n: Node, p: Node, now: int, m: Msg)
    requires NodeInv(n) && CreditInv(n, p) && n.granted == Grant(5) && Request(n) == Some(m)
    ensures LeavesOrWaits(n, AfterTransmit(n, now), m)
  {
    ChosenAdmissible(n);
    TransmitLink(n, now);
    ConservedFromInv(n, p, m.header.chan);
    CreditsAtMost(n, p, m.header.chan);
    PayableIsBytes(n.h.link, m);
    TxSendsExactly(n.h.link, Some(m), now);
    LeavesFrom(n, AfterTransmit(n, now), TxStep(n.h.link, Some(m), now), m);
  }

  lemma LeavesFrom(n: Node, n': Node, t: TxOut, m: Msg)
    requires Shape(n.h.link) && CHANNEL_A <= m.header.chan <= CHANNEL_E
    requires Payable(n.h.link, m) <==> Bytes(m) <= 8 * n.h.link.credits[m.header.chan]
    requires SpendsExactly(n.h.link, Some(m), t) && n'.h.link == t.ep && n'.h.pending == t.unsent
    ensures LeavesOrWaits(n, n', m)
  {
  }

  /**
   In every state of every run a message handed to TX is held over exactly if the window is
   full or the message has more bytes than its channel's credits cover; otherwise it is in a
   new frame of the window and its flits are paid.
   */
  lemma HeldOverIff(ws: seq<System>, mvs: seq<Move>, i: nat, now: int, m: Msg)
    requires Reached(ws, mvs, i)
    ensures HostShape(ws[i].a.h) && HostShape(ws[i].b.h)
    ensures Request(ws[i].a) == Some(m) ==> LeavesOrWaits(ws[i].a, AfterTransmit(ws[i].a, now), m)
    ensures Request(ws[i].b) == Some(m) ==> LeavesOrWaits(ws[i].b, AfterTransmit(ws[i].b, now), m)
  {
    ReachedInv(ws, mvs, i);
    if Request(ws[i].a) == Some(m) {
      LeavesFromInv(ws[i].a, ws[i].b, now, m);
    }
    if Request(ws[i].b) == Some(m) {
      LeavesFromInv(ws[i].b, ws[i].a, now, m);
    }
  }

  /** So the last credit of a channel can be spent. */
  lemma LastCreditSpent(ws: seq<System>, mvs: seq<Move>, i: nat, side: Side, now: int, m: Msg)
    requires Reached(ws, mvs, i) && WellSized(m)
    requires var n := At(ws[i], side).n;
             Request(n) == Some(m) && |n.h.link.window| < 4
             && |n.h.link.credits| == CHANNEL_NUM && n.h.link.credits[m.header.chan] == Flits(m)
    ensures HostShape(At(ws[i], side).n.h)
    ensures var n' := AfterTransmit(At(ws[i], side).n, now);
            n'.h.pending == None && |n'.h.link.credits| == CHANNEL_NUM && n'.h.link.credits[m.header.chan] == 0
  {
    HeldOverIff(ws, mvs, i, now, m);
    FlitsHoldBytes(m);
  }

  // ----- What TX sends -----

  /** What TX does at e with request req, sending rules and order. */
  predicate TransmitsExactly(e: Ep, req: Option<Msg>, now: int)
    requires Shape(e) && (req.Some? ==> req.value.header.chan < CHANNEL_NUM)
  {
    var t := TxStep(e, req, now);
    SpendsExactly(e, req, t) && SettlesAcks(e, t.ep, now) && SendsInOrder(e, req, now, t.frames, t.ep.window)
  }

  lemma TransmitsFromInv(n: Node, req: Option<Msg>, now: int)
    requires NodeInv(n) && SentInv(n) && WindowInv(n) && (req.Some? ==> req.value.header.chan < CHANNEL_NUM)
    ensures TransmitsExactly(n.h.link, req, now)
  {
    WindowIsConsecutive(n);
    TxSendsExactly(n.h.link, req, now);
    FlagsExactly(n.h.link, req, now);
    TxOrder(n.h.link, req, Base(n), now);
  }

  /** In every state of every run, whatever message TX is given, it sends what it must, in order, and nothing else. */
  lemma TransmitsInRuns(ws: seq<System>, mvs: seq<Move>, i: nat, req: Option<Msg>, now: int)
    requires Reached(ws, mvs, i) && (req.Some? ==> req.value.header.chan < CHANNEL_NUM)
    ensures Shape(ws[i].a.h.link) && TransmitsExactly(ws[i].a.h.link, req, now)
    ensures Shape(ws[i].b.h.link) && TransmitsExactly(ws[i].b.h.link, req, now)
  {
    ReachedInv(ws, mvs, i);
    TransmitsFromInv(ws[i].a, req, now);
    TransmitsFromInv(ws[i].b, req, now);
  }

  // ----- Credits count bytes -----

  /** Whole flits for the bytes of the messages on channel c. */
  function BytesInFlits(c: nat, ms: seq<Msg>): nat {
    if ms == [] then 0
    else (if ms[0].header.chan == c then (Bytes(ms[0]) + 7) / 8 else 0) + BytesInFlits(c, ms[1..])
  }

  function FramesInFlits(c: nat, fs: seq<Frame>): nat {
    if fs == [] then 0 else BytesInFlits(c, fs[0].msgs) + FramesInFlits(c, fs[1..])
  }

  lemma {:induction false} MsgFlitsAreBytes(c: nat, ms: seq<Msg>)
    requires forall i :: 0 <= i < |ms| ==> WellSized(ms[i])
    ensures MsgFlits(c, ms) == BytesInFlits(c, ms)
  {
    if ms != [] {
      FlitsHoldBytes(ms[0]);
      MsgFlitsAreBytes(c, ms[1..]);
    }
  }

  lemma {:induction false} FrameFlitsAreBytes(c: nat, fs: seq<Frame>)
    requires forall i :: 0 <= i < |fs| ==> FrameOk(fs[i])
    ensures FrameFlits(c, fs) == FramesInFlits(c, fs)
  {
    if fs != [] {
      MsgFlitsAreBytes(c, fs[0].msgs);
      FrameFlitsAreBytes(c, fs[1..]);
    }
  }

  /** Credits held, bytes framed or delivered but not consumed in whole flits, credit to return or on its way. */
  predicate BytesConserved(c: nat, s: Node, r: Node) {
    && |s.h.link.credits| == |r.h.link.flow| == CHANNEL_NUM && c < CHANNEL_NUM
    && s.h.link.credits[c] + FramesInFlits(c, Unaccepted(s, r)) + BytesInFlits(c, r.h.link.inbox)
       + r.h.link.flow[c] + FrameCredit(c, Unaccepted(r, s)) == 1024
  }

  lemma BytesFromInv(s: Node, r: Node, c: nat)
    requires Conserved(c, s, r) && SentInv(s) && NodeInv(r)
    ensures BytesConserved(c, s, r)
  {
    FrameFlitsAreBytes(c, Unaccepted(s, r));
    MsgFlitsAreBytes(c, r.h.link.inbox);
  }

  /** The 1024 credits of a channel stand for the bytes of its messages, eight to a credit. */
  lemma CreditsCountBytes(ws: seq<System>, mvs: seq<Move>, i: nat, c: nat)
    requires Reached(ws, mvs, i) && CHANNEL_A <= c <= CHANNEL_E
    ensures BytesConserved(c, ws[i].a, ws[i].b) && BytesConserved(c, ws[i].b, ws[i].a)
  {
    ReachedInv(ws, mvs, i);
    CreditsAreConserved(ws, mvs, i, c);
    BytesFromInv(ws[i].a, ws[i].b, c);
    BytesFromInv(ws[i].b, ws[i].a, c);
  }
}
