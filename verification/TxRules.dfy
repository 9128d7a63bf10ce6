/** When TX sends and what, for every endpoint and every request, in the numbers the endpoint holds. */
module TxRules {
  import opened Options
  import opened Bits
  import opened SeqNum
  import opened TileLink
  import opened FlowSpec
  import opened LinkSpec
  import opened LinkFacts

  /** Enough credits on a channel other than 0; a balance of 2^32 - 1 reads as an error. */
  predicate Payable(e: Ep, m: Msg)
    requires |e.credits| == CHANNEL_NUM && m.header.chan < CHANNEL_NUM
  {
    m.header.chan != 0 && Flits(m) <= e.credits[m.header.chan] < 0xFFFF_FFFF
  }

  /** Some channel has more to return than channel 0, which never has anything. */
  predicate HasReturn(flow: seq<int>) {
    exists c :: 1 <= c < |flow| && flow[c] > flow[0]
  }

  /** Room in the window, and a request that can be paid, an ack, or credit to send. */
  predicate MustSend(e: Ep, req: Option<Msg>)
    requires |e.credits| == CHANNEL_NUM
    requires req.Some? ==> req.value.header.chan < CHANNEL_NUM
  {
    && |e.window| < 4
    && ((req.Some? && Payable(e, req.value)) || e.ackBuf != [] || (req.None? && HasReturn(e.flow)))
  }

  predicate GoesOut(e: Ep, req: Option<Msg>)
    requires |e.credits| == CHANNEL_NUM
    requires req.Some? ==> req.value.header.chan < CHANNEL_NUM
  {
    |e.window| < 4 && req.Some? && Payable(e, req.value)
  }

  /** f returns the largest power of two that the fullest channel holds. */
  predicate ReturnsCredit(flow: seq<int>, flow': seq<int>, f: Frame)
    requires |flow| == CHANNEL_NUM
  {
    if HasReturn(flow) then
      && 1 <= f.chan < CHANNEL_NUM
      && (forall c :: 0 <= c < CHANNEL_NUM ==> flow[c] <= flow[f.chan])
      && (forall c :: 0 <= c < f.chan ==> flow[c] < flow[f.chan])
      && Pow2(f.credit) <= flow[f.chan] < 2 * Pow2(f.credit)
      && flow' == flow[f.chan := flow[f.chan] - Pow2(f.credit)]
    else f.chan == 0 && f.credit == 0 && flow' == flow
  }

  /** The frame TX adds, and what it costs. */
  predicate SendsFrame(e: Ep, req: Option<Msg>, e': Ep, f: Frame)
    requires |e.credits| == |e.flow| == CHANNEL_NUM && IsSeq(e.nextRx)
    requires req.Some? ==> req.value.header.chan < CHANNEL_NUM
  {
    && f.ftype == 0 && f.ack == 1 && f.seqNum == e.nextTx
    && f.seqAck == (if e.ackBuf == [] then (e.nextRx - 1) % 0x40_0000 else e.ackBuf[0].seqAck)
    && f.msgs == (if GoesOut(e, req) then [req.value] else [])
    && ReturnsCredit(e.flow, e'.flow, f)
    && e'.credits == (if GoesOut(e, req)
                      then var c := req.value.header.chan; e.credits[c := e.credits[c] - Flits(req.value)]
                      else e.credits)
    && e'.ackBuf == (if e.ackBuf == [] then [] else e.ackBuf[1..])
    && |e'.window| == |e.window| + 1 && e'.window[|e.window|].frame == f
    && e'.nextTx == (e.nextTx + 1) % 0x40_0000
  }

  lemma ReturnExactly(flow: seq<int>)
    requires IsVector(flow)
    ensures SelectMaxCreditChannel(flow) != 0 <==> HasReturn(flow)
  {
    var c := SelectMaxCreditChannel(flow);
    if c != 0 {
      assert flow[0] < flow[c];
    }
  }

  lemma BuildsExactly(e: Ep, req: Option<Msg>)
    requires Shape(e) && (req.Some? ==> req.value.header.chan < CHANNEL_NUM)
    ensures BuildsFrame(e, req) <==> MustSend(e, req)
    ensures BuildsFrame(e, req) ==> (CarriesRequest(e, req) <==> GoesOut(e, req))
  {
    ReturnExactly(e.flow);
  }

  lemma CreditExactly(e: Ep, req: Option<Msg>, now: int)
    requires Shape(e) && (req.Some? ==> req.value.header.chan < CHANNEL_NUM) && BuildsFrame(e, req)
    ensures ReturnsCredit(e.flow, SendNormal(e, req, now).ep.flow, NormalFrame(e, req))
  {
    ReturnExactly(e.flow);
    SelectedChannelHasCredit(e.flow);
  }

  lemma FrameExactly(e: Ep, req: Option<Msg>, now: int)
    requires Shape(e) && (req.Some? ==> req.value.header.chan < CHANNEL_NUM) && MustSend(e, req)
    ensures SendsFrame(e, req, SendNormal(e, req, now).ep, NormalFrame(e, req))
    ensures SendNormal(e, req, now).unsent == if GoesOut(e, req) then None else req
  {
    BuildsExactly(e, req);
    CreditExactly(e, req, now);
  }

  /** What holds of the sending proper holds after the resend too. */
  lemma SendsFrameAfter(e: Ep, req: Option<Msg>, s: Ep, e': Ep, f: Frame)
    requires Shape(e) && (req.Some? ==> req.value.header.chan < CHANNEL_NUM) && SendsFrame(e, req, s, f)
    requires SameFrames(s.window, e'.window) && e'.credits == s.credits && e'.flow == s.flow
    requires e'.ackBuf == s.ackBuf && e'.nextTx == s.nextTx
    ensures SendsFrame(e, req, e', f)
  {
  }

  lemma NothingBuilt(e: Ep, req: Option<Msg>, now: int)
    requires Shape(e) && (req.Some? ==> req.value.header.chan < CHANNEL_NUM) && !MustSend(e, req)
    ensures var s := SendNormal(e, req, now); s.ep == e && s.unsent == req && s.frames == []
  {
    BuildsExactly(e, req);
  }

  /** What TX has no business with. */
  predicate LeavesReceiver(e: Ep, e': Ep) {
    e'.nextRx == e.nextRx && e'.ackedSeq == e.ackedSeq && e'.inbox == e.inbox && e'.status == e.status
  }

  /** What becomes of the endpoint and of the request. */
  predicate SpendsExactly(e: Ep, req: Option<Msg>, t: TxOut)
    requires |e.credits| == |e.flow| == CHANNEL_NUM && IsSeq(e.nextRx)
    requires req.Some? ==> req.value.header.chan < CHANNEL_NUM
  {
    && (t.ep.nextTx != e.nextTx <==> MustSend(e, req)) && LeavesReceiver(e, t.ep)
    && t.unsent == (if GoesOut(e, req) then None else req)
    && (if MustSend(e, req) then
          |t.ep.window| > |e.window| && SendsFrame(e, req, t.ep, t.ep.window[|e.window|].frame)
        else
          && SameFrames(e.window, t.ep.window) && t.ep.credits == e.credits
          && t.ep.flow == e.flow && t.ep.ackBuf == e.ackBuf)
  }

  lemma SpendsFromParts(e: Ep, req: Option<Msg>, s: TxOut, t: TxOut)
    requires Shape(e) && (req.Some? ==> req.value.header.chan < CHANNEL_NUM)
    requires SameFrames(s.ep.window, t.ep.window) && t.unsent == s.unsent && LeavesReceiver(e, s.ep)
    requires t.ep == s.ep.(window := t.ep.window, ackPending := false, ackSent := t.ep.ackSent, cnt := t.ep.cnt)
    requires if MustSend(e, req) then
               && |s.ep.window| > |e.window| && SendsFrame(e, req, s.ep, s.ep.window[|e.window|].frame)
               && s.unsent == (if GoesOut(e, req) then None else req)
             else s.ep == e && s.unsent == req
    ensures SpendsExactly(e, req, t)
  {
    if MustSend(e, req) {
      SendsFrameAfter(e, req, s.ep, t.ep, s.ep.window[|e.window|].frame);
    }
  }

  lemma NormalLeavesReceiver(e: Ep, req: Option<Msg>, now: int)
    requires IsVector(e.credits) && IsVector(e.flow) && (req.Some? ==> req.value.header.chan < CHANNEL_NUM)
    ensures LeavesReceiver(e, SendNormal(e, req, now).ep)
  {
  }

  /**
   TX sends a new frame, and counts a number, exactly when there is room in the window and a
   request that can be paid, a parked ack or credit to return; the request leaves exactly
   when there is room and it can be paid; without a new frame nothing is spent.
   */
  lemma TxSendsExactly(e: Ep, req: Option<Msg>, now: int)
    requires Shape(e) && (req.Some? ==> req.value.header.chan < CHANNEL_NUM)
    ensures SpendsExactly(e, req, TxStep(e, req, now))
  {
    TxEffect(e, req, now);
    var s, t := SendNormal(e, req, now), TxStep(e, req, now);
    if MustSend(e, req) {
      FrameExactly(e, req, now);
    } else {
      NothingBuilt(e, req, now);
    }
    NormalLeavesReceiver(e, req, now);
    SpendsFromParts(e, req, s, t);
  }

  // ----- The ack-only frames and the resend -----

  predicate HalfTimedOut(e: Ep, now: int) {
    |e.window| == 4 && now - e.window[0].sendTime >= 50_000
  }

  predicate IsTimedOut(e: Ep, now: int) {
    e.window != [] && now - e.window[0].sendTime >= 100_000
  }

  /** One for an empty frame accepted, and one per half timeout of a full window. */
  function AcksOwed(e: Ep, now: int): nat {
    (if e.ackPending then 1 else 0) + if HalfTimedOut(e, now) && !e.ackSent then 1 else 0
  }

  function LastAccepted(e: Ep): int {
    (e.nextRx - 1) % 0x40_0000
  }

  lemma AcksExactly(e: Ep, now: int)
    requires IsSeq(e.nextRx)
    ensures |AckFrames(e, now)| == AcksOwed(e, now)
    ensures forall i :: 0 <= i < AcksOwed(e, now) ==>
              AckFrames(e, now)[i] == Frame(1, e.nextTx, LastAccepted(e), 1, 0, 0, [])
  {
  }

  /** An ack-only frame is owed no longer, and one has been sent, and counted, for a half timeout. */
  predicate SettlesAcks(e: Ep, e': Ep, now: int) {
    && !e'.ackPending && (e'.ackSent <==> e.ackSent || HalfTimedOut(e, now))
    && e'.cnt == e.cnt.(ackOnly := e.cnt.ackOnly + if HalfTimedOut(e, now) && !e.ackSent then 1 else 0)
  }

  lemma FlagsExactly(e: Ep, req: Option<Msg>, now: int)
    requires Shape(e) && (req.Some? ==> req.value.header.chan < CHANNEL_NUM)
    ensures SettlesAcks(e, TxStep(e, req, now).ep, now)
  {
    var p2 := SendHalfTimeoutAck(SendPendingAck(e).ep, now).ep;
    AckPhases(e, now);
    NormalKeepsFlags(p2, req, now);
    ResendPhase(SendNormal(p2, req, now).ep, now);
    AcksSettled(e, now);
  }

  lemma AcksSettled(e: Ep, now: int)
    ensures SettlesAcks(e, SendHalfTimeoutAck(SendPendingAck(e).ep, now).ep, now)
  {
  }

  lemma NormalKeepsFlags(e: Ep, req: Option<Msg>, now: int)
    requires IsVector(e.credits) && IsVector(e.flow) && (req.Some? ==> req.value.header.chan < CHANNEL_NUM)
    ensures var s := SendNormal(e, req, now).ep;
            s.ackPending == e.ackPending && s.ackSent == e.ackSent && s.cnt == e.cnt
  {
  }

  lemma NewFrameExactly(e: Ep, req: Option<Msg>, now: int)
    requires Shape(e) && (req.Some? ==> req.value.header.chan < CHANNEL_NUM)
    ensures var s := SendNormal(e, req, now);
            if MustSend(e, req) then |s.frames| == 1 && s.ep.window == e.window + [Elem(Sent, now, s.frames[0])]
            else s.ep.window == e.window && s.frames == []
  {
    BuildsExactly(e, req);
  }

  /**
   First the ack-only frames, then the new frame, then on a timeout every frame of the
   window with the new one, its ack up to date; nothing else.  Frames sent are stamped with
   the time, and no others.
   */
  predicate SendsInOrder(e: Ep, req: Option<Msg>, now: int, fs: seq<Frame>, w: seq<Elem>)
    requires |e.credits| == CHANNEL_NUM
    requires req.Some? ==> req.value.header.chan < CHANNEL_NUM
  {
    var k := AcksOwed(e, now);
    var n := k + if MustSend(e, req) then 1 else 0;
    && |fs| == n + (if IsTimedOut(e, now) then |w| else 0)
    && (forall i :: 0 <= i < k ==> fs[i] == Frame(1, e.nextTx, LastAccepted(e), 1, 0, 0, []))
    && (MustSend(e, req) ==> |w| > |e.window| && fs[k] == w[|e.window|].frame)
    && (IsTimedOut(e, now) ==>
          forall i :: 0 <= i < |w| ==>
            fs[n + i] == w[i].frame.(seqAck := LastAccepted(e)) && w[i] == Elem(Resent, now, w[i].frame))
    && (!IsTimedOut(e, now) ==> w == e.window + if MustSend(e, req) then [Elem(Sent, now, fs[k])] else [])
  }

  lemma OrderFromParts(e: Ep, req: Option<Msg>, now: int, acks: seq<Frame>, more: seq<Frame>, fs: seq<Frame>,
                       w: seq<Elem>, w': seq<Elem>)
    requires Shape(e) && (req.Some? ==> req.value.header.chan < CHANNEL_NUM)
    requires |acks| == AcksOwed(e, now)
    requires forall i :: 0 <= i < |acks| ==> acks[i] == Frame(1, e.nextTx, LastAccepted(e), 1, 0, 0, [])
    requires if MustSend(e, req) then |more| == 1 && w == e.window + [Elem(Sent, now, more[0])]
             else w == e.window && more == []
    requires var head := acks + more;
             if IsTimedOut(e, now) then
               && |fs| == |head| + |w| && fs[..|head|] == head
               && ResentEntirely(w, fs[|head|..], w', e.nextRx, now)
             else fs == head && w' == w
    ensures SendsInOrder(e, req, now, fs, w')
  {
    var head := acks + more;
    HeadAt(fs, head);
    if IsTimedOut(e, now) {
      TailAt(e, fs, |head|, w, w', now);
    }
  }

  lemma HeadAt(fs: seq<Frame>, head: seq<Frame>)
    requires |head| <= |fs| && fs[..|head|] == head
    ensures forall i :: 0 <= i < |head| ==> fs[i] == head[i]
  {
  }

  lemma TailAt(e: Ep, fs: seq<Frame>, n: nat, w: seq<Elem>, w': seq<Elem>, now: int)
    requires IsSeq(e.nextRx) && |fs| == n + |w| && ResentEntirely(w, fs[n..], w', e.nextRx, now)
    ensures forall i :: 0 <= i < |w'| ==>
              fs[n + i] == w'[i].frame.(seqAck := LastAccepted(e)) && w'[i] == Elem(Resent, now, w'[i].frame)
  {
    forall i | 0 <= i < |w'| ensures fs[n + i] == w'[i].frame.(seqAck := LastAccepted(e)) {
      assert fs[n + i] == fs[n..][i];
    }
  }

  lemma TxOrder(e: Ep, req: Option<Msg>, base: int, now: int)
    requires Shape(e) && (req.Some? ==> req.value.header.chan < CHANNEL_NUM)
    requires Consecutive(e.window, base) && e.nextTx == (base + |e.window|) % SEQ_MOD
    ensures SendsInOrder(e, req, now, TxStep(e, req, now).frames, TxStep(e, req, now).ep.window)
  {
    TxGoesBackN(e, req, base, now);
    AcksExactly(e, now);
    NewFrameExactly(e, req, now);
    var s, t := SendNormal(e, req, now), TxStep(e, req, now);
    OrderFromParts(e, req, now, AckFrames(e, now), s.frames, t.frames, s.ep.window, t.ep.window);
  }
}
