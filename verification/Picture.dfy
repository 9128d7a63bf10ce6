/**
 A node that is asked nothing and serves nothing, reduced to what its frames and acks look
 like: counts instead of numbers, and of the window only times and whether frames are empty.
 */
module Picture {
  import opened Options
  import opened SeqNum
  import opened TileLink
  import opened FlowSpec
  import opened LinkSpec
  import opened HostSpec
  import opened World
  import opened Invariant
  import opened LinkFacts
  import opened TransmitProof
  import opened ReceiveProof
  import opened SystemProof

  datatype Slot = Slot(time: int, zero: bool)

  /** The counters count frames, the opening not among them. */
  datatype Half = Half(sent: int, got: int, window: seq<Slot>, waiting: seq<Waiting>,
                       owes: bool,    // should_send_ackonly_frame
                       told: bool)    // ackonly_frame_sent

  datatype Item = Item(ackOnly: bool, zero: bool, num: int, ack: int)

  datatype Scene = Scene(me: Half, inc: seq<Item>, out: seq<Item>)

  /** Nothing to send but acks: no message is waiting and no credit is to be returned. */
  predicate Calm(n: Node) {
    && n.h.link.status.Running? && n.h.pending == None && n.h.msgBuf == [] && n.h.respBuf == []
    && n.h.link.inbox == [] && n.h.link.flow == [0, 0, 0, 0, 0, 0] && n.open == 0 && n.peerOpen == 0
  }

  function SlotsOf(w: seq<Elem>): (r: seq<Slot>)
    ensures |r| == |w|
  {
    seq(|w|, i requires 0 <= i < |w| => Slot(w[i].sendTime, w[i].frame.msgs == []))
  }

  function WaitingOf(ps: seq<Waiting>, off: int): (r: seq<Waiting>)
    ensures |r| == |ps|
  {
    seq(|ps|, i requires 0 <= i < |ps| => Waiting(ps[i].num - off, ps[i].rx - off))
  }

  function HalfOf(n: Node): Half {
    Half(|n.sent|, n.got, SlotsOf(n.h.link.window), WaitingOf(n.parked, n.rxOff), n.h.link.ackPending, n.h.link.ackSent)
  }

  function ItemOf(fl: Flight, tx: int, rx: int): Item {
    Item(fl.frame.ftype == TYPE_ACKONLY, fl.frame.msgs == [], fl.seqG - tx, fl.ackG - rx)
  }

  function ItemsOf(fs: seq<Flight>, tx: int, rx: int): (r: seq<Item>)
    ensures |r| == |fs|
  {
    seq(|fs|, i requires 0 <= i < |fs| => ItemOf(fs[i], tx, rx))
  }

  function SceneOf(l: Local): Scene {
    Scene(HalfOf(l.n), ItemsOf(l.inc, l.n.rxOff, l.n.txOff), ItemsOf(l.out, l.n.txOff, l.n.rxOff))
  }

  /** The step is possible, and leaves a calm node and picture s. */
  predicate Acts(l: Local, act: Action, s: Scene) {
    && Enabled(l, act) && FreshAck(l, act)
    && Calm(LocalStep(l, act).n) && SceneOf(LocalStep(l, act)) == s
  }

  // ----- Receiving -----

  /** The window after an ack for number ack. */
  function Acked(h: Half, ack: int): seq<Slot> {
    var j := ack + 1 - (h.sent - |h.window|);
    if j <= 0 then h.window else if j <= |h.window| then h.window[j..] else []
  }

  function Hearing(h: Half, it: Item): Half {
    var h' := h.(window := Acked(h, it.ack), told := false);
    if it.ackOnly then h'
    else if it.num == h.got then h'.(got := h.got + 1, owes := h.owes || it.zero)
    else h'.(waiting := h.waiting + [Waiting(it.num, h.got)])
  }

  lemma RxFlags(e: Ep, f: Frame, now: int)
    requires |e.credits| == CHANNEL_NUM && f.chan < CHANNEL_NUM && f.ack == TLOE_ACK
    requires |e.inbox| + |f.msgs| <= INBOX_CAPACITY && |e.ackBuf| < ACK_CAPACITY
    ensures var r := RxStep(e, f, now).ep;
            && r.window == Slide(e.window, f.seqAck) && !r.ackSent && r.status == e.status && r.flow == e.flow
            && (r.ackPending <==>
                  || e.ackPending
                  || (f.ftype != TYPE_ACKONLY && Classify(f.seqNum, e.nextRx) == ReqNormal && f.msgs == []))
  {
  }

  lemma SlotsTail(w: seq<Elem>, j: nat)
    requires j <= |w|
    ensures SlotsOf(w[j..]) == SlotsOf(w)[j..]
  {
  }

  lemma WaitingSnoc(ps: seq<Waiting>, p: Waiting, off: int)
    ensures WaitingOf(ps + [p], off) == WaitingOf(ps, off) + [Waiting(p.num - off, p.rx - off)]
  {
  }

  lemma AckedWindow(n: Node, ackG: int, j: nat)
    requires j == (if ackG < Base(n) then 0 else ackG + 1 - Base(n)) && j <= |n.h.link.window|
    ensures Acked(HalfOf(n), ackG - n.txOff) == SlotsOf(n.h.link.window[j..])
  {
    SlotsTail(n.h.link.window, j);
  }

  /** The history side of a receive step, from what became of the frame. */
  lemma HearsHalf(n: Node, n': Node, fl: Flight, o: Outcome, j: nat)
    requires Hears(n, n', fl, o) && Calm(n) && n'.h.link.status.Running? && !n'.h.link.ackSent
    requires j == (if fl.ackG < Base(n) then 0 else fl.ackG + 1 - Base(n)) && j <= |n.h.link.window|
    requires n'.h.link.window == n.h.link.window[j..]
    requires n'.h.link.ackPending == (n.h.link.ackPending || (o == Accepted && fl.frame.msgs == []))
    requires o == Ignored <==> fl.frame.ftype == TYPE_ACKONLY
    requires o == Accepted <==> fl.frame.ftype != TYPE_ACKONLY && fl.seqG == GRx(n)
    requires fl.frame.msgs == []
    ensures Calm(n') && HalfOf(n') == Hearing(HalfOf(n), ItemOf(fl, n.rxOff, n.txOff))
  {
    AckedWindow(n, fl.ackG, j);
    match o {
      case Ignored =>
      case Accepted => assert n'.parked == n.parked;
      case Parked => WaitingSnoc(n.parked, Waiting(fl.seqG, GRx(n)), n.rxOff);
    }
  }

  lemma HearingHalf(n: Node, p: Node, fl: Flight, now: int)
    requires NodeInv(n) && Calm(n) && SentInv(n) && WindowInv(n) && ParkInv(n)
    requires Meets(n, p) && SentInv(p) && Meets(p, n)
    requires FwdOk(p, n, fl, WINDOW_SIZE) && BwdOk(n, p, fl) && fl.frame.msgs == []
    requires |n.h.link.inbox| + |fl.frame.msgs| <= INBOX_CAPACITY && |n.parked| < ACK_CAPACITY
    ensures var n' := AfterReceive(n, fl, now);
            && Calm(n') && HalfOf(n') == Hearing(HalfOf(n), ItemOf(fl, n.rxOff, n.txOff))
            && n'.rxOff == n.rxOff && n'.txOff == n.txOff
    ensures HostSpec.Receive(n.h, fl.frame, now).frames == []
  {
    ReceiveEffect(n, fl, now);
    RxFlags(n.h.link, fl.frame, now);
    SlideIsSafe(n, p, fl);
    if fl.frame.ftype != TYPE_ACKONLY {
      ClassifyRefines(p, n, fl, WINDOW_SIZE);
    }
    HearsHalf(n, AfterReceive(n, fl, now), fl, OutcomeOf(n.h.link, fl.frame),
              if fl.ackG < Base(n) then 0 else fl.ackG + 1 - Base(n));
  }

  lemma ItemsTail(fs: seq<Flight>, tx: int, rx: int)
    requires fs != []
    ensures ItemsOf(fs, tx, rx)[0] == ItemOf(fs[0], tx, rx) && ItemsOf(fs[1..], tx, rx) == ItemsOf(fs, tx, rx)[1..]
  {
  }

  function Listened(s: Scene): Scene
    requires s.inc != []
  {
    Scene(Hearing(s.me, s.inc[0]), s.inc[1..], s.out)
  }

  lemma HearingScene(l: Local, n': Node)
    requires l.inc != [] && n'.rxOff == l.n.rxOff && n'.txOff == l.n.txOff
    requires HalfOf(n') == Hearing(HalfOf(l.n), ItemOf(l.inc[0], l.n.rxOff, l.n.txOff))
    ensures SceneOf(Local(n', l.inc[1..], l.out)) == Listened(SceneOf(l))
  {
    ItemsTail(l.inc, l.n.rxOff, l.n.txOff);
  }

  /** RX of a frame without a message, of a node that has room for one more parked ack. */
  lemma ReceiveScene(l: Local, p: Node, now: int)
    requires LocalInv(l, p, WINDOW_SIZE) && Calm(l.n) && l.inc != [] && l.inc[0].frame.msgs == []
    requires |l.n.parked| < ACK_CAPACITY
    ensures Acts(l, Action.Receive(now), Listened(SceneOf(l)))
  {
    var fl := l.inc[0];
    assert FwdOk(p, l.n, fl, WINDOW_SIZE) && BwdOk(l.n, p, fl);
    IncomingFits(l.n, p, fl, WINDOW_SIZE);
    HearingHalf(l.n, p, fl, now);
    ReceiveLocal(l, now);
    HearingScene(l, AfterReceive(l.n, fl, now));
  }

  /** The picture when the oldest frame on its way to the node is lost. */
  function Deaf(s: Scene): Scene
    requires s.inc != []
  {
    s.(inc := s.inc[1..])
  }

  lemma LoseScene(l: Local)
    requires Calm(l.n) && l.inc != []
    ensures Acts(l, Action.Lose(0), Deaf(SceneOf(l)))
  {
    assert LocalStep(l, Action.Lose(0)) == l.(inc := l.inc[1..]);
    ItemsTail(l.inc, l.n.rxOff, l.n.txOff);
  }

  // ----- Transmitting -----

  predicate Late(w: seq<Slot>, now: int, limit: int) {
    w != [] && now - w[0].time >= limit
  }

  /** The ack-only frames at the head of TX. */
  function AcksDue(h: Half, now: int): seq<Item> {
    var it := Item(true, true, h.sent, h.got - 1);
    (if h.owes then [it] else [])
    + (if |h.window| == WINDOW_SIZE && !h.told && Late(h.window, now, HALF_TIMEOUT) then [it] else [])
  }

  predicate Builds(h: Half) {
    |h.window| < WINDOW_SIZE && h.waiting != []
  }

  /** After the new frame, if a parked ack calls for one. */
  function Built(h: Half, now: int): Half {
    if Builds(h) then h.(sent := h.sent + 1, window := h.window + [Slot(now, true)], waiting := h.waiting[1..]) else h
  }

  function Restamped(w: seq<Slot>, now: int): (r: seq<Slot>)
    ensures |r| == |w|
  {
    seq(|w|, i requires 0 <= i < |w| => Slot(now, w[i].zero))
  }

  function Resends(h: Half): (r: seq<Item>)
    ensures |r| == |h.window|
  {
    seq(|h.window|, i requires 0 <= i < |h.window| => Item(false, h.window[i].zero, h.sent - |h.window| + i, h.got - 1))
  }

  function Telling(h: Half, now: int): Half {
    var b := Built(h, now);
    b.(owes := false,
       told := h.told || (|h.window| == WINDOW_SIZE && Late(h.window, now, HALF_TIMEOUT)),
       window := if Late(h.window, now, TIMEOUT_TIME) then Restamped(b.window, now) else b.window)
  }

  function Told(h: Half, now: int): seq<Item> {
    AcksDue(h, now)
    + (if Builds(h) then [Item(false, true, h.sent, AckNumber(h.waiting[0]))] else [])
    + (if Late(h.window, now, TIMEOUT_TIME) then Resends(Built(h, now)) else [])
  }

  lemma CalmChoice(h: Host)
    requires h.pending == None && h.msgBuf == [] && h.respBuf == []
    ensures Choose(h) == Selection(h.(selectCnt := SELECT_PERIOD), None)
  {
  }

  predicate BuildsAck(e: Ep) {
    |e.window| < WINDOW_SIZE && e.ackBuf != []
  }

  function AckCarrier(e: Ep): Frame {
    Frame(TYPE_NORMAL, e.nextTx, if e.ackBuf == [] then Prev(e.nextRx) else e.ackBuf[0].seqAck, TLOE_ACK, 0, 0, [])
  }

  /** The window before the resend at the tail of TX. */
  function Grown(e: Ep, now: int): seq<Elem> {
    if BuildsAck(e) then e.window + [Elem(Sent, now, AckCarrier(e))] else e.window
  }

  function Head(e: Ep, now: int): seq<Frame> {
    AckFrames(e, now) + if BuildsAck(e) then [AckCarrier(e)] else []
  }

  lemma CalmNormal(e: Ep, now: int)
    requires IsVector(e.credits) && e.flow == [0, 0, 0, 0, 0, 0]
    ensures var s := SendNormal(e, None, now);
            && s.ep == (if BuildsAck(e)
                        then e.(ackBuf := e.ackBuf[1..], window := Grown(e, now), nextTx := Next(e.nextTx)) else e)
            && s.frames == (if BuildsAck(e) then [AckCarrier(e)] else []) && s.unsent == None
  {
    CalmFrame(e);
  }

  lemma CalmFlags(e: Ep, now: int)
    requires IsVector(e.credits) && IsVector(e.flow)
    ensures var t := TxStep(e, None, now).ep;
            t.ackSent == (e.ackSent || (|e.window| == WINDOW_SIZE && now - e.window[0].sendTime >= HALF_TIMEOUT))
  {
  }

  /** The frames such a TX sends and the window it leaves. */
  predicate Sending(e: Ep, now: int, fs: seq<Frame>, after: seq<Elem>) {
    var w, head := Grown(e, now), Head(e, now);
    if TimedOut(e.window, now) then
      && |fs| == |head| + |w| && fs[..|head|] == head
      && ResentEntirely(w, fs[|head|..], after, e.nextRx, now)
    else fs == head && after == w
  }

  /** TX of an endpoint with no request and no credit to return. */
  lemma CalmTx(e: Ep, base: int, now: int)
    requires IsVector(e.credits) && e.flow == [0, 0, 0, 0, 0, 0]
    requires Consecutive(e.window, base) && |e.window| <= WINDOW_SIZE && e.nextTx == (base + |e.window|) % SEQ_MOD
    ensures var t := TxStep(e, None, now);
            && t.unsent == None && t.ep.flow == e.flow && t.ep.status == e.status && !t.ep.ackPending
            && Sending(e, now, t.frames, t.ep.window)
  {
    CalmNormal(e, now);
    TxGoesBackN(e, None, base, now);
    TxEffect(e, None, now);
  }

  // ----- Frames as items -----

  lemma AckItem(n: Node, tx: int)
    requires n.h.link.nextTx == GTx(n) % SEQ_MOD && n.h.link.nextRx == GRx(n) % SEQ_MOD
    requires GTx(n) <= tx <= GTx(n) + 1
    ensures ItemOf(Tag(AckOnlyFrame(n.h.link), tx, GRx(n)), n.txOff, n.rxOff) == Item(true, true, |n.sent|, n.got - 1)
  {
    UnwrapExact(GTx(n), tx);
    PrevRefines(GRx(n));
    UnwrapExact(GRx(n) - 1, GRx(n) - 1);
  }

  lemma CarrierItem(n: Node)
    requires n.h.link.nextTx == GTx(n) % SEQ_MOD && ParkInv(n) && n.parked != []
    requires GRx(n) - AckNumber(n.parked[0]) < HALF
    ensures ItemOf(Tag(AckCarrier(n.h.link), GTx(n) + 1, GRx(n)), n.txOff, n.rxOff)
         == Item(false, true, |n.sent|, AckNumber(WaitingOf(n.parked, n.rxOff)[0]))
  {
    UnwrapExact(GTx(n), GTx(n) + 1);
    assert ParkedOk(n, n.h.link.ackBuf[0], n.parked[0]);
    UnwrapExact(AckNumber(n.parked[0]), GRx(n) - 1);
  }

  lemma ResentItem(n: Node, k: nat, f: Frame)
    requires SentInv(n) && WindowInv(n) && k < |n.h.link.window| && n.h.link.nextRx == GRx(n) % SEQ_MOD
    requires f == n.h.link.window[k].frame.(seqAck := Prev(n.h.link.nextRx))
    ensures ItemOf(Tag(f, GTx(n), GRx(n)), n.txOff, n.rxOff)
         == Item(false, n.h.link.window[k].frame.msgs == [], |n.sent| - |n.h.link.window| + k, n.got - 1)
  {
    WindowNumber(n, k);
    PrevRefines(GRx(n));
    UnwrapExact(GRx(n) - 1, GRx(n) - 1);
    assert FrameOk(n.sent[|n.sent| - |n.h.link.window| + k]);
  }

  // ----- A transmit step -----

  lemma TellingState(n: Node, now: int)
    requires NodeInv(n) && ParkInv(n) && SentInv(n) && WindowInv(n) && Calm(n)
    ensures var n' := AfterTransmit(n, now);
            && Calm(n') && HalfOf(n') == Telling(HalfOf(n), now)
            && Advances(n, n') && Sending(n.h.link, now, HostSpec.Transmit(n.h, now).frames, n'.h.link.window)
  {
    CalmChoice(n.h);
    TransmitSends(n, now);
    TellingFrom(n, AfterTransmit(n, now), HostSpec.Transmit(n.h, now).frames, now);
  }

  lemma TellingFrom(n: Node, n': Node, fs: seq<Frame>, now: int)
    requires NodeInv(n) && ParkInv(n) && SentInv(n) && WindowInv(n) && Calm(n)
    requires Sends(n, n', BuildsFrame(n.h.link, None), NormalFrame(n.h.link, None))
    requires var t := TxStep(n.h.link, None, now);
             && n'.h == n.h.(link := t.ep, pending := t.unsent, selectCnt := SELECT_PERIOD) && fs == t.frames
    ensures Calm(n') && HalfOf(n') == Telling(HalfOf(n), now)
    ensures Advances(n, n') && Sending(n.h.link, now, fs, n'.h.link.window)
  {
    var e := n.h.link;
    CalmFrame(e);
    WindowIsConsecutive(n);
    CalmTx(e, Base(n), now);
    CalmFlags(e, now);
    TellingParts(n, n', now);
  }

  lemma CalmFrame(e: Ep)
    requires IsVector(e.credits) && e.flow == [0, 0, 0, 0, 0, 0]
    ensures BuildsFrame(e, None) == BuildsAck(e) && NormalFrame(e, None) == AckCarrier(e)
  {
    SelectedChannelHasCredit(e.flow);
    assert SelectMaxCreditChannel(e.flow) == 0;
  }

  lemma TellingParts(n: Node, n': Node, now: int)
    requires |n.parked| == |n.h.link.ackBuf|
    requires Sends(n, n', BuildsAck(n.h.link), AckCarrier(n.h.link))
    requires !n'.h.link.ackPending
    requires var e := n.h.link;
             && n'.h.link.ackSent
                == (e.ackSent || (|e.window| == WINDOW_SIZE && now - e.window[0].sendTime >= HALF_TIMEOUT))
             && (if TimedOut(e.window, now)
                 then |n'.h.link.window| == |Grown(e, now)|
                      && forall k :: 0 <= k < |Grown(e, now)| ==>
                           n'.h.link.window[k] == Elem(Resent, now, Grown(e, now)[k].frame)
                 else n'.h.link.window == Grown(e, now))
    ensures HalfOf(n') == Telling(HalfOf(n), now)
  {
    var h := HalfOf(n);
    assert SlotsOf(Grown(n.h.link, now)) == Built(h, now).window;
    if BuildsAck(n.h.link) {
      assert WaitingOf(n.parked[1..], n.rxOff) == h.waiting[1..];
    }
    assert SlotsOf(n'.h.link.window) == Telling(h, now).window;
  }

  /** Frames as items, tagged when the counters stand at tx and rx. */
  function Tagged(fs: seq<Frame>, tx: int, rx: int, n: Node): (r: seq<Item>)
    ensures |r| == |fs|
  {
    ItemsOf(TagAll(fs, tx, rx), n.txOff, n.rxOff)
  }

  lemma TaggedConcat(fs: seq<Frame>, gs: seq<Frame>, tx: int, rx: int, n: Node)
    ensures Tagged(fs + gs, tx, rx, n) == Tagged(fs, tx, rx, n) + Tagged(gs, tx, rx, n)
  {
  }

  lemma AckItems(n: Node, now: int, tx: int)
    requires n.h.link.nextTx == GTx(n) % SEQ_MOD && n.h.link.nextRx == GRx(n) % SEQ_MOD
    requires GTx(n) <= tx <= GTx(n) + 1
    ensures Tagged(AckFrames(n.h.link, now), tx, GRx(n), n) == AcksDue(HalfOf(n), now)
  {
    AckPhases(n.h.link, now);
    AckItem(n, tx);
    var fs := AckFrames(n.h.link, now);
    forall i | 0 <= i < |fs| ensures fs[i] == AckOnlyFrame(n.h.link) {
    }
  }

  lemma HeadItems(n: Node, now: int)
    requires WindowInv(n) && ParkInv(n) && n.h.link.nextRx == GRx(n) % SEQ_MOD
    requires BuildsAck(n.h.link) ==> GRx(n) - AckNumber(n.parked[0]) < HALF
    ensures var h, tx := HalfOf(n), if BuildsAck(n.h.link) then GTx(n) + 1 else GTx(n);
            && Tagged(Head(n.h.link, now), tx, GRx(n), n)
               == AcksDue(h, now) + if Builds(h) then [Item(false, true, h.sent, AckNumber(h.waiting[0]))] else []
  {
    var tx := if BuildsAck(n.h.link) then GTx(n) + 1 else GTx(n);
    AckItems(n, now, tx);
    if BuildsAck(n.h.link) {
      CarrierItem(n);
      TaggedConcat(AckFrames(n.h.link, now), [AckCarrier(n.h.link)], tx, GRx(n), n);
    }
  }

  /** The frames resent from the window of the node after the step. */
  lemma ResentItems(n: Node, fs: seq<Frame>, h: Half)
    requires SentInv(n) && WindowInv(n) && n.h.link.nextRx == GRx(n) % SEQ_MOD
    requires |fs| == |n.h.link.window| == |h.window| && h.sent == |n.sent| && h.got == n.got
    requires forall k :: 0 <= k < |fs| ==> fs[k] == n.h.link.window[k].frame.(seqAck := Prev(n.h.link.nextRx))
    requires forall k :: 0 <= k < |fs| ==> h.window[k].zero == (n.h.link.window[k].frame.msgs == [])
    ensures Tagged(fs, GTx(n), GRx(n), n) == Resends(h)
  {
    forall k | 0 <= k < |fs| ensures Tagged(fs, GTx(n), GRx(n), n)[k] == Resends(h)[k] {
      ResentItem(n, k, fs[k]);
    }
  }

  /** The counters of a node after such a TX. */
  predicate Advances(n: Node, n': Node) {
    && n'.txOff == n.txOff && n'.rxOff == n.rxOff && n'.got == n.got && n'.h.link.nextRx == n.h.link.nextRx
    && |n'.sent| == |n.sent| + if BuildsAck(n.h.link) then 1 else 0
  }

  lemma AgainItems(n: Node, n': Node, now: int, fs: seq<Frame>)
    requires SentInv(n') && WindowInv(n') && n.h.link.nextRx == GRx(n) % SEQ_MOD
    requires |n.parked| == |n.h.link.ackBuf| && Advances(n, n')
    requires ResentEntirely(Grown(n.h.link, now), fs, n'.h.link.window, n.h.link.nextRx, now)
    ensures Tagged(fs, GTx(n'), GRx(n), n) == Resends(Built(HalfOf(n), now))
  {
    var h := Built(HalfOf(n), now);
    assert SlotsOf(Grown(n.h.link, now)) == h.window;
    ResentItems(n', fs, h);
  }

  lemma Concatenated(fs: seq<Frame>, head: seq<Frame>, tx: int, rx: int, n: Node)
    requires |head| <= |fs| && fs[..|head|] == head
    ensures Tagged(fs, tx, rx, n) == Tagged(head, tx, rx, n) + Tagged(fs[|head|..], tx, rx, n)
  {
    assert fs == head + fs[|head|..];
    TaggedConcat(head, fs[|head|..], tx, rx, n);
  }

  /** The frames of a transmit step as items. */
  lemma TellingItems(n: Node, n': Node, now: int, fs: seq<Frame>)
    requires WindowInv(n) && ParkInv(n) && n.h.link.nextRx == GRx(n) % SEQ_MOD
    requires BuildsAck(n.h.link) ==> GRx(n) - AckNumber(n.parked[0]) < HALF
    requires SentInv(n') && WindowInv(n') && Advances(n, n')
    requires Sending(n.h.link, now, fs, n'.h.link.window)
    ensures Tagged(fs, GTx(n'), GRx(n), n) == Told(HalfOf(n), now)
  {
    HeadItems(n, now);
    if TimedOut(n.h.link.window, now) {
      var head := Head(n.h.link, now);
      AgainItems(n, n', now, fs[|head|..]);
      Concatenated(fs, head, GTx(n'), GRx(n), n);
    }
  }

  lemma ItemsConcat(fs: seq<Flight>, gs: seq<Flight>, tx: int, rx: int)
    ensures ItemsOf(fs + gs, tx, rx) == ItemsOf(fs, tx, rx) + ItemsOf(gs, tx, rx)
  {
  }

  /** The new picture, from the parts of the step. */
  lemma SceneFromParts(l: Local, n': Node, now: int, fs: seq<Frame>)
    requires l.n.peerOpen == 0 && l.n.got >= 0 && n'.txOff == l.n.txOff && n'.rxOff == l.n.rxOff
    requires n'.got == l.n.got && n'.peerOpen == 0
    requires HalfOf(n') == Telling(HalfOf(l.n), now)
    requires Tagged(fs, GTx(n'), GRx(l.n), l.n) == Told(HalfOf(l.n), now)
    ensures SceneOf(Local(n', l.inc, l.out + TagAll(fs, GTx(n'), Seen(n')))) == Broadcast(SceneOf(l), now)
  {
    ItemsConcat(l.out, TagAll(fs, GTx(n'), Seen(n')), l.n.txOff, l.n.rxOff);
  }

  function Broadcast(s: Scene, now: int): Scene {
    Scene(Telling(s.me, now), s.inc, s.out + Told(s.me, now))
  }

  lemma InvSides(n: Node, p: Node, inc: seq<Flight>, out: seq<Flight>, lag: int)
    requires Inv(n, p, inc, out, lag)
    ensures NodeInv(n) && ParkInv(n) && SentInv(n) && WindowInv(n) && n.h.link.nextRx == GRx(n) % SEQ_MOD
  {
  }

  lemma FreshFromHalf(l: Local, now: int)
    requires |l.n.parked| == |l.n.h.link.ackBuf|
    requires Builds(HalfOf(l.n)) ==> l.n.got - AckNumber(HalfOf(l.n).waiting[0]) < HALF
    ensures FreshAck(l, Action.Transmit(now))
    ensures BuildsAck(l.n.h.link) ==> GRx(l.n) - AckNumber(l.n.parked[0]) < HALF
  {
  }

  /** TX, of a node whose oldest parked ack, if it takes it out, is fresh. */
  lemma TransmitScene(l: Local, p: Node, now: int)
    requires LocalInv(l, p, WINDOW_SIZE) && Calm(l.n)
    requires Builds(HalfOf(l.n)) ==> l.n.got - AckNumber(HalfOf(l.n).waiting[0]) < HALF
    ensures Acts(l, Action.Transmit(now), Broadcast(SceneOf(l), now))
  {
    FreshFromHalf(l, now);
    var n', fs := AfterTransmit(l.n, now), HostSpec.Transmit(l.n.h, now).frames;
    TransmitKeepsInv(l.n, p, l.inc, l.out, WINDOW_SIZE, now);
    TellingState(l.n, now);
    InvSides(n', p, l.inc, l.out + TagAll(fs, GTx(n'), Seen(n')), WINDOW_SIZE);
    TellingItems(l.n, n', now, fs);
    SceneFromParts(l, n', now, fs);
    TransmitLocal(l, now, n', fs);
  }

  lemma TransmitLocal(l: Local, now: int, n': Node, fs: seq<Frame>)
    requires Enabled(l, Action.Transmit(now)) && FreshAck(l, Action.Transmit(now))
    requires n' == AfterTransmit(l.n, now) && fs == HostSpec.Transmit(l.n.h, now).frames && Calm(n')
    ensures Acts(l, Action.Transmit(now), SceneOf(Local(n', l.inc, l.out + TagAll(fs, GTx(n'), Seen(n')))))
  {
  }
}
