/**
 The memory server end to end: what the master gets back is what a sequential memory
 would have answered.
 */
module MemoryProof {
  import opened Bits
  import opened TileLink
  import opened LinkSpec
  import opened HostSpec
  import opened World
  import opened Invariant
  import opened TransmitProof
  import opened ReceiveProof
  import opened SystemProof

  // ----- A sequential memory -----

  /** A read or a full write that stays inside the memory. */
  predicate Valid(m: Msg) {
    Admissible(m) && IsAccess(m) && InBounds(m)
  }

  predicate AllValid(rs: seq<Msg>) {
    forall i :: 0 <= i < |rs| ==> Valid(rs[i])
  }

  function MemAfter(mem: Memory, m: Msg): (r: Memory)
    requires |mem| == MEM_SIZE && Valid(m)
    ensures |r| == MEM_SIZE
  {
    if IsPutFull(m) then PutMem(mem, m) else mem
  }

  function Answer(mem: Memory, m: Msg): Msg
    requires |mem| == MEM_SIZE && Valid(m)
  {
    if IsPutFull(m) then PutResponse(m) else GetResponse(mem, m)
  }

  /** The memory after executing the requests one by one on a zeroed memory. */
  function RunMem(rs: seq<Msg>): (r: Memory)
    requires AllValid(rs)
    ensures |r| == MEM_SIZE
  {
    if rs == [] then ZeroMemory() else MemAfter(RunMem(rs[..|rs| - 1]), rs[|rs| - 1])
  }

  /** The answers of that execution, in order. */
  function Answers(rs: seq<Msg>): (r: seq<Msg>)
    requires AllValid(rs)
    ensures |r| == |rs|
  {
    if rs == [] then []
    else Answers(rs[..|rs| - 1]) + [Answer(RunMem(rs[..|rs| - 1]), rs[|rs| - 1])]
  }

  /** The byte at x according to the last request that wrote it, 0 if none did. */
  function LastWrite(rs: seq<Msg>, x: int): byte
    requires AllValid(rs)
  {
    if rs == [] then 0
    else
      var m := rs[|rs| - 1];
      if IsPutFull(m) && Offset(m) <= x < Offset(m) + Pow2(m.header.size)
      then m.payload[8 + x - Offset(m)]
      else LastWrite(rs[..|rs| - 1], x)
  }

  lemma {:induction false} MemoryIsLastWrite(rs: seq<Msg>, x: int)
    requires AllValid(rs) && 0 <= x < MEM_SIZE
    ensures RunMem(rs)[x] == LastWrite(rs, x)
  {
    if rs != [] {
      MemoryIsLastWrite(rs[..|rs| - 1], x);
    }
  }

  lemma AnswersInit(rs: seq<Msg>)
    requires AllValid(rs) && rs != []
    ensures AllValid(rs[..|rs| - 1]) && Answers(rs)[..|rs| - 1] == Answers(rs[..|rs| - 1])
  {
  }

  lemma SliceOfInit(a: seq<Msg>, init: seq<Msg>, k: nat)
    requires k <= |init| <= |a| && a[..|init|] == init
    ensures a[..k] == init[..k]
  {
  }

  lemma {:induction false} AnswersOfPrefix(rs: seq<Msg>, k: nat)
    requires AllValid(rs) && k <= |rs|
    ensures AllValid(rs[..k]) && Answers(rs[..k]) == Answers(rs)[..k]
    decreases |rs|
  {
    if k == |rs| {
      assert rs[..k] == rs;
    } else {
      var init := rs[..|rs| - 1];
      AnswersOfPrefix(init, k);
      assert init[..k] == rs[..k];
      AnswersInit(rs);
      SliceOfInit(Answers(rs), Answers(init), k);
    }
  }

  /** The i-th answer is given by the memory the requests before it left. */
  lemma {:induction false} AnswerAt(rs: seq<Msg>, i: nat)
    requires AllValid(rs) && i < |rs|
    ensures AllValid(rs[..i])
    ensures Answers(rs)[i] == Answer(RunMem(rs[..i]), rs[i])
    decreases |rs|
  {
    var init := rs[..|rs| - 1];
    if i < |init| {
      AnswerAt(init, i);
      assert init[..i] == rs[..i];
      AnswersInit(rs);
      assert Answers(rs)[i] == Answers(init)[i];
    } else {
      assert rs[..i] == init;
    }
  }

  /** A read returns, at each address it covers, the last byte written there. */
  lemma ReadReturnsLastWrites(rs: seq<Msg>, m: Msg, j: nat)
    requires AllValid(rs) && Valid(m) && IsGet(m) && j < Pow2(m.header.size)
    ensures |GetResponse(RunMem(rs), m).payload| == Pow2(m.header.size)
    ensures GetResponse(RunMem(rs), m).payload[j] == LastWrite(rs, Offset(m) + j)
  {
    MemoryIsLastWrite(rs, Offset(m) + j);
  }

  /**
   r has the whole header the answer to m should have, every field neither asked for nor
   named here being 0, and as many bytes as m reads.
   */
  predicate AnswersTo(r: Msg, m: Msg) {
    var h := r.header;
    && h.chan == CHANNEL_D && h.source == m.header.source
    && h.opcode == (if IsGet(m) then 1 else 0) && h.size == (if IsGet(m) then m.header.size else 0)
    && h.err == h.domain == h.param == h.reserved == h.reserved1 == h.reserved2 == 0
    && |r.payload| == (if IsGet(m) then Pow2(m.header.size) else 0)
  }

  lemma ResponsesAnswer(mem: Memory, m: Msg)
    requires |mem| == MEM_SIZE && WellSized(m) && IsAccess(m) && InBounds(m)
    ensures IsPutFull(m) ==> AnswersTo(PutResponse(m), m)
    ensures IsGet(m) ==> AnswersTo(GetResponse(mem, m), m)
  {
  }

  lemma AnswerShape(mem: Memory, m: Msg)
    requires |mem| == MEM_SIZE && Valid(m)
    ensures var r := Answer(mem, m);
            && AnswersTo(r, m) && (IsGet(m) ==> r == GetResponse(mem, m))
  {
    ResponsesAnswer(mem, m);
  }

  /** The i-th answer goes to the i-th source, with data or without, and its header says nothing else. */
  lemma AnswerKinds(rs: seq<Msg>, i: nat)
    requires AllValid(rs) && i < |rs|
    ensures AnswersTo(Answers(rs)[i], rs[i])
  {
    AnswerAt(rs, i);
    AnswerShape(RunMem(rs[..i]), rs[i]);
  }

  /** The payload is, byte by byte, what was last written at the addresses m covers. */
  predicate ReadsLast(r: Msg, before: seq<Msg>, m: Msg)
    requires AllValid(before) && Valid(m)
  {
    forall j :: 0 <= j < |r.payload| ==> r.payload[j] == LastWrite(before, Offset(m) + j)
  }

  lemma AnswerBytes(before: seq<Msg>, m: Msg)
    requires AllValid(before) && Valid(m) && IsGet(m)
    ensures ReadsLast(Answer(RunMem(before), m), before, m)
  {
    var r := Answer(RunMem(before), m);
    AnswerShape(RunMem(before), m);
    forall j | 0 <= j < |r.payload| ensures r.payload[j] == LastWrite(before, Offset(m) + j) {
      ReadReturnsLastWrites(before, m, j);
    }
  }

  /** If it answers a read, it returns the last byte written before at each address. */
  lemma AnswerReadsLastWrites(rs: seq<Msg>, i: nat)
    requires AllValid(rs) && i < |rs| && IsGet(rs[i])
    ensures AllValid(rs[..i]) && ReadsLast(Answers(rs)[i], rs[..i], rs[i])
  {
    AnswerAt(rs, i);
    AnswerBytes(rs[..i], rs[i]);
  }

  lemma AnswersSnoc(rs: seq<Msg>, m: Msg)
    requires AllValid(rs) && Valid(m)
    ensures AllValid(rs + [m])
    ensures RunMem(rs + [m]) == MemAfter(RunMem(rs), m)
    ensures Answers(rs + [m]) == Answers(rs) + [Answer(RunMem(rs), m)]
  {
  }

  // ----- Master and slave -----

  /** Only the master, side A, issues requests, and they are valid. */
  predicate MasterAsks(mv: Move) {
    mv.act.Ask? ==> mv.side.SideA? && Valid(mv.act.m)
  }

  /** The master: no requests to answer, and every request it issued is taken or waiting. */
  predicate MasterMem(n: Node) {
    && n.h.respBuf == [] && n.h.link.status != OutOfBounds
    && AllValid(n.asked) && n.asked == n.taken + n.h.msgBuf
  }

  /** The slave: the memory and the responses are those of the requests handled so far. */
  predicate SlaveMem(n: Node) {
    && n.h.msgBuf == [] && n.h.link.status != OutOfBounds
    && AllValid(n.handled)
    && n.h.mem == RunMem(n.handled)
    && n.taken + n.h.respBuf == Answers(n.handled)
  }

  predicate MemInv(w: System) {
    MasterMem(w.a) && SlaveMem(w.b)
  }

  lemma {:induction false} FlattenPrefix(fs: seq<Frame>, k: nat)
    requires k <= |fs|
    ensures Flatten(fs[..k]) <= Flatten(fs)
    decreases |fs|
  {
    if k == |fs| {
      assert fs[..k] == fs;
    } else {
      FlattenPrefix(fs[..|fs| - 1], k);
      assert fs[..|fs| - 1][..k] == fs[..k];
    }
  }

  /** The slave has received a prefix of what was asked, the master a prefix of the answers. */
  lemma Received(w: System, lag: int)
    requires SystemInv(w, lag)
    ensures w.b.delivered <= w.a.taken && w.a.delivered <= w.b.taken
  {
    FlattenPrefix(w.a.sent, w.b.got);
    FlattenPrefix(w.b.sent, w.a.got);
  }

  lemma AnswersAreResponses(rs: seq<Msg>)
    requires AllValid(rs)
    ensures forall i :: 0 <= i < |rs| ==> !IsAccess(Answers(rs)[i])
  {
    forall i | 0 <= i < |rs| ensures !IsAccess(Answers(rs)[i]) {
      AnswerKinds(rs, i);
    }
  }

  /** What follows done in a prefix of all is what follows it in all. */
  lemma RestOfPrefix(done: seq<Msg>, rest: seq<Msg>, all: seq<Msg>)
    requires done + rest <= all
    ensures forall i :: 0 <= i < |rest| ==> |done| + i < |all| && rest[i] == all[|done| + i]
  {
    forall i | 0 <= i < |rest| ensures |done| + i < |all| && rest[i] == all[|done| + i] {
      assert rest[i] == (done + rest)[|done| + i];
    }
  }

  lemma MasterInboxHasNoRequests(w: System, lag: int)
    requires SystemInv(w, lag) && MemInv(w)
    ensures forall i :: 0 <= i < |w.a.h.link.inbox| ==> !IsAccess(w.a.h.link.inbox[i])
  {
    Received(w, lag);
    AnswersAreResponses(w.b.handled);
    RestOfPrefix(w.a.handled, w.a.h.link.inbox, Answers(w.b.handled));
  }

  lemma SlaveInboxIsAsked(w: System, lag: int)
    requires SystemInv(w, lag) && MemInv(w)
    ensures AllValid(w.b.h.link.inbox)
  {
    Received(w, lag);
    RestOfPrefix(w.b.handled, w.b.h.link.inbox, w.a.asked);
  }

  /** The buffers after a transmit step are those select_buffer left. */
  lemma TransmitHost(n: Node, now: int)
    requires NodeInv(n) && ParkInv(n)
    ensures var n', c := AfterTransmit(n, now), Choose(n.h);
            && n'.h == c.host.(link := n'.h.link, pending := n'.h.pending)
            && n'.h.link.status == n.h.link.status
            && n'.asked == n.asked && n'.handled == n.handled
            && n'.taken == (if n.h.pending.None? && c.chosen.Some? then n.taken + [c.chosen.value] else n.taken)
  {
    TransmitEffect(n, now);
  }

  lemma MasterChooses(h: Host, taken: seq<Msg>)
    requires h.respBuf == []
    ensures var c := Choose(h);
            && c.host.respBuf == []
            && (if h.pending.None? && c.chosen.Some? then taken + [c.chosen.value] else taken) + c.host.msgBuf
               == taken + h.msgBuf
  {
  }

  lemma SlaveChooses(h: Host, taken: seq<Msg>)
    requires h.msgBuf == []
    ensures var c := Choose(h);
            && c.host.msgBuf == [] && c.host.mem == h.mem
            && (if h.pending.None? && c.chosen.Some? then taken + [c.chosen.value] else taken) + c.host.respBuf
               == taken + h.respBuf
  {
  }

  lemma MasterTransmit(n: Node, now: int)
    requires NodeInv(n) && ParkInv(n) && MasterMem(n)
    ensures MasterMem(AfterTransmit(n, now))
  {
    TransmitHost(n, now);
    MasterChooses(n.h, n.taken);
  }

  lemma SlaveTransmit(n: Node, now: int)
    requires NodeInv(n) && ParkInv(n) && SlaveMem(n)
    ensures SlaveMem(AfterTransmit(n, now))
  {
    TransmitHost(n, now);
    SlaveChooses(n.h, n.taken);
  }

  lemma MasterAsk(n: Node, m: Msg)
    requires MasterMem(n) && Valid(m)
    ensures MasterMem(AfterAsk(n, m))
  {
  }

  lemma MasterServe(n: Node)
    requires NodeInv(n) && MasterMem(n)
    requires forall i :: 0 <= i < |n.h.link.inbox| ==> !IsAccess(n.h.link.inbox[i])
    ensures MasterMem(AfterServe(n))
  {
  }

  /** A handled Get or PutFullData updates the memory and yields exactly one response. */
  lemma HandleAccess(h: Host)
    requires HostShape(h) && CanHandle(h) && h.link.status.Running? && Valid(h.link.inbox[0])
    ensures var m, h' := h.link.inbox[0], Handle(h);
            && h'.mem == MemAfter(h.mem, m) && h'.respBuf == h.respBuf + [Answer(h.mem, m)]
            && h'.msgBuf == h.msgBuf && h'.link.status.Running? && h'.link.inbox == h.link.inbox[1..]
            && h'.stats == h.stats
  {
  }

  lemma SlaveServe(n: Node)
    requires NodeInv(n) && SlaveMem(n) && n.h.link.status.Running? && AllValid(n.h.link.inbox)
    ensures SlaveMem(AfterServe(n))
  {
    if CanHandle(n.h) {
      HandleAccess(n.h);
      SlaveAnswers(n, AfterServe(n), n.h.link.inbox[0]);
    }
  }

  lemma SlaveAnswers(n: Node, n': Node, m: Msg)
    requires AllValid(n.handled) && Valid(m)
    requires n.h.mem == RunMem(n.handled) && n.taken + n.h.respBuf == Answers(n.handled)
    requires n'.handled == n.handled + [m] && n'.taken == n.taken
    requires n'.h.mem == MemAfter(n.h.mem, m) && n'.h.respBuf == n.h.respBuf + [Answer(n.h.mem, m)]
    ensures AllValid(n'.handled) && n'.h.mem == RunMem(n'.handled)
    ensures n'.taken + n'.h.respBuf == Answers(n'.handled)
  {
    AnswersSnoc(n.handled, m);
    assert n'.taken + n'.h.respBuf == (n.taken + n.h.respBuf) + [Answer(n.h.mem, m)];
  }

  lemma ReceiveKeepsHost(n: Node, p: Node, inc: seq<Flight>, out: seq<Flight>, lag: int, now: int)
    requires Inv(n, p, inc, out, lag) && inc != [] && inc[0].frame.chan < CHANNEL_NUM
    ensures var n' := AfterReceive(n, inc[0], now);
            && n'.h == n.h.(link := n'.h.link)
            && n' == n.(h := n'.h, got := n'.got, delivered := n'.delivered, parked := n'.parked)
            && (n'.h.link.status == OutOfBounds ==> n.h.link.status == OutOfBounds)
  {
    var fl := inc[0];
    assert BwdOk(n, p, fl) && FwdOk(p, n, fl, lag);
    IncomingFits(n, p, fl, lag);
    ReceiveEffect(n, fl, now);
  }

  lemma ReceiveKeepsMem(n: Node, p: Node, inc: seq<Flight>, out: seq<Flight>, lag: int, now: int)
    requires Inv(n, p, inc, out, lag) && inc != [] && inc[0].frame.chan < CHANNEL_NUM
    ensures MasterMem(n) ==> MasterMem(AfterReceive(n, inc[0], now))
    ensures SlaveMem(n) ==> SlaveMem(AfterReceive(n, inc[0], now))
  {
    ReceiveKeepsHost(n, p, inc, out, lag, now);
  }

  lemma MasterStepKeepsMem(w: System, act: Action, lag: int)
    requires SystemInv(w, lag) && MemInv(w)
    requires Enabled(At(w, SideA), act) && (act.Ask? ==> Valid(act.m))
    ensures MasterMem(LocalStep(At(w, SideA), act).n)
  {
    match act {
      case Ask(m) => MasterAsk(w.a, m);
      case Transmit(now) => MasterTransmit(w.a, now);
      case Receive(now) => ReceiveKeepsMem(w.a, w.b, w.ba, w.ab, lag, now);
      case Serve =>
        MasterInboxHasNoRequests(w, lag);
        MasterServe(w.a);
      case Lose(_) =>
    }
  }

  lemma SlaveStepKeepsMem(w: System, act: Action, lag: int)
    requires SystemInv(w, lag) && MemInv(w)
    requires Enabled(At(w, SideB), act) && !act.Ask?
    ensures SlaveMem(LocalStep(At(w, SideB), act).n)
  {
    match act {
      case Transmit(now) => SlaveTransmit(w.b, now);
      case Receive(now) =>
        InvSymmetric(w.a, w.b, w.ba, w.ab, lag);
        ReceiveKeepsMem(w.b, w.a, w.ab, w.ba, lag, now);
      case Serve =>
        SlaveInboxIsAsked(w, lag);
        SlaveServe(w.b);
      case Lose(_) =>
    }
  }

  lemma StartHasMem(w: System)
    requires Start(w)
    ensures MemInv(w)
  {
  }

  predicate MasterRun(mvs: seq<Move>) {
    forall k :: 0 <= k < |mvs| ==> MasterAsks(mvs[k])
  }

  predicate ServerInv(w: System, lag: int) {
    SystemInv(w, lag) && MemInv(w)
  }

  lemma StepKeepsMem(w: System, mv: Move, lag: int)
    requires SystemInv(w, lag) && MemInv(w) && Enabled(At(w, mv.side), mv.act) && MasterAsks(mv)
    ensures MemInv(Put(w, mv.side, LocalStep(At(w, mv.side), mv.act)))
  {
    if mv.side.SideA? {
      MasterStepKeepsMem(w, mv.act, lag);
    } else {
      SlaveStepKeepsMem(w, mv.act, lag);
    }
  }

  lemma StepKeepsServer(w: System, mv: Move, w': System, lag: int)
    requires ServerInv(w, lag) && Step(w, mv, w') && MasterAsks(mv)
    ensures ServerInv(w', lag)
  {
    StepKeepsInv(w, mv, w', lag);
    StepKeepsMem(w, mv, lag);
  }

  lemma RunStepKeepsServer(ws: seq<System>, mvs: seq<Move>, lag: int, i: nat)
    requires IsRun(ws, mvs) && MasterRun(mvs) && 0 < i < |ws| && ServerInv(ws[i - 1], lag)
    ensures ServerInv(ws[i], lag)
  {
    StepKeepsServer(ws[i - 1], mvs[i - 1], ws[i], lag);
  }

  lemma RunKeepsServer(ws: seq<System>, mvs: seq<Move>, lag: int, i: nat)
    requires IsRun(ws, mvs) && MasterRun(mvs) && ServerInv(ws[0], lag) && i < |ws|
    ensures ServerInv(ws[i], lag)
  {
    var keeps := (w: System) => ServerInv(w, lag);
    forall k | 0 < k < |ws| && keeps(ws[k - 1]) ensures keeps(ws[k]) {
      RunStepKeepsServer(ws, mvs, lag, k);
    }
    Throughout(ws, keeps, i);
  }

  lemma PrefixOfPrefix(a: seq<Msg>, b: seq<Msg>, rs: seq<Msg>, qs: seq<Msg>)
    requires AllValid(qs) && rs <= qs && AllValid(rs)
    requires a <= b && b <= Answers(rs)
    ensures a <= Answers(qs)
  {
    AnswersOfPrefix(qs, |rs|);
    assert qs[..|rs|] == rs;
  }

  lemma AcceptedArePrefix(w: System, lag: int)
    requires ServerInv(w, lag)
    ensures w.a.delivered <= Answers(w.a.asked)
  {
    Received(w, lag);
    assert w.b.handled <= w.b.delivered <= w.a.taken <= w.a.asked;
    PrefixOfPrefix(w.a.delivered, w.b.taken, w.b.handled, w.a.asked);
  }

  /**
   In every run with losses, timeouts and any interleaving in which only the master asks,
   the responses the master has accepted are a prefix of the answers a zeroed sequential
   memory gives to the master's requests, taken one by one in the order they were asked;
   no request is refused and no response is dropped.
   */
  lemma SequentialMemory(ws: seq<System>, mvs: seq<Move>, i: nat)
    requires IsRun(ws, mvs) && Start(ws[0]) && i < |ws|
    requires MasterRun(mvs)
    ensures AllValid(ws[i].a.asked)
    ensures ws[i].a.delivered <= Answers(ws[i].a.asked)
    ensures ws[i].b.h.link.status != OutOfBounds
    ensures ws[i].a.h.stats.dropResponse == 0 && ws[i].b.h.stats.dropResponse == 0
  {
    StartHasInv(ws[0]);
    StartHasMem(ws[0]);
    RunKeepsServer(ws, mvs, WINDOW_SIZE, i);
    AcceptedArePrefix(ws[i], WINDOW_SIZE);
  }
}
