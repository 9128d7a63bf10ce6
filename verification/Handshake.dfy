/**
 Opening a connection (tloe_connection.c): the two polling loops as turns and as runs of
 turns, and the master alone against whatever it hears.
 */
module Handshake {
  import opened Options
  import opened Bits
  import opened SeqNum
  import opened TileLink
  import opened FlowSpec
  import opened LinkSpec

  // ----- Turns of the two loops -----

  /** Number k announces channel k + 1. */
  function OpeningFrame(master: bool, k: nat, nextRx: int): Frame {
    Frame(if master && k == 0 then TYPE_OPEN_CONNECTION else TYPE_NORMAL, k, Prev(nextRx), TLOE_ACK,
          k + 1, CREDIT_DEFAULT, [])
  }

  /** serve_conn_master, serve_conn_slave: one frame for each channel A to E */
  function Round(master: bool, nextRx: int): (fs: seq<Frame>)
    ensures |fs| == 5
  {
    seq(5, k requires 0 <= k < 5 => OpeningFrame(master, k, nextRx))
  }

  lemma RoundAt(master: bool, nextRx: int, k: nat)
    requires k < 5
    ensures Round(master, nextRx)[k] == OpeningFrame(master, k, nextRx)
  {
  }

  /** An endpoint inside open_conn: the loop's variables and whether it has returned. */
  datatype Opening = Opening(ep: Ep, timer: bool, started: bool, flag: bool, done: bool)

  datatype Turn = Turn(o: Opening, frames: seq<Frame>)

  predicate Openable(e: Ep) {
    |e.credits| == |e.flow| == CHANNEL_NUM
  }

  /** Set the credit a frame announces and expect the number after it. */
  function TakeOpening(e: Ep, f: Frame): Ep
    requires Openable(e) && f.chan < CHANNEL_NUM
  {
    e.(credits := SetCredit(e.credits, f.chan, f.credit), flow := e.flow[f.chan := 0],
       nextRx := Next(f.seqNum), ackedSeq := UpdateAcked(e.ackedSeq, f.seqAck))
  }

  /** recv_conn_master */
  function RecvMaster(e: Ep, f: Frame): Ep
    requires Openable(e) && f.chan < CHANNEL_NUM
  {
    if Cmp(f.seqNum, e.nextRx) == 0 then TakeOpening(e, f) else e
  }

  function FinalFrame(e: Ep, ftype: int): Frame {
    Frame(ftype, e.nextTx, Prev(e.nextRx), TLOE_ACK, 0, 0, [])
  }

  /** The body of the loop in open_conn_master, with the frame received and the timer's answer. */
  function MasterPoll(o: Opening, recv: Option<Frame>, expired: bool): (t: Turn)
    requires Openable(o.ep) && (recv.Some? ==> recv.value.chan < CHANNEL_NUM)
    ensures Openable(t.o.ep)
  {
    var e1 := if o.timer then o.ep.(nextTx := 5) else o.ep;
    var out := if o.timer then Round(true, o.ep.nextRx) else [];
    var e2 := if recv.Some? then RecvMaster(e1, recv.value) else e1;
    Turn(Opening(e2, expired, true, o.flag, AllChannelsFilled(e2.credits)), out)
  }

  /** What follows the loop in open_conn_master. */
  function MasterFinish(t: Turn): Turn {
    if !t.o.done then t
    else Turn(t.o.(ep := t.o.ep.(nextTx := Next(t.o.ep.nextTx))), t.frames + [FinalFrame(t.o.ep, TYPE_NORMAL)])
  }

  function MasterTurn(o: Opening, recv: Option<Frame>, expired: bool): Turn
    requires Openable(o.ep) && (recv.Some? ==> recv.value.chan < CHANNEL_NUM)
  {
    MasterFinish(MasterPoll(o, recv, expired))
  }

  /** The body of the loop in open_conn_slave; a timer never started counts as expired. */
  function SlavePoll(o: Opening, recv: Option<Frame>, expired: bool): (t: Turn)
    requires Openable(o.ep) && (recv.Some? ==> recv.value.chan < CHANNEL_NUM)
    ensures Openable(t.o.ep)
  {
    var serve := o.flag && o.timer;
    var e1 := if serve then o.ep.(nextTx := 5) else o.ep;
    var out := if serve then Round(false, o.ep.nextRx) else [];
    var started := o.started || serve;
    var flag := o.flag || (recv.Some? && recv.value.ftype == TYPE_OPEN_CONNECTION);
    var e2 := if recv.Some? && flag then TakeOpening(e1, recv.value) else e1;
    var timer := if started then expired else true;
    Turn(Opening(e2, timer, started, flag, AllChannelsFilled(e2.credits)), out)
  }

  /** What follows the loop in open_conn_slave. */
  function SlaveFinish(t: Turn): Turn {
    if !t.o.done then t else Turn(t.o, t.frames + [FinalFrame(t.o.ep, TYPE_ACKONLY)])
  }

  function SlaveTurn(o: Opening, recv: Option<Frame>, expired: bool): Turn
    requires Openable(o.ep) && (recv.Some? ==> recv.value.chan < CHANNEL_NUM)
  {
    SlaveFinish(SlavePoll(o, recv, expired))
  }

  /** A turn of either loop, with what follows the loop if it was the last. */
  function LoopTurn(master: bool, o: Opening, recv: Option<Frame>, expired: bool): Turn
    requires Openable(o.ep) && (recv.Some? ==> recv.value.chan < CHANNEL_NUM)
  {
    if master then MasterTurn(o, recv, expired) else SlaveTurn(o, recv, expired)
  }

  // ----- Whole runs of the two loops -----

  /** What one turn of a loop meets: a frame or none, and the timer's answer. */
  datatype Event = Event(recv: Option<Frame>, expired: bool)

  predicate Channeled(evs: seq<Event>) {
    forall i :: 0 <= i < |evs| ==> (evs[i].recv.Some? ==> evs[i].recv.value.chan < CHANNEL_NUM)
  }

  /** One side after a sequence of turns, with all it sent; it takes no turn once it has returned. */
  function RunOpen(master: bool, o: Opening, evs: seq<Event>): (r: Turn)
    requires Openable(o.ep) && Channeled(evs)
    ensures Openable(r.o.ep)
  {
    if evs == [] then Turn(o, [])
    else
      var p := RunOpen(master, o, evs[..|evs| - 1]);
      var ev := evs[|evs| - 1];
      if p.o.done then p
      else
        var t := LoopTurn(master, p.o, ev.recv, ev.expired);
        Turn(t.o, p.frames + t.frames)
  }

  /** An endpoint after tloe_endpoint_init, entering open_conn. */
  predicate IsInitial(o: Opening) {
    && o.ep == Ep(Running, 0, 0, MAX_SEQ_NUM, [], [], [], [128, 128, 128, 128, 128, 128], [0, 0, 0, 0, 0, 0],
                  false, false, Counters(0, 0, 0, 0))
    && o.timer && !o.started && !o.flag && !o.done
  }

  // ----- The master alone, against any loss and repetition -----

  /** A frame of a slave that announces channel k + 1 under number k; later numbers are free. */
  predicate FromSlave(f: Frame) {
    && f.chan < CHANNEL_NUM && IsSeq(f.seqNum)
    && (f.seqNum < 5 ==> f.chan == f.seqNum + 1 && f.credit == CREDIT_DEFAULT)
  }

  /** Channels 1 to k hold 2^10 credits, the others still 2^7. */
  predicate Filled(credits: seq<int>, k: int) {
    && |credits| == CHANNEL_NUM
    && forall c :: CHANNEL_A <= c <= CHANNEL_E ==> credits[c] == if c <= k then 1024 else 128
  }

  predicate MasterInv(o: Opening) {
    && 0 <= o.ep.nextRx <= 5 && |o.ep.flow| == CHANNEL_NUM
    && Filled(o.ep.credits, o.ep.nextRx)
    && (o.done <==> o.ep.nextRx == 5)
  }

  lemma FilledDecides(credits: seq<int>, k: int)
    requires 0 <= k <= 5 && Filled(credits, k)
    ensures AllChannelsFilled(credits) <==> k == 5
  {
    Pow2Values();
    if k < 5 {
      assert credits[5] == 128;
    }
  }

  lemma FillNext(e: Ep, f: Frame)
    requires 0 <= e.nextRx < 5 && Filled(e.credits, e.nextRx) && |e.flow| == CHANNEL_NUM
    requires f.seqNum == e.nextRx && f.chan == f.seqNum + 1 && f.credit == CREDIT_DEFAULT
    ensures var r := TakeOpening(e, f);
            r.nextRx == e.nextRx + 1 && Filled(r.credits, r.nextRx) && |r.flow| == CHANNEL_NUM
  {
    Pow2Values();
  }

  lemma MasterTurnKeeps(o: Opening, recv: Option<Frame>, expired: bool)
    requires MasterInv(o) && !o.done && (recv.Some? ==> FromSlave(recv.value))
    ensures MasterInv(MasterTurn(o, recv, expired).o)
  {
    var e1 := if o.timer then o.ep.(nextTx := 5) else o.ep;
    if recv.Some? && Cmp(recv.value.seqNum, e1.nextRx) == 0 {
      FillNext(e1, recv.value);
    }
    var e2 := if recv.Some? then RecvMaster(e1, recv.value) else e1;
    FilledDecides(e2.credits, e2.nextRx);
  }

  predicate AllFromSlave(evs: seq<Event>) {
    forall i :: 0 <= i < |evs| ==> (evs[i].recv.Some? ==> FromSlave(evs[i].recv.value))
  }

  lemma {:induction false} MasterRunKeeps(o: Opening, evs: seq<Event>)
    requires MasterInv(o) && AllFromSlave(evs)
    ensures MasterInv(RunOpen(true, o, evs).o)
  {
    if evs != [] {
      var ev := evs[|evs| - 1];
      var p := RunOpen(true, o, evs[..|evs| - 1]);
      MasterRunKeeps(o, evs[..|evs| - 1]);
      if !p.o.done {
        MasterTurnKeeps(p.o, ev.recv, ev.expired);
      }
    }
  }

  /**
   Whatever is lost, repeated or delayed: when the master expects number k it has filled
   exactly channels 1 to k, and it returns exactly when k is 5.
   */
  lemma MasterFillsPrefix(o: Opening, evs: seq<Event>)
    requires IsInitial(o) && AllFromSlave(evs)
    ensures var r := RunOpen(true, o, evs).o;
            && 0 <= r.ep.nextRx <= 5
            && (forall c :: CHANNEL_A <= c <= CHANNEL_E ==> r.ep.credits[c] == if c <= r.ep.nextRx then 1024 else 128)
            && (r.done <==> r.ep.nextRx == 5)
  {
    MasterRunKeeps(o, evs);
  }
}
