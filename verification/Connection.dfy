/** open_conn_master and open_conn_slave, in place on a link (tloe_connection.c). */
module Connections {
  import opened Options
  import opened SeqNum
  import opened TileLink
  import opened FlowSpec
  import opened LinkSpec
  import opened Endpoints
  import opened Handshake

  /** serve_conn_master and serve_conn_slave: send_frame for every channel, counting along */
  method ServeRound(link: Link, master: bool) returns (frames: seq<Frame>)
    requires link.Valid()
    modifies link`nextTx
    ensures link.Valid()
    ensures frames == Round(master, old(link.nextRx))
    ensures link.View() == old(link.View()).(nextTx := 5)
  {
    frames := [];
    ghost var view, round := link.View(), Round(master, link.nextRx);
    for i := 1 to 6
      invariant link.Valid()
      invariant i > 1 ==> link.nextTx == i - 1
      invariant link.View() == view.(nextTx := link.nextTx)
      invariant frames == round[..i - 1]
    {
      RoundAt(master, view.nextRx, i - 1);
      assert round[..i] == round[..i - 1] + [round[i - 1]];
      var ftype := if master && i == CHANNEL_A then TYPE_OPEN_CONNECTION else TYPE_NORMAL;
      frames := frames + [Frame(ftype, i - 1, Prev(link.nextRx), TLOE_ACK, i, CREDIT_DEFAULT, [])];
      link.nextTx := i;
    }
  }

  method TakeCredits(link: Link, f: Frame)
    requires link.Valid() && f.chan < CHANNEL_NUM
    modifies link`nextRx, link`ackedSeq, link.fc.credits, link.fc.flow
    ensures link.Valid() && link.View() == TakeOpening(old(link.View()), f)
  {
    link.fc.SetCredit(f.chan, f.credit);
    link.nextRx := Next(f.seqNum);
    link.ackedSeq := UpdateAcked(link.ackedSeq, f.seqAck);
  }

  /** recv_conn_master */
  method ReceiveMaster(link: Link, recv: Option<Frame>)
    requires link.Valid() && (recv.Some? ==> recv.value.chan < CHANNEL_NUM)
    modifies link`nextRx, link`ackedSeq, link.fc.credits, link.fc.flow
    ensures link.Valid()
    ensures link.View() == if recv.Some? then RecvMaster(old(link.View()), recv.value) else old(link.View())
  {
    if recv.Some? {
      if Cmp(recv.value.seqNum, link.nextRx) == 0 {
        TakeCredits(link, recv.value);
      }
    }
  }

  /** recv_conn_slave */
  method ReceiveSlave(link: Link, recv: Option<Frame>, connFlag: bool) returns (flag: bool)
    requires link.Valid() && (recv.Some? ==> recv.value.chan < CHANNEL_NUM)
    modifies link`nextRx, link`ackedSeq, link.fc.credits, link.fc.flow
    ensures link.Valid()
    ensures flag == (connFlag || (recv.Some? && recv.value.ftype == TYPE_OPEN_CONNECTION))
    ensures link.View() == if recv.Some? && flag then TakeOpening(old(link.View()), recv.value) else old(link.View())
  {
    flag := connFlag;
    if recv.Some? {
      if recv.value.ftype == TYPE_OPEN_CONNECTION {
        flag := true;
      }
      if flag {
        TakeCredits(link, recv.value);
      }
    }
  }

  /** One side entering open_conn */
  function Entering(e: Ep): Opening {
    Opening(e, true, false, false, false)
  }

  lemma {:induction false} RunStops(master: bool, o: Opening, evs: seq<Event>, i: nat)
    requires Openable(o.ep) && Channeled(evs) && i <= |evs|
    requires RunOpen(master, o, evs[..i]).o.done
    ensures RunOpen(master, o, evs) == RunOpen(master, o, evs[..i])
    decreases |evs|
  {
    if i == |evs| {
      assert evs[..i] == evs;
    } else {
      var init := evs[..|evs| - 1];
      assert init[..i] == evs[..i];
      RunStops(master, o, init, i);
    }
  }

  function Poll(master: bool, o: Opening, ev: Event): Turn
    requires Openable(o.ep) && (ev.recv.Some? ==> ev.recv.value.chan < CHANNEL_NUM)
  {
    if master then MasterPoll(o, ev.recv, ev.expired) else SlavePoll(o, ev.recv, ev.expired)
  }

  function Finish(master: bool, t: Turn): Turn {
    if master then MasterFinish(t) else SlaveFinish(t)
  }

  /** One more turn of the loop, the frame after the loop coming last. */
  lemma RunSnoc(master: bool, o: Opening, evs: seq<Event>, i: nat)
    requires Openable(o.ep) && Channeled(evs) && i < |evs|
    requires !RunOpen(master, o, evs[..i]).o.done
    ensures var p := RunOpen(master, o, evs[..i]);
            var t := Poll(master, p.o, evs[i]);
            RunOpen(master, o, evs[..i + 1]) == Finish(master, Turn(t.o, p.frames + t.frames))
  {
    assert evs[..i + 1][..i] == evs[..i];
  }

  /** The body of the loop in open_conn_master */
  method PollMaster(link: Link, ev: Event, timer: bool, started: bool)
    returns (frames: seq<Frame>, timer': bool, started': bool, done: bool)
    requires link.Valid() && (ev.recv.Some? ==> ev.recv.value.chan < CHANNEL_NUM)
    requires timer || started
    modifies link`nextTx, link`nextRx, link`ackedSeq, link.fc.credits, link.fc.flow
    ensures link.Valid()
    ensures Turn(Opening(link.View(), timer', started', false, done), frames)
         == MasterPoll(Opening(old(link.View()), timer, started, false, false), ev.recv, ev.expired)
  {
    frames, started' := [], started;
    if timer {
      frames := ServeRound(link, true);
      started' := true;
    }
    ReceiveMaster(link, ev.recv);
    done := link.fc.CheckAllChannels();
    timer' := ev.expired;
  }

  /** The body of the loop in open_conn_slave */
  method PollSlave(link: Link, ev: Event, timer: bool, started: bool, flag: bool)
    returns (frames: seq<Frame>, timer': bool, started': bool, flag': bool, done: bool)
    requires link.Valid() && (ev.recv.Some? ==> ev.recv.value.chan < CHANNEL_NUM)
    modifies link`nextTx, link`nextRx, link`ackedSeq, link.fc.credits, link.fc.flow
    ensures link.Valid()
    ensures Turn(Opening(link.View(), timer', started', flag', done), frames)
         == SlavePoll(Opening(old(link.View()), timer, started, flag, false), ev.recv, ev.expired)
  {
    frames, started' := [], started;
    if flag && timer {
      frames := ServeRound(link, false);
      started' := true;
    }
    flag' := ReceiveSlave(link, ev.recv, flag);
    done := link.fc.CheckAllChannels();
    timer' := if started' then ev.expired else true;
  }

  /** open_conn_master, for as many turns as evs describes */
  method OpenMaster(link: Link, evs: seq<Event>) returns (frames: seq<Frame>, timer: bool, started: bool, done: bool)
    requires link.Valid() && Channeled(evs)
    modifies link`nextTx, link`nextRx, link`ackedSeq, link.fc.credits, link.fc.flow
    ensures link.Valid()
    ensures Turn(Opening(link.View(), timer, started, false, done), frames)
         == RunOpen(true, Entering(old(link.View())), evs)
  {
    ghost var o := Entering(link.View());
    frames, timer, started, done := [], true, false, false;
    var i := 0;
    while !done && i < |evs|
      invariant link.Valid() && i <= |evs| && (timer || started)
      invariant Finish(true, Turn(Opening(link.View(), timer, started, false, done), frames))
             == RunOpen(true, o, evs[..i])
      decreases |evs| - i
    {
      RunSnoc(true, o, evs, i);
      var more;
      more, timer, started, done := PollMaster(link, evs[i], timer, started);
      frames := frames + more;
      i := i + 1;
    }
    if done {
      RunStops(true, o, evs, i);
      frames := frames + [Frame(TYPE_NORMAL, link.nextTx, Prev(link.nextRx), TLOE_ACK, 0, 0, [])];
      link.nextTx := Next(link.nextTx);
    } else {
      assert evs[..i] == evs;
    }
  }

  /** open_conn_slave, for as many turns as evs describes */
  method OpenSlave(link: Link, evs: seq<Event>)
    returns (frames: seq<Frame>, timer: bool, started: bool, flag: bool, done: bool)
    requires link.Valid() && Channeled(evs)
    modifies link`nextTx, link`nextRx, link`ackedSeq, link.fc.credits, link.fc.flow
    ensures link.Valid()
    ensures Turn(Opening(link.View(), timer, started, flag, done), frames)
         == RunOpen(false, Entering(old(link.View())), evs)
  {
    ghost var o := Entering(link.View());
    frames, timer, started, flag, done := [], true, false, false, false;
    var i := 0;
    while !done && i < |evs|
      invariant link.Valid() && i <= |evs|
      invariant Finish(false, Turn(Opening(link.View(), timer, started, flag, done), frames))
             == RunOpen(false, o, evs[..i])
      decreases |evs| - i
    {
      RunSnoc(false, o, evs, i);
      var more;
      more, timer, started, flag, done := PollSlave(link, evs[i], timer, started, flag);
      frames := frames + more;
      i := i + 1;
    }
    if done {
      RunStops(false, o, evs, i);
      frames := frames + [Frame(TYPE_ACKONLY, link.nextTx, Prev(link.nextRx), TLOE_ACK, 0, 0, [])];
    } else {
      assert evs[..i] == evs;
    }
  }
}
