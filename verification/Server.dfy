/** The scheduler, the memory server and the main loop around a link, in place. */
module Servers {
  import opened Options
  import opened Bits
  import opened TileLink
  import opened FlowSpec
  import opened LinkSpec
  import opened HostSpec
  import opened CircularQueues
  import opened Endpoints
  import opened SeqNum
  import opened LinkFacts

  /** o is none of the objects a link is made of */
  ghost predicate Apart(o: object, l: Link) {
    && o != l && o != l.fc && o != l.window && o != l.ackBuf && o != l.inbox
    && o != l.fc.credits && o != l.fc.flow && o != l.window.data && o != l.ackBuf.data && o != l.inbox.data
  }

  lemma ChosenIsWellSized(h: Host)
    requires HostShape(h)
    ensures Choose(h).host.link == h.link
    ensures Choose(h).chosen.Some? ==> Choose(h).chosen.value.header.chan < CHANNEL_NUM
  {
  }

  lemma ConcatWellSized(a: seq<Msg>, b: seq<Msg>)
    requires AllWellSized(a) && AllWellSized(b)
    ensures AllWellSized(a + b)
  {
  }

  lemma ChooseKeepsShape(h: Host)
    requires HostShape(h)
    ensures HostShape(Choose(h).host)
    ensures Choose(h).chosen.Some? ==> WellSized(Choose(h).chosen.value)
  {
  }

  /** TX leaves an endpoint on which RX and the handler can run. */
  lemma TransmitKeepsShape(h: Host, now: int)
    requires HostShape(h)
    ensures HostShape(Transmit(h, now).host) && Transmit(h, now).host.link.status == h.link.status
  {
    ChooseKeepsShape(h);
    var c := Choose(h);
    ChosenIsWellSized(h);
    TxKeepsShape(c.host.link, c.chosen, now);
  }

  /** So does RX, on a frame whose messages are well sized. */
  lemma ReceiveKeepsShape(h: Host, f: Frame, now: int)
    requires HostShape(h) && f.chan < CHANNEL_NUM && IsSeq(f.seqAck) && AllWellSized(f.msgs)
    ensures HostShape(Receive(h, f, now).host)
  {
    RxKeepsShape(h.link, f, now);
    ConcatWellSized(h.link.inbox, f.msgs);
  }

  /** h with the oldest message off its inbox */
  function Popped(h: Host): Host
    requires h.link.inbox != []
  {
    h.(link := h.link.(inbox := h.link.inbox[1..]))
  }

  /** Taking the message off before dispatching it comes to the same as after. */
  lemma HandleByParts(h: Host)
    requires HostShape(h) && CanHandle(h) && h.link.status.Running?
    ensures var m := h.link.inbox[0];
            var d := Dispatch(Popped(h), m);
            && d.link == h.link.(inbox := h.link.inbox[1..], status := d.link.status)
            && Handle(h).link.status == d.link.status
            && (d.link.status.Running? ==>
                  Handle(h) == d.(link := d.link.(flow := AddFlow(d.link.flow, m.header.chan, Flits(m)))))
  {
  }

  class Endpoint {
    const link: Link
    const msgBuf: CircularQueue<Msg>    // message_buffer
    const respBuf: CircularQueue<Msg>   // response_buffer
    const mem: array<byte>              // mem_storage
    var selectCnt: int                  // buffer_select_counter
    var pending: Option<Msg>            // request_tlmsg carried around the loop
    var stats: Stats

    ghost function Repr(): set<object> {
      {this, mem} + link.Repr() + msgBuf.Repr() + respBuf.Repr()
    }

    ghost predicate Separate() {
      && msgBuf != respBuf && msgBuf.data != respBuf.data
      && (mem as object) != msgBuf.data && (mem as object) != respBuf.data
      && Apart(this, link) && Apart(mem, link)
      && Apart(msgBuf, link) && Apart(msgBuf.data, link) && Apart(respBuf, link) && Apart(respBuf.data, link)
    }

    ghost predicate Wired()
      reads Repr()
    {
      && Separate() && link.Valid() && msgBuf.Valid() && respBuf.Valid()
      && mem.Length == MEM_SIZE
      && msgBuf.size == MESSAGE_CAPACITY + 1 && respBuf.size == RESPONSE_CAPACITY + 1
    }

    ghost function View(): Host
      requires Wired()
      reads Repr()
    {
      Host(link.View(), selectCnt, pending, msgBuf.Contents(), respBuf.Contents(), mem[..], stats)
    }

    ghost predicate Valid()
      reads Repr()
    {
      Wired() && HostShape(View())
    }

    /** The rest of tloe_endpoint_init around a link, and tl_handler_init: a zeroed memory */
    constructor (l: Link)
      requires l.Valid()
      ensures Wired() && link == l
      ensures selectCnt == SELECT_PERIOD && pending == None && stats == Stats(0, 0, 0)
      ensures msgBuf.Contents() == [] && respBuf.Contents() == []
      ensures msgBuf.size == 10000 && respBuf.size == 100
      ensures forall i :: 0 <= i < MEM_SIZE ==> mem[i] == 0
      ensures View() == HostOf(l.View())
    {
      link := l;
      msgBuf := new CircularQueue<Msg>(10000);
      respBuf := new CircularQueue<Msg>(100);
      mem := new byte[MEM_SIZE](_ => 0);
      selectCnt := SELECT_PERIOD;
      pending := None;
      stats := Stats(0, 0, 0);
    }

    method PollResponses() returns (m: Option<Msg>)
      requires Wired()
      modifies respBuf`front
      ensures Wired()
      ensures var h := old(View());
              if h.respBuf == [] then m == None && View() == h
              else m == Some(h.respBuf[0]) && View() == h.(respBuf := h.respBuf[1..])
    {
      m := respBuf.Dequeue();
    }

    method PollMessages() returns (m: Option<Msg>)
      requires Wired()
      modifies this`selectCnt, msgBuf`front
      ensures Wired()
      ensures var h := old(View()).(selectCnt := SELECT_PERIOD);
              if h.msgBuf == [] then m == None && View() == h
              else m == Some(h.msgBuf[0]) && View() == h.(msgBuf := h.msgBuf[1..])
    {
      m := msgBuf.Dequeue();
      selectCnt := SELECT_PERIOD;
    }

    /** select_buffer */
    method SelectBuffer() returns (m: Option<Msg>)
      requires Wired()
      modifies this`selectCnt, msgBuf`front, respBuf`front
      ensures Wired()
      ensures Selection(View(), m) == HostSpec.SelectBuffer(old(View()))
    {
      ghost var h := View();
      selectCnt := selectCnt - 1;
      assert View() == h.(selectCnt := h.selectCnt - 1);
      if selectCnt > 0 {
        m := PollResponses();
        if m.Some? {
          return;
        }
      }
      m := PollMessages();
    }

    method Respond(resp: Msg)
      requires Wired()
      modifies this`stats, respBuf`rear, respBuf.data
      ensures Wired()
      ensures View() == HostSpec.Respond(old(View()), resp)
    {
      var ok := respBuf.Enqueue(resp);
      if !ok {
        stats := stats.(dropResponse := stats.dropResponse + 1);
      }
    }

    /** memcpy of a write into mem_storage */
    method Store(m: Msg)
      requires Wired() && WellSized(m) && IsPutFull(m) && InBounds(m)
      modifies mem
      ensures Wired()
      ensures View() == old(View()).(mem := PutMem(old(View()).mem, m))
    {
      CopyInto(mem, Offset(m), m.payload[8..8 + Pow2(m.header.size)]);
    }

    /** handle_A_PUTFULLDATA_opcode */
    method HandlePut(m: Msg)
      requires Wired() && WellSized(m) && IsPutFull(m)
      modifies this`stats, mem, respBuf`rear, respBuf.data, link`status
      ensures Wired()
      ensures View() == HostSpec.Dispatch(old(View()), m)
    {
      if !InBounds(m) {
        link.status := OutOfBounds;
        return;
      }
      Store(m);
      Respond(PutResponse(m));
    }

    /** handle_A_GET_opcode */
    method HandleGet(m: Msg)
      requires Wired() && WellSized(m) && IsGet(m)
      modifies this`stats, respBuf`rear, respBuf.data, link`status
      ensures Wired()
      ensures View() == HostSpec.Dispatch(old(View()), m)
    {
      if !InBounds(m) {
        link.status := OutOfBounds;
        return;
      }
      var resp := Load(m);
      Respond(resp);
    }

    /** memcpy of a read out of mem_storage */
    method Load(m: Msg) returns (resp: Msg)
      requires Wired() && WellSized(m) && IsGet(m) && InBounds(m)
      ensures resp == GetResponse(mem[..], m)
    {
      var o, n := Offset(m), Pow2(m.header.size);
      assert mem[..][o..o + n] == mem[o..o + n];
      resp := Msg(Blank(CHANNEL_D, D_ACCESSACKDATA, m.header.size, m.header.source), mem[o..o + n]);
    }

    /** The dispatch table of tl_handler */
    method Dispatch(m: Msg)
      requires Wired() && WellSized(m)
      modifies this`stats, mem, respBuf`rear, respBuf.data, link`status
      ensures Wired()
      ensures View() == HostSpec.Dispatch(old(View()), m)
    {
      if m.header.chan == CHANNEL_A && m.header.opcode == A_PUTFULLDATA {
        HandlePut(m);
      } else if m.header.chan == CHANNEL_A && m.header.opcode == A_GET {
        HandleGet(m);
      } else if m.header.chan == CHANNEL_D && m.header.opcode == D_ACCESSACK {
        stats := stats.(accessAck := stats.accessAck + 1);
      } else if m.header.chan == CHANNEL_D && m.header.opcode == D_ACCESSACKDATA {
        stats := stats.(accessAckData := stats.accessAckData + 1);
      }
    }

    /** tl_handler followed by add_channel_flow_credits; nothing is specified after an exit */
    method Serve()
      requires Valid() && link.status.Running?
      modifies this`stats, mem, respBuf`rear, respBuf.data, link`status, link.inbox`front, link.fc.flow
      ensures Wired()
      ensures var h := Handle(old(View()));
              link.status == h.link.status && (h.link.status.Running? ==> View() == h)
    {
      ghost var h := View();
      if link.inbox.IsEmpty() || respBuf.IsFull() {
        return;
      }
      var m := TakeMessage();
      assert View() == Popped(h);
      Dispatch(m);
      HandleByParts(h);
      if !link.status.Running? {
        return;
      }
      ReturnCredits(m);
    }

    method TakeMessage() returns (m: Msg)
      requires Wired() && link.inbox.Contents() != []
      modifies link.inbox`front
      ensures Wired() && m == old(View()).link.inbox[0]
      ensures View() == old(View()).(link := old(View()).link.(inbox := old(View()).link.inbox[1..]))
    {
      var r := link.inbox.Dequeue();
      m := r.value;
    }

    method ReturnCredits(m: Msg)
      requires Wired() && m.header.chan < CHANNEL_NUM
      modifies link.fc.flow
      ensures Wired()
      ensures var v := old(View());
              View() == v.(link := v.link.(flow := AddFlow(v.link.flow, m.header.chan, Flits(m))))
    {
      link.fc.AddFlowCredits(m.header.chan, Flits(m));
    }

    /** Lines 125-126 of the main loop */
    method NextRequest() returns (req: Option<Msg>)
      requires Wired()
      modifies this`selectCnt, msgBuf`front, respBuf`front
      ensures Wired()
      ensures Selection(View(), req) == Choose(old(View()))
    {
      req := pending;
      if req.None? {
        req := SelectBuffer();
      }
    }

    method SendLink(req: Option<Msg>, now: int) returns (frames: seq<Frame>, unsent: Option<Msg>)
      requires Wired()
      requires req.Some? ==> req.value.header.chan < CHANNEL_NUM
      modifies link, link.fc.credits, link.fc.flow, link.ackBuf`front, link.window`rear, link.window.data
      ensures Wired()
      ensures TxOut(link.View(), frames, unsent) == TxStep(old(link.View()), req, now)
      ensures View() == old(View()).(link := link.View())
    {
      frames, unsent := link.TX(req, now);
    }

    method Hold(unsent: Option<Msg>)
      requires Wired()
      modifies this`pending
      ensures Wired() && pending == unsent && link.View() == old(link.View())
      ensures View() == old(View()).(pending := unsent)
    {
      pending := unsent;
    }

    method SendRequest(req: Option<Msg>, now: int) returns (frames: seq<Frame>)
      requires Wired()
      requires req.Some? ==> req.value.header.chan < CHANNEL_NUM
      modifies this`pending, link, link.fc.credits, link.fc.flow, link.ackBuf`front, link.window`rear, link.window.data
      ensures Wired()
      ensures TxOut(link.View(), frames, pending) == TxStep(old(link.View()), req, now)
      ensures View() == old(View()).(link := link.View(), pending := pending)
    {
      var unsent;
      frames, unsent := SendLink(req, now);
      Hold(unsent);
    }

    /** Lines 125-138 of the main loop */
    method Send(now: int) returns (frames: seq<Frame>)
      requires Valid()
      modifies this, msgBuf`front, respBuf`front
      modifies link, link.fc.credits, link.fc.flow, link.ackBuf`front, link.window`rear, link.window.data
      ensures Wired()
      ensures HostOut(View(), frames) == Transmit(old(View()), now)
    {
      ghost var h := View();
      var req := NextRequest();
      ChosenIsWellSized(h);
      frames := SendRequest(req, now);
    }

    /** RX in the main loop, when the fabric has a frame */
    method Hear(f: Frame, now: int) returns (frames: seq<Frame>)
      requires Valid() && f.chan < CHANNEL_NUM && link.status.Running?
      modifies link, link.fc.credits, link.window`front, link.window.data
      modifies link.ackBuf`rear, link.ackBuf.data, link.inbox`rear, link.inbox.data
      ensures Wired()
      ensures var r := Receive(old(View()), f, now);
              && frames == r.frames && link.status == r.host.link.status
              && (link.status != InboxOverflow ==> View() == r.host)
    {
      frames := HearLink(f, now);
    }

    method HearLink(f: Frame, now: int) returns (frames: seq<Frame>)
      requires Wired() && f.chan < CHANNEL_NUM && link.status.Running?
      modifies link, link.fc.credits, link.window`front, link.window.data
      modifies link.ackBuf`rear, link.ackBuf.data, link.inbox`rear, link.inbox.data
      ensures Wired()
      ensures var r := RxStep(old(link.View()), f, now);
              && frames == r.frames && link.status == r.ep.status
              && (link.status != InboxOverflow ==> link.View() == r.ep)
      ensures View() == old(View()).(link := link.View())
    {
      frames := link.RX(f, now);
    }

    /**
     One turn of the main loop, with the frame the fabric had ready, if any: exactly a
     transmit, a receive and a serve step.  Nothing is specified once the process has exited.
     */
    method Iterate(f: Option<Frame>, now: int) returns (frames: seq<Frame>)
      requires Valid() && link.status.Running?
      requires f.Some? ==> f.value.chan < CHANNEL_NUM && IsSeq(f.value.seqAck) && AllWellSized(f.value.msgs)
      modifies Repr()
      ensures Wired()
      ensures var t := Transmit(old(View()), now);
              HostShape(t.host) && t.host.link.status.Running?
      ensures var t := Transmit(old(View()), now);
              var r := ReceiveMaybe(t.host, f, now);
              && frames == t.frames + r.frames
              && HostShape(r.host)
              && (r.host.link.status.Running? && Handle(r.host).link.status.Running? ==> View() == Handle(r.host))
              && (link.status.Running? <==> r.host.link.status.Running? && Handle(r.host).link.status.Running?)
    {
      ghost var h := View();
      TransmitKeepsShape(h, now);
      frames := Send(now);
      ghost var t := View();
      if f.Some? {
        ReceiveKeepsShape(t, f.value, now);
        var more := Hear(f.value, now);
        frames := frames + more;
      }
      if link.status.Running? {
        Serve();
      }
    }
  }
}
