/**
 The rest of an endpoint as functions on values: the buffer scheduler and main loop
 (tloe_endpoint.c) and the memory server (tilelink_handler.c).
 */
module HostSpec {
  import opened Options
  import opened Bits
  import opened TileLink
  import opened FlowSpec
  import opened LinkSpec

  const MESSAGE_CAPACITY: int := 9999   // create_queue(10000)
  const RESPONSE_CAPACITY: int := 99    // create_queue(100)
  const MEM_SIZE: int := 0x1_0000_0000
  const SELECT_PERIOD: int := 4

  type Memory = seq<byte>

  datatype Stats = Stats(accessAck: nat, accessAckData: nat, dropResponse: nat)

  datatype Host = Host(link: Ep, selectCnt: int, pending: Option<Msg>,
                       msgBuf: seq<Msg>, respBuf: seq<Msg>, mem: Memory, stats: Stats)

  predicate HostShape(h: Host) {
    && Shape(h.link)
    && |h.mem| == MEM_SIZE
    && |h.msgBuf| <= MESSAGE_CAPACITY && |h.respBuf| <= RESPONSE_CAPACITY
    && 1 <= h.selectCnt <= SELECT_PERIOD
    && (h.pending.Some? ==> WellSized(h.pending.value))
    && AllWellSized(h.msgBuf) && AllWellSized(h.respBuf) && AllWellSized(h.link.inbox)
  }

  predicate AllWellSized(ms: seq<Msg>) {
    forall i :: 0 <= i < |ms| ==> WellSized(ms[i])
  }

  // ----- Scheduler -----

  datatype Selection = Selection(host: Host, chosen: Option<Msg>)

  predicate PollsMessages(h: Host) {
    h.selectCnt - 1 <= 0 || h.respBuf == []
  }

  /** select_buffer */
  function SelectBuffer(h: Host): Selection {
    if !PollsMessages(h) then
      Selection(h.(selectCnt := h.selectCnt - 1, respBuf := h.respBuf[1..]), Some(h.respBuf[0]))
    else if h.msgBuf == [] then Selection(h.(selectCnt := SELECT_PERIOD), None)
    else Selection(h.(selectCnt := SELECT_PERIOD, msgBuf := h.msgBuf[1..]), Some(h.msgBuf[0]))
  }

  // ----- Memory server -----

  function ZeroMemory(): Memory {
    seq(MEM_SIZE, i => 0)
  }

  /** An endpoint with link e before the main loop: empty buffers and a zeroed memory. */
  function HostOf(e: Ep): Host {
    Host(e, SELECT_PERIOD, None, [], [], ZeroMemory(), Stats(0, 0, 0))
  }

  /** data[0] of a message with a 16-byte header */
  function Address(m: Msg): nat
    requires |m.payload| >= 8
  {
    LittleEndian(m.payload[..8])
  }

  function Offset(m: Msg): (o: nat)
    requires |m.payload| >= 8
    ensures o < MEM_SIZE
  {
    Address(m) % MEM_SIZE
  }

  predicate InBounds(m: Msg)
    requires |m.payload| >= 8
  {
    Offset(m) + Pow2(m.header.size) <= MEM_SIZE
  }

  function Blank(chan: nat, opcode: nat, size: nat, source: nat): TlHeader {
    TlHeader(source, 0, 0, 0, size, 0, 0, opcode, chan, 0)
  }

  /** handle_A_PUTFULLDATA_opcode: memory afterwards */
  function PutMem(mem: Memory, m: Msg): (r: Memory)
    requires |mem| == MEM_SIZE && WellSized(m) && IsPutFull(m) && InBounds(m)
    ensures |r| == MEM_SIZE
  {
    var o, n := Offset(m), Pow2(m.header.size);
    mem[..o] + m.payload[8..8 + n] + mem[o + n..]
  }

  function PutResponse(m: Msg): Msg {
    Msg(Blank(CHANNEL_D, D_ACCESSACK, 0, m.header.source), [])
  }

  /** handle_A_GET_opcode: the answer */
  function GetResponse(mem: Memory, m: Msg): Msg
    requires |mem| == MEM_SIZE && |m.payload| >= 8 && InBounds(m)
  {
    var o, n := Offset(m), Pow2(m.header.size);
    Msg(Blank(CHANNEL_D, D_ACCESSACKDATA, m.header.size, m.header.source), mem[o..o + n])
  }

  predicate IsAccess(m: Msg) {
    IsGet(m) || IsPutFull(m)
  }

  predicate CanHandle(h: Host) {
    h.link.inbox != [] && |h.respBuf| < RESPONSE_CAPACITY
  }

  /** enqueue into response_buffer, counting a response that finds it full */
  function Respond(h: Host, resp: Msg): Host {
    if |h.respBuf| < RESPONSE_CAPACITY then h.(respBuf := h.respBuf + [resp])
    else h.(stats := h.stats.(dropResponse := h.stats.dropResponse + 1))
  }

  /** The handler the dispatch table names, on the message m already taken off the inbox. */
  function Dispatch(h: Host, m: Msg): Host
    requires |h.mem| == MEM_SIZE && WellSized(m)
  {
    if IsAccess(m) && !InBounds(m) then h.(link := h.link.(status := OutOfBounds))
    else if IsPutFull(m) then
      Respond(h.(mem := PutMem(h.mem, m)), PutResponse(m))
    else if IsGet(m) then
      Respond(h, GetResponse(h.mem, m))
    else if m.header.chan == CHANNEL_D && m.header.opcode == D_ACCESSACK then
      h.(stats := h.stats.(accessAck := h.stats.accessAck + 1))
    else if m.header.chan == CHANNEL_D && m.header.opcode == D_ACCESSACKDATA then
      h.(stats := h.stats.(accessAckData := h.stats.accessAckData + 1))
    else h
  }

  /** tl_handler followed by add_channel_flow_credits */
  function Handle(h: Host): Host
    requires HostShape(h)
  {
    if !CanHandle(h) then h
    else
      var m := h.link.inbox[0];
      var d := Dispatch(h, m);
      if !d.link.status.Running? then d
      else d.(link := d.link.(inbox := d.link.inbox[1..],
                              flow := AddFlow(d.link.flow, m.header.chan, Flits(m))))
  }

  // ----- Main loop -----

  datatype HostOut = HostOut(host: Host, frames: seq<Frame>)

  function Choose(h: Host): Selection {
    if h.pending.Some? then Selection(h, h.pending) else SelectBuffer(h)
  }

  /** Lines 125-138 of tloe_endpoint: pick a message if none is held over, then TX. */
  function Transmit(h: Host, now: int): HostOut
    requires HostShape(h)
  {
    var s := Choose(h);
    var t := TxStep(s.host.link, s.chosen, now);
    HostOut(s.host.(link := t.ep, pending := t.unsent), t.frames)
  }

  /** RX with a frame from the fabric */
  function Receive(h: Host, f: Frame, now: int): HostOut
    requires HostShape(h) && f.chan < CHANNEL_NUM
  {
    var r := RxStep(h.link, f, now);
    HostOut(h.(link := r.ep), r.frames)
  }

  function ReceiveMaybe(h: Host, f: Option<Frame>, now: int): HostOut
    requires HostShape(h) && (f.Some? ==> f.value.chan < CHANNEL_NUM)
  {
    if f.None? then HostOut(h, []) else Receive(h, f.value, now)
  }
}
