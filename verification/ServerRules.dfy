/** What the handler does to every endpoint, in bytes and numbers (tilelink_handler.c). */
module ServerRules {
  import opened Bits
  import opened TileLink
  import opened LinkSpec
  import opened HostSpec
  import opened MemoryProof

  // ----- Addresses -----

  /** The first four bytes, least significant first. */
  function Low32(p: seq<byte>): nat
    requires |p| >= 4
  {
    (p[0] as nat) + 0x100 * (p[1] as nat) + 0x1_0000 * (p[2] as nat) + 0x100_0000 * (p[3] as nat)
  }

  lemma WordSplit(s: seq<byte>)
    requires |s| == 8
    ensures LittleEndian(s) == Low32(s) + 0x1_0000_0000 * LittleEndian(s[4..])
  {
    assert s[3..][1..] == s[4..] && s[2..][1..] == s[3..] && s[1..][1..] == s[2..];
    assert LittleEndian(s[3..]) == (s[3] as nat) + 256 * LittleEndian(s[4..]);
    assert LittleEndian(s[2..]) == (s[2] as nat) + 256 * LittleEndian(s[3..]);
    assert LittleEndian(s[1..]) == (s[1] as nat) + 256 * LittleEndian(s[2..]);
    assert LittleEndian(s) == (s[0] as nat) + 256 * LittleEndian(s[1..]);
  }

  /** A request is for the address in its first four bytes; the four after them are ignored. */
  lemma OffsetIsLowBytes(m: Msg)
    requires |m.payload| >= 8
    ensures Offset(m) == Low32(m.payload)
  {
    WordSplit(m.payload[..8]);
  }

  // ----- The handler -----

  predicate Accesses(m: Msg) {
    m.header.chan == 1 && (m.header.opcode == 0 || m.header.opcode == 4)
  }

  predicate Overruns(m: Msg) {
    |m.payload| >= 8 && Low32(m.payload) + Pow2(m.header.size) > 0x1_0000_0000
  }

  predicate Fits(m: Msg) {
    Accesses(m) ==> |m.payload| >= 8 && !Overruns(m)
  }

  lemma AccessHasAddress(m: Msg)
    requires WellSized(m) && Accesses(m)
    ensures |m.payload| >= 8 && Offset(m) == Low32(m.payload)
    ensures m.header.opcode == 0 ==> |m.payload| == 8 + Pow2(m.header.size)
  {
    OffsetIsLowBytes(m);
  }

  /** Byte x of the memory afterwards. */
  function ByteAfter(mem: Memory, m: Msg, x: nat): byte
    requires |mem| == MEM_SIZE && x < MEM_SIZE && WellSized(m) && Fits(m)
  {
    if !Accesses(m) then mem[x] else
    AccessHasAddress(m);
    if m.header.chan == 1 && m.header.opcode == 0 && Low32(m.payload) <= x < Low32(m.payload) + Pow2(m.header.size)
    then m.payload[8 + x - Low32(m.payload)] else mem[x]
  }

  /** Answers and counts, by kind of message. */
  predicate Answered(h: Host, h': Host, m: Msg)
    requires |h.mem| == MEM_SIZE && WellSized(m) && Fits(m)
  {
    && (if Accesses(m) then
          && |h'.respBuf| == |h.respBuf| + 1 && h'.respBuf[..|h.respBuf|] == h.respBuf
          && AnswersTo(h'.respBuf[|h.respBuf|], m)
          && (m.header.opcode == 4 ==>
                h'.respBuf[|h.respBuf|].payload == h.mem[Low32(m.payload)..Low32(m.payload) + Pow2(m.header.size)])
        else h'.respBuf == h.respBuf)
    && h'.stats.dropResponse == h.stats.dropResponse
    && h'.stats.accessAck
       == h.stats.accessAck + (if m.header.chan == 4 && m.header.opcode == 0 then 1 else 0)
    && h'.stats.accessAckData
       == h.stats.accessAckData + (if m.header.chan == 4 && m.header.opcode == 1 then 1 else 0)
  }

  /** The oldest message is gone, and its flits are to be returned on its channel. */
  predicate ConsumesOldest(h: Host, h': Host, m: Msg)
    requires |h.link.flow| == CHANNEL_NUM && h.link.inbox != [] && m.header.chan < CHANNEL_NUM
  {
    var c := m.header.chan;
    h'.link == h.link.(inbox := h.link.inbox[1..], flow := h.link.flow[c := (h.link.flow[c] + Flits(m)) % UINT32])
  }

  /** The handler acts: a message is there and fewer than 99 responses wait. */
  predicate MustServe(h: Host) {
    h.link.inbox != [] && |h.respBuf| < 99
  }

  lemma Waits(h: Host)
    requires HostShape(h) && !MustServe(h)
    ensures Handle(h) == h
  {
  }

  lemma Exits(h: Host)
    requires HostShape(h) && h.link.status.Running? && MustServe(h)
    ensures var m := h.link.inbox[0];
            Handle(h).link.status == if Accesses(m) && Overruns(m) then OutOfBounds else Running
  {
    var m := h.link.inbox[0];
    if Accesses(m) {
      AccessHasAddress(m);
    }
  }

  /**
   The handler does nothing while no message is there or 99 responses wait.  Otherwise it
   exits if the oldest message is a read or write past 4 GB; if not, that message is
   consumed, its flits are to be returned, and memory, responses and counts follow from it.
   */
  lemma HandlesExactly(h: Host, x: nat)
    requires HostShape(h) && h.link.status.Running? && x < MEM_SIZE
    ensures var h' := Handle(h);
            if !MustServe(h) then h' == h
            else
              var m := h.link.inbox[0];
              if Accesses(m) && Overruns(m) then h'.link.status == OutOfBounds
              else
                && Fits(m) && ConsumesOldest(h, h', m) && Answered(h, h', m)
                && |h'.mem| == MEM_SIZE && h'.mem[x] == ByteAfter(h.mem, m, x)
                && h'.msgBuf == h.msgBuf && h'.pending == h.pending && h'.selectCnt == h.selectCnt
  {
    if MustServe(h) {
      Exits(h);
      var m := h.link.inbox[0];
      if Accesses(m) {
        AccessHasAddress(m);
        if !Overruns(m) {
          ResponsesAnswer(h.mem, m);
        }
      }
    } else {
      Waits(h);
    }
  }
}
