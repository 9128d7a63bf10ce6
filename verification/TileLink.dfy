/** TileLink messages and their sizes (tilelink_msg.c). */
module TileLink {
  import opened Bits

  const CHANNEL_NUM: int := 6
  const CHANNEL_A: int := 1
  const CHANNEL_B: int := 2
  const CHANNEL_C: int := 3
  const CHANNEL_D: int := 4
  const CHANNEL_E: int := 5

  const A_PUTFULLDATA: int := 0
  const A_GET: int := 4
  const D_ACCESSACK: int := 0
  const D_ACCESSACKDATA: int := 1

  /** The bit fields of tl_header_t, least significant first. */
  datatype TlHeader = TlHeader(source: nat, reserved: nat, err: nat, domain: nat, size: nat,
                               param: nat, reserved2: nat, opcode: nat, chan: nat, reserved1: nat)

  /** A message: the header word and the bytes that follow it in tl_msg_t. */
  datatype Msg = Msg(header: TlHeader, payload: seq<byte>)

  predicate HeaderFits(h: TlHeader) {
    && h.source < 0x400_0000 && h.reserved < 0x1000 && h.err < 4 && h.domain < 256
    && h.size < 16 && h.param < 16 && h.reserved2 < 2 && h.opcode < 8 && h.chan < 8
    && h.reserved1 < 2
  }

  /** tlmsg_get_header_size; a size the code leaves at -1 is read as absent, i.e. 0 bytes. */
  function HeaderSize(h: TlHeader): nat {
    if h.chan == CHANNEL_A || h.chan == CHANNEL_B || h.chan == CHANNEL_C then 16
    else if h.chan == CHANNEL_D then
      (if h.opcode in {0, 1, 2, 6} then 8 else if h.opcode in {4, 5} then 16 else 0)
    else if h.chan == CHANNEL_E then 8
    else 0
  }

  predicate HasData(h: TlHeader) {
    if h.chan == CHANNEL_A || h.chan == CHANNEL_B || h.chan == CHANNEL_C then
      h.opcode in {0, 1, 2, 3, 5, 7}
    else h.chan == CHANNEL_D && h.opcode in {1, 5}
  }

  /** tlmsg_get_data_size */
  function DataSize(h: TlHeader): nat {
    if HasData(h) then Pow2(h.size) else 0
  }

  /** tlmsg_get_total_size */
  function TotalSize(h: TlHeader): nat {
    HeaderSize(h) + DataSize(h)
  }

  /** convert_size_to_flits */
  function SizeToFlits(size: nat): nat {
    (size + 7) / 8
  }

  /** tlmsg_get_flits_cnt */
  function Flits(m: Msg): nat {
    SizeToFlits(HeaderSize(m.header)) + SizeToFlits(DataSize(m.header))
  }

  /**
   A message the sizes are meaningful for: channel A to E, not one of the two channel D
   opcodes without a size, and exactly as many bytes as the header announces.
   */
  predicate WellSized(m: Msg) {
    && HeaderFits(m.header)
    && CHANNEL_A <= m.header.chan <= CHANNEL_E
    && HeaderSize(m.header) > 0
    && 8 + |m.payload| == TotalSize(m.header)
  }

  /** The largest message that framing leaves intact (see Framing). */
  const MAX_FRAMED: nat := 40

  predicate IsGet(m: Msg) {
    m.header.chan == CHANNEL_A && m.header.opcode == A_GET
  }

  predicate IsPutFull(m: Msg) {
    m.header.chan == CHANNEL_A && m.header.opcode == A_PUTFULLDATA
  }

  /** A well-sized message that fits a frame and whose answer, if it is a read, does too. */
  predicate Admissible(m: Msg) {
    && WellSized(m)
    && TotalSize(m.header) <= MAX_FRAMED
    && (IsGet(m) ==> m.header.size <= 5)
  }

  lemma FlitsPositive(m: Msg)
    requires WellSized(m)
    ensures Flits(m) >= 1
    ensures Admissible(m) ==> Flits(m) <= 6
  {
  }

  /** Header and data are whole flits but for data of 1, 2 or 4 bytes, which takes one. */
  lemma PowerRounds(k: nat)
    ensures SizeToFlits(Pow2(k)) == if k < 3 then 1 else Pow2(k - 3)
    ensures k >= 3 ==> Pow2(k) == 8 * Pow2(k - 3)
  {
    if k >= 3 {
      assert Pow2(k) == 2 * Pow2(k - 1) && Pow2(k - 1) == 2 * Pow2(k - 2) && Pow2(k - 2) == 2 * Pow2(k - 3);
    } else {
      assert Pow2(0) == 1 && Pow2(1) == 2 * Pow2(0) && Pow2(2) == 2 * Pow2(1);
    }
  }

  /** The flits of a message are the fewest that hold all its bytes, header and data. */
  lemma FlitsHoldBytes(m: Msg)
    requires WellSized(m)
    ensures 8 * (Flits(m) - 1) < 8 + |m.payload| <= 8 * Flits(m)
  {
    PowerRounds(m.header.size);
  }

  /** The opcodes whose names say that data follows, channel by channel. */
  predicate NamedData(chan: nat, opcode: nat) {
    if chan == CHANNEL_A || chan == CHANNEL_B then opcode < 4
    else if chan == CHANNEL_C then opcode == 1 || opcode == 5 || opcode == 7
    else chan == CHANNEL_D && (opcode == 1 || opcode == 5)
  }

  /**
   The test for data takes the opcodes of channels A, B and C together, so a message is
   sized as its name says unless it is one of these, which are given data they do not have.
   */
  lemma SizedAsNamedIff(h: TlHeader)
    requires h.opcode < 8
    ensures DataSize(h) == (if NamedData(h.chan, h.opcode) then Pow2(h.size) else 0)
            <==> && !(h.chan in {CHANNEL_A, CHANNEL_B} && h.opcode in {5, 7})
                 && !(h.chan == CHANNEL_C && h.opcode in {0, 2, 3})
  {
  }

  /** Two header words where an address or a sink follows, one elsewhere, none for an unknown opcode. */
  lemma HeaderWords(h: TlHeader)
    ensures HeaderSize(h) == 16
            <==> CHANNEL_A <= h.chan <= CHANNEL_C || (h.chan == CHANNEL_D && 4 <= h.opcode <= 5)
    ensures HeaderSize(h) == 8
            <==> h.chan == CHANNEL_E || (h.chan == CHANNEL_D && (h.opcode < 3 || h.opcode == 6))
    ensures HeaderSize(h) in {0, 8, 16}
  {
  }
}
