/** Where every field and byte of a frame lies in its packet (tloe_frame.h, tilelink_msg.h). */
module Layout {
  import opened Bits
  import opened TileLink
  import opened LinkSpec
  import opened Codec
  import opened Framing

  // ----- Fields in a word -----

  lemma {:induction false} ShiftIsProduct(x: nat, k: nat)
    ensures ShiftLeft(x, k) == x * Pow2(k)
  {
    if k > 0 {
      ShiftIsProduct(x, k - 1);
      assert ShiftLeft(x, k) == 2 * (x * Pow2(k - 1));
    }
  }

  /** What is left of a packed word from field k on. */
  function Tail(vs: seq<nat>, ws: seq<nat>, k: nat): nat
    requires |vs| == |ws| && k <= |vs|
  {
    Pack(vs[k..], ws[k..])
  }

  /** p[k] is the power of two of field k's width. */
  predicate Powers(ws: seq<nat>, p: seq<nat>) {
    |p| == |ws| && forall k :: 0 <= k < |ws| ==> p[k] == Pow2(ws[k])
  }

  lemma TailStep(vs: seq<nat>, ws: seq<nat>, p: seq<nat>, k: nat)
    requires |vs| == |ws| && k < |vs| && Powers(ws, p)
    ensures Tail(vs, ws, k) == vs[k] + p[k] * Tail(vs, ws, k + 1)
  {
    assert vs[k..][1..] == vs[k + 1..] && ws[k..][1..] == ws[k + 1..];
    ShiftIsProduct(Tail(vs, ws, k + 1), ws[k]);
  }

  lemma TailEnds(vs: seq<nat>, ws: seq<nat>)
    requires |vs| == |ws|
    ensures Tail(vs, ws, 0) == Pack(vs, ws) && Tail(vs, ws, |vs|) == 0
  {
    assert vs[0..] == vs && ws[0..] == ws;
  }

  lemma TenSteps(vs: seq<nat>, ws: seq<nat>, p: seq<nat>)
    requires |vs| == |ws| == 10 && Powers(ws, p)
    ensures forall k :: 0 <= k < 10 ==> Tail(vs, ws, k) == vs[k] + p[k] * Tail(vs, ws, k + 1)
    ensures Tail(vs, ws, 0) == Pack(vs, ws) && Tail(vs, ws, 10) == 0
  {
    TailEnds(vs, ws);
    forall k | 0 <= k < 10 ensures Tail(vs, ws, k) == vs[k] + p[k] * Tail(vs, ws, k + 1) {
      TailStep(vs, ws, p, k);
    }
  }

  function FramePowers(): (p: seq<nat>)
    ensures |p| == 10
  {
    [32, 8, 2, 2, 0x40_0000, 0x40_0000, 4, 2, 16, 8]
  }

  function TlPowers(): (p: seq<nat>)
    ensures |p| == 10
  {
    [0x400_0000, 0x1000, 4, 256, 16, 16, 2, 8, 8, 2]
  }

  lemma PowersFit()
    ensures Powers(FrameWidths(), FramePowers()) && Powers(TlWidths(), TlPowers())
  {
    FieldWidths();
  }

  /** The header word of a frame: credit at bit 0, chan at 5, ack at 9, seq_num_ack at 10, seq_num at 32, type at 57. */
  lemma WireFieldsAt(h: WireHeader)
    ensures PackWire(h)
         == h.credit + 0x20 * h.chan + 0x100 * h.reserve3 + 0x200 * h.ack + 0x400 * h.seqAck
            + 0x1_0000_0000 * h.seqNum + 0x40_0000_0000_0000 * h.reserve2 + 0x100_0000_0000_0000 * h.reserve1
            + 0x200_0000_0000_0000 * h.ftype + 0x2000_0000_0000_0000 * h.vc
  {
    PowersFit();
    var t := seq(11, k requires 0 <= k <= 10 => Tail(WireFields(h), FrameWidths(), k));
    TenSteps(WireFields(h), FrameWidths(), FramePowers());
    WireSum(WireFields(h), t);
  }

  lemma WireSum(v: seq<nat>, t: seq<nat>)
    requires |v| == 10 && |t| == 11 && t[10] == 0
    requires t[9] == v[9] + 8 * t[10] && t[8] == v[8] + 16 * t[9] && t[7] == v[7] + 2 * t[8]
    requires t[6] == v[6] + 4 * t[7] && t[5] == v[5] + 0x40_0000 * t[6] && t[4] == v[4] + 0x40_0000 * t[5]
    requires t[3] == v[3] + 2 * t[4] && t[2] == v[2] + 2 * t[3] && t[1] == v[1] + 8 * t[2] && t[0] == v[0] + 32 * t[1]
    ensures t[0] == v[0] + 0x20 * v[1] + 0x100 * v[2] + 0x200 * v[3] + 0x400 * v[4] + 0x1_0000_0000 * v[5]
                    + 0x40_0000_0000_0000 * v[6] + 0x100_0000_0000_0000 * v[7]
                    + 0x200_0000_0000_0000 * v[8] + 0x2000_0000_0000_0000 * v[9]
  {
  }

  /** The header word of a message: source at bit 0, err at 38, domain at 40, size at 48, opcode at 57, chan at 60. */
  lemma TlFieldsAt(h: TlHeader)
    ensures PackTl(h)
         == h.source + 0x400_0000 * h.reserved + 0x40_0000_0000 * h.err + 0x100_0000_0000 * h.domain
            + 0x1_0000_0000_0000 * h.size + 0x10_0000_0000_0000 * h.param + 0x100_0000_0000_0000 * h.reserved2
            + 0x200_0000_0000_0000 * h.opcode + 0x1000_0000_0000_0000 * h.chan + 0x8000_0000_0000_0000 * h.reserved1
  {
    PowersFit();
    var t := seq(11, k requires 0 <= k <= 10 => Tail(TlFields(h), TlWidths(), k));
    TenSteps(TlFields(h), TlWidths(), TlPowers());
    TlSum(TlFields(h), t);
  }

  lemma TlSum(v: seq<nat>, t: seq<nat>)
    requires |v| == 10 && |t| == 11 && t[10] == 0
    requires t[9] == v[9] + 2 * t[10] && t[8] == v[8] + 8 * t[9] && t[7] == v[7] + 8 * t[8]
    requires t[6] == v[6] + 2 * t[7] && t[5] == v[5] + 16 * t[6] && t[4] == v[4] + 16 * t[5]
    requires t[3] == v[3] + 256 * t[4] && t[2] == v[2] + 4 * t[3]
    requires t[1] == v[1] + 0x1000 * t[2] && t[0] == v[0] + 0x400_0000 * t[1]
    ensures t[0] == v[0] + 0x400_0000 * v[1] + 0x40_0000_0000 * v[2] + 0x100_0000_0000 * v[3]
                    + 0x1_0000_0000_0000 * v[4] + 0x10_0000_0000_0000 * v[5] + 0x100_0000_0000_0000 * v[6]
                    + 0x200_0000_0000_0000 * v[7] + 0x1000_0000_0000_0000 * v[8] + 0x8000_0000_0000_0000 * v[9]
  {
  }

  // ----- Bytes of a word -----

  /** Byte i of w, counted from the least significant. */
  function ByteOf(w: nat, i: nat): byte {
    if i == 0 then w % 256 else ByteOf(w / 256, i - 1)
  }

  /** Which it is: the bytes times their powers of 256 make up the word. */
  function SumOfBytes(w: nat, n: nat): nat {
    if n == 0 then 0 else SumOfBytes(w, n - 1) + (ByteOf(w, n - 1) as nat) * Pow256(n - 1)
  }

  lemma {:induction false} BytesMakeWord(w: nat, n: nat)
    requires w < Pow256(n)
    ensures SumOfBytes(w, n) == w
  {
    if n > 0 {
      assert w / 256 < Pow256(n - 1);
      BytesMakeWord(w / 256, n - 1);
      SumShifted(w, n - 1);
    }
  }

  lemma {:induction false} SumShifted(w: nat, n: nat)
    ensures SumOfBytes(w, n + 1) == w % 256 + 256 * SumOfBytes(w / 256, n)
  {
    if n == 0 {
      assert SumOfBytes(w, 1) == (ByteOf(w, 0) as nat) * Pow256(0);
    } else {
      SumShifted(w, n - 1);
      TimesOneMore(ByteOf(w, n) as nat, n);
    }
  }

  lemma TimesOneMore(b: nat, n: nat)
    requires n > 0
    ensures b * Pow256(n) == 256 * (b * Pow256(n - 1))
  {
  }

  lemma {:induction false} LittleEndianAt(w: nat, n: nat, i: nat)
    requires i < n
    ensures ToLittleEndian(w, n)[i] == ByteOf(w, i)
  {
    if i > 0 {
      LittleEndianAt(w / 256, n - 1, i - 1);
    }
  }

  lemma {:induction false} BigEndianAt(w: nat, n: nat, i: nat)
    requires i < n
    ensures BigEndian(w, n)[i] == ByteOf(w, n - 1 - i)
  {
    if i < n - 1 {
      BigEndianAt(w / 256, n - 1, i);
    }
  }

  // ----- Bytes of a packet -----

  lemma {:induction false} WordAt(ws: seq<nat>, j: nat, i: nat)
    requires j < |ws| && i < 8
    ensures EncodeWords(ws)[8 * j + i] == ByteOf(ws[j], 7 - i)
  {
    if j == |ws| - 1 {
      BigEndianAt(ws[j], 8, i);
      assert EncodeWords(ws)[8 * j + i] == BigEndian(ws[j], 8)[i];
    } else {
      WordAt(ws[..|ws| - 1], j, i);
    }
  }

  /** Byte i of the packet is byte 7 - i of the header word, and so for every flit. */
  lemma PacketByteAt(f: RawFrame, j: nat, i: nat)
    requires j <= |f.flits| && i < 8
    ensures EncodePacket(f)[8 * j + i] == ByteOf(if j == 0 then PackWire(f.header) else f.flits[j - 1], 7 - i)
  {
    if j == 0 {
      BigEndianAt(PackWire(f.header), 8, i);
    } else {
      WordAt(f.flits, j - 1, i);
      assert EncodePacket(f)[8 * j + i] == EncodeWords(f.flits)[8 * (j - 1) + i];
    }
  }

  // ----- A whole frame -----

  lemma {:induction false} HostWordAt(s: seq<byte>, j: nat)
    requires |s| % 8 == 0 && 8 * j + 8 <= |s|
    ensures HostWords(s)[j] == LittleEndian(s[8 * j..8 * j + 8])
    decreases |s|
  {
    if j == 0 {
      assert s[0..8] == s[..8];
    } else {
      HostWordAt(s[8..], j - 1);
      assert s[8..][8 * (j - 1)..8 * (j - 1) + 8] == s[8 * j..8 * j + 8];
    }
  }

  lemma {:induction false} ByteBack(s: seq<byte>, i: nat)
    requires i < |s|
    ensures ByteOf(LittleEndian(s), i) == s[i]
  {
    if i > 0 {
      ByteBack(s[1..], i - 1);
      assert LittleEndian(s) / 256 == LittleEndian(s[1..]);
    } else {
      assert LittleEndian(s) % 256 == s[0];
    }
  }

  /** Byte x of the flits: the message, header word first, from byte 0 on, and its mask at byte 40. */
  function FlitByte(msgs: seq<Msg>, x: nat): byte {
    if msgs == [] then 0
    else if x < 8 then ByteOf(PackTl(msgs[0].header), x)
    else if x < 8 + |msgs[0].payload| then msgs[0].payload[x - 8]
    else if x == 40 then 1 else 0
  }

  lemma FlitByteAt(msgs: seq<Msg>, x: nat)
    requires |msgs| <= 1 && (msgs != [] ==> Admissible(msgs[0])) && x < 48
    ensures FrameSize(msgs) == 56 && FlitBytes(msgs)[x] == FlitByte(msgs, x)
  {
    FrameSizeShape(msgs);
    if x >= 40 {
      LittleEndianAt(Mask(msgs), 8, x - 40);
      assert FlitBytes(msgs)[x] == ToLittleEndian(Mask(msgs), 8)[x - 40];
      SmallByte(Mask(msgs), x - 40);
    } else if msgs != [] && x < 8 {
      LittleEndianAt(PackTl(msgs[0].header), 8, x);
    }
  }

  lemma {:induction false} SmallByte(w: nat, i: nat)
    requires w < 256
    ensures ByteOf(w, i) == if i == 0 then w else 0
  {
    if i > 0 {
      SmallByte(w / 256, i - 1);
    }
  }

  /** The header word of a frame an endpoint sends. */
  function HeaderWord(f: Frame): int {
    f.credit + 0x20 * f.chan + 0x200 * f.ack + 0x400 * f.seqAck + 0x1_0000_0000 * f.seqNum
    + 0x200_0000_0000_0000 * f.ftype
  }

  lemma HeaderWordIs(f: Frame)
    requires WireReady(f)
    ensures HeaderWord(f) >= 0 && PackWire(ToRaw(f).header) == HeaderWord(f)
  {
    WireFieldsAt(ToRaw(f).header);
  }

  lemma FlitIs(f: Frame, j: nat, i: nat)
    requires WireReady(f) && j < 6 && i < 8
    ensures |ToRaw(f).flits| == 6 && ByteOf(ToRaw(f).flits[j], i) == FlitByte(f.msgs, 8 * j + i)
  {
    FrameSizeShape(f.msgs);
    var s := FlitBytes(f.msgs);
    FlitByteAt(f.msgs, 8 * j + i);
    HostWordAt(s, j);
    ByteBack(s[8 * j..8 * j + 8], i);
  }

  /**
   The packet of every frame an endpoint sends, byte by byte: the header word and then six
   flits, each with its most significant byte first.
   */
  lemma WireByteAt(f: Frame, j: nat, i: nat)
    requires WireReady(f) && j <= 6 && i < 8
    ensures |Wire(f)| == 56 && HeaderWord(f) >= 0
    ensures Wire(f)[8 * j + i]
         == if j == 0 then ByteOf(HeaderWord(f), 7 - i) else FlitByte(f.msgs, 8 * (j - 1) + 7 - i)
  {
    HeaderWordIs(f);
    WireRoundTrip(f);
    if j > 0 {
      FlitIs(f, j - 1, 7 - i);
    }
    PacketByteAt(ToRaw(f), j, i);
  }
}
