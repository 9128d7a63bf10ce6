/** Bit fields, big-endian packets and messages inside frames (tloe_frame.c, tloe_frame.h). */
module Codec {
  import opened Bits
  import opened TileLink

  // ----- Bit fields -----

  function ShiftLeft(x: nat, k: nat): nat {
    if k == 0 then x else 2 * ShiftLeft(x, k - 1)
  }

  function ShiftRight(w: nat, k: nat): nat {
    if k == 0 then w else ShiftRight(w / 2, k - 1)
  }

  function LowBits(w: nat, k: nat): (v: nat)
    ensures v < Pow2(k)
  {
    if k == 0 then 0 else w % 2 + 2 * LowBits(w / 2, k - 1)
  }

  lemma {:induction false} FieldAndRest(v: nat, x: nat, k: nat)
    requires v < Pow2(k)
    ensures LowBits(v + ShiftLeft(x, k), k) == v && ShiftRight(v + ShiftLeft(x, k), k) == x
  {
    if k > 0 {
      FieldAndRest(v / 2, x, k - 1);
      var w := v + ShiftLeft(x, k);
      assert w % 2 == v % 2 && w / 2 == v / 2 + ShiftLeft(x, k - 1);
    }
  }

  lemma {:induction false} Reassemble(w: nat, k: nat)
    ensures LowBits(w, k) + ShiftLeft(ShiftRight(w, k), k) == w
  {
    if k > 0 {
      Reassemble(w / 2, k - 1);
    }
  }

  lemma {:induction false} ShiftBounds(w: nat, x: nat, k: nat, n: nat)
    ensures x < Pow2(n) ==> ShiftLeft(x, k) + Pow2(k) <= Pow2(k + n)
    ensures w < Pow2(k + n) ==> ShiftRight(w, k) < Pow2(n)
  {
    if k > 0 {
      ShiftBounds(w / 2, x, k - 1, n);
    }
  }

  function TotalWidth(widths: seq<nat>): nat {
    if widths == [] then 0 else widths[0] + TotalWidth(widths[1..])
  }

  /** Fields of the given widths, packed with the first one least significant. */
  function Pack(vs: seq<nat>, widths: seq<nat>): nat
    requires |vs| == |widths|
  {
    if vs == [] then 0 else vs[0] + ShiftLeft(Pack(vs[1..], widths[1..]), widths[0])
  }

  function Unpack(widths: seq<nat>, w: nat): (vs: seq<nat>)
    ensures |vs| == |widths|
  {
    if widths == [] then [] else [LowBits(w, widths[0])] + Unpack(widths[1..], ShiftRight(w, widths[0]))
  }

  predicate FieldsFit(vs: seq<nat>, widths: seq<nat>) {
    |vs| == |widths| && forall i :: 0 <= i < |vs| ==> vs[i] < Pow2(widths[i])
  }

  lemma {:induction false} UnpackPack(vs: seq<nat>, widths: seq<nat>)
    requires FieldsFit(vs, widths)
    ensures Unpack(widths, Pack(vs, widths)) == vs
    ensures Pack(vs, widths) < Pow2(TotalWidth(widths))
  {
    if vs != [] {
      UnpackPack(vs[1..], widths[1..]);
      var p := Pack(vs[1..], widths[1..]);
      FieldAndRest(vs[0], p, widths[0]);
      ShiftBounds(0, p, widths[0], TotalWidth(widths[1..]));
      assert vs == [vs[0]] + vs[1..];
    }
  }

  lemma {:induction false} PackUnpack(w: nat, widths: seq<nat>)
    requires w < Pow2(TotalWidth(widths))
    ensures FieldsFit(Unpack(widths, w), widths)
    ensures Pack(Unpack(widths, w), widths) == w
    decreases |widths|
  {
    if widths != [] {
      var k, rest := widths[0], widths[1..];
      ShiftBounds(w, 0, k, TotalWidth(rest));
      PackUnpack(ShiftRight(w, k), rest);
      Reassemble(w, k);
      var vs := Unpack(widths, w);
      assert vs[1..] == Unpack(rest, ShiftRight(w, k));
      forall i | 0 <= i < |vs| ensures vs[i] < Pow2(widths[i]) {
        if i > 0 {
          assert vs[i] == vs[1..][i - 1] && widths[i] == rest[i - 1];
        }
      }
    }
  }

  /** tloe_header_t, least significant field first: widths 5 3 1 1 22 22 2 1 4 3 */
  datatype WireHeader = WireHeader(credit: nat, chan: nat, reserve3: nat, ack: nat, seqAck: nat,
                                   seqNum: nat, reserve2: nat, reserve1: nat, ftype: nat, vc: nat)

  function FrameWidths(): (r: seq<nat>)
    ensures |r| == 10
  {
    [5, 3, 1, 1, 22, 22, 2, 1, 4, 3]
  }

  /** tl_header_t: widths 26 12 2 8 4 4 1 3 3 1 */
  function TlWidths(): (r: seq<nat>)
    ensures |r| == 10
  {
    [26, 12, 2, 8, 4, 4, 1, 3, 3, 1]
  }

  predicate WireHeaderFits(h: WireHeader) {
    && h.credit < 32 && h.chan < 8 && h.reserve3 < 2 && h.ack < 2 && h.seqAck < 0x40_0000
    && h.seqNum < 0x40_0000 && h.reserve2 < 4 && h.reserve1 < 2 && h.ftype < 16 && h.vc < 8
  }

  function WireFields(h: WireHeader): seq<nat> {
    [h.credit, h.chan, h.reserve3, h.ack, h.seqAck, h.seqNum, h.reserve2, h.reserve1, h.ftype, h.vc]
  }

  function WireHeaderOf(v: seq<nat>): WireHeader
    requires |v| == 10
  {
    WireHeader(v[0], v[1], v[2], v[3], v[4], v[5], v[6], v[7], v[8], v[9])
  }

  function PackWire(h: WireHeader): nat {
    Pack(WireFields(h), FrameWidths())
  }

  function UnpackWire(w: nat): WireHeader {
    WireHeaderOf(Unpack(FrameWidths(), w))
  }

  function TlFields(h: TlHeader): seq<nat> {
    [h.source, h.reserved, h.err, h.domain, h.size, h.param, h.reserved2, h.opcode, h.chan, h.reserved1]
  }

  function TlHeaderOf(v: seq<nat>): TlHeader
    requires |v| == 10
  {
    TlHeader(v[0], v[1], v[2], v[3], v[4], v[5], v[6], v[7], v[8], v[9])
  }

  function PackTl(h: TlHeader): nat {
    Pack(TlFields(h), TlWidths())
  }

  function UnpackTl(w: nat): TlHeader {
    TlHeaderOf(Unpack(TlWidths(), w))
  }

  lemma WidthOfTen(r: seq<nat>)
    requires |r| == 10
    ensures TotalWidth(r) == r[0] + r[1] + r[2] + r[3] + r[4] + r[5] + r[6] + r[7] + r[8] + r[9]
  {
    assert r[9..][1..] == [] && r[8..][1..] == r[9..] && r[7..][1..] == r[8..] && r[6..][1..] == r[7..];
    assert r[5..][1..] == r[6..] && r[4..][1..] == r[5..] && r[3..][1..] == r[4..] && r[2..][1..] == r[3..];
    assert r[1..][1..] == r[2..];
    assert TotalWidth(r[9..]) == r[9] && TotalWidth(r[8..]) == r[8] + TotalWidth(r[9..]);
    assert TotalWidth(r[7..]) == r[7] + TotalWidth(r[8..]) && TotalWidth(r[6..]) == r[6] + TotalWidth(r[7..]);
    assert TotalWidth(r[5..]) == r[5] + TotalWidth(r[6..]) && TotalWidth(r[4..]) == r[4] + TotalWidth(r[5..]);
    assert TotalWidth(r[3..]) == r[3] + TotalWidth(r[4..]) && TotalWidth(r[2..]) == r[2] + TotalWidth(r[3..]);
    assert TotalWidth(r[1..]) == r[1] + TotalWidth(r[2..]);
  }

  lemma {:induction false} Pow2Add(j: nat, k: nat)
    ensures Pow2(j + k) == Pow2(j) * Pow2(k)
  {
    if j > 0 {
      Pow2Add(j - 1, k);
      assert Pow2(j + k) == 2 * (Pow2(j - 1) * Pow2(k));
    }
  }

  lemma FieldWidths()
    ensures Pow2(1) == 2 && Pow2(2) == 4 && Pow2(3) == 8 && Pow2(4) == 16 && Pow2(5) == 32 && Pow2(8) == 256
    ensures Pow2(12) == 0x1000 && Pow2(22) == 0x40_0000 && Pow2(26) == 0x400_0000 && Pow2(64) == UINT64
  {
    Pow2Values();
    Pow2Add(4, 4);
    Pow2Add(8, 4);
    Pow2Add(12, 10);
    Pow2Add(22, 4);
    Pow2Add(32, 32);
  }

  lemma FitTen(v: seq<nat>, ws: seq<nat>)
    requires |v| == |ws| == 10
    requires v[0] < Pow2(ws[0]) && v[1] < Pow2(ws[1]) && v[2] < Pow2(ws[2]) && v[3] < Pow2(ws[3]) && v[4] < Pow2(ws[4])
    requires v[5] < Pow2(ws[5]) && v[6] < Pow2(ws[6]) && v[7] < Pow2(ws[7]) && v[8] < Pow2(ws[8]) && v[9] < Pow2(ws[9])
    ensures FieldsFit(v, ws)
  {
  }

  lemma WireFieldsFit(h: WireHeader)
    requires WireHeaderFits(h)
    ensures FieldsFit(WireFields(h), FrameWidths())
  {
    FieldWidths();
    FitTen(WireFields(h), FrameWidths());
  }

  lemma SixtyFourBits(ws: seq<nat>)
    requires |ws| == 10 && ws[0] + ws[1] + ws[2] + ws[3] + ws[4] + ws[5] + ws[6] + ws[7] + ws[8] + ws[9] == 64
    ensures Pow2(TotalWidth(ws)) == UINT64
  {
    FieldWidths();
    WidthOfTen(ws);
  }

  lemma WireHeaderRoundTrip(h: WireHeader)
    requires WireHeaderFits(h)
    ensures PackWire(h) < UINT64 && UnpackWire(PackWire(h)) == h
  {
    WireFieldsFit(h);
    SixtyFourBits(FrameWidths());
    UnpackPack(WireFields(h), FrameWidths());
  }

  lemma HeaderFromFields(v: seq<nat>)
    requires |v| == 10 && FieldsFit(v, FrameWidths())
    ensures WireFields(WireHeaderOf(v)) == v && WireHeaderFits(WireHeaderOf(v))
  {
    FieldWidths();
    TenFit(v, FrameWidths());
  }

  lemma WireWordRoundTrip(w: nat)
    requires w < UINT64
    ensures WireHeaderFits(UnpackWire(w)) && PackWire(UnpackWire(w)) == w
  {
    SixtyFourBits(FrameWidths());
    PackUnpack(w, FrameWidths());
    HeaderFromFields(Unpack(FrameWidths(), w));
  }

  lemma TenFit(v: seq<nat>, ws: seq<nat>)
    requires |v| == 10 && FieldsFit(v, ws)
    ensures v[0] < Pow2(ws[0]) && v[1] < Pow2(ws[1]) && v[2] < Pow2(ws[2]) && v[3] < Pow2(ws[3]) && v[4] < Pow2(ws[4])
    ensures v[5] < Pow2(ws[5]) && v[6] < Pow2(ws[6]) && v[7] < Pow2(ws[7]) && v[8] < Pow2(ws[8]) && v[9] < Pow2(ws[9])
  {
  }

  lemma TlFieldsFit(h: TlHeader)
    requires HeaderFits(h)
    ensures FieldsFit(TlFields(h), TlWidths())
  {
    FieldWidths();
    FitTen(TlFields(h), TlWidths());
  }

  lemma TlHeaderRoundTrip(h: TlHeader)
    requires HeaderFits(h)
    ensures PackTl(h) < UINT64 && UnpackTl(PackTl(h)) == h
  {
    TlFieldsFit(h);
    SixtyFourBits(TlWidths());
    UnpackPack(TlFields(h), TlWidths());
  }

  // ----- Words and bytes -----

  predicate AreWords(ws: seq<nat>) {
    forall i :: 0 <= i < |ws| ==> ws[i] < UINT64
  }

  /** htobe64: most significant byte first */
  function BigEndian(w: nat, n: nat): (s: seq<byte>)
    ensures |s| == n
  {
    if n == 0 then [] else BigEndian(w / 256, n - 1) + [w % 256]
  }

  /** be64toh */
  function FromBigEndian(s: seq<byte>): nat {
    if s == [] then 0 else 256 * FromBigEndian(s[..|s| - 1]) + s[|s| - 1]
  }

  lemma {:induction false} BigEndianRoundTrip(w: nat, n: nat)
    requires w < Pow256(n)
    ensures FromBigEndian(BigEndian(w, n)) == w
  {
    if n > 0 {
      BigEndianRoundTrip(w / 256, n - 1);
      assert BigEndian(w, n)[..n - 1] == BigEndian(w / 256, n - 1);
    }
  }

  lemma {:induction false} FromBigEndianRoundTrip(s: seq<byte>)
    ensures FromBigEndian(s) < Pow256(|s|) && BigEndian(FromBigEndian(s), |s|) == s
  {
    if s != [] {
      var i := s[..|s| - 1];
      FromBigEndianRoundTrip(i);
      assert FromBigEndian(s) / 256 == FromBigEndian(i) && FromBigEndian(s) % 256 == s[|s| - 1];
      assert s == i + [s[|s| - 1]];
    }
  }

  /** A frame as packet_to_tloe_frame leaves it. */
  datatype RawFrame = RawFrame(header: WireHeader, flits: seq<nat>)

  function EncodeWords(ws: seq<nat>): (s: seq<byte>)
    ensures |s| == 8 * |ws|
  {
    if ws == [] then [] else EncodeWords(ws[..|ws| - 1]) + BigEndian(ws[|ws| - 1], 8)
  }

  function DecodeWords(s: seq<byte>): (ws: seq<nat>)
    requires |s| % 8 == 0
    ensures 8 * |ws| == |s|
  {
    if s == [] then [] else DecodeWords(s[..|s| - 8]) + [FromBigEndian(s[|s| - 8..])]
  }

  /** tloe_frame_to_packet */
  function EncodePacket(f: RawFrame): (s: seq<byte>)
    ensures |s| == 8 + 8 * |f.flits|
  {
    BigEndian(PackWire(f.header), 8) + EncodeWords(f.flits)
  }

  /** packet_to_tloe_frame */
  function DecodePacket(s: seq<byte>): RawFrame
    requires |s| >= 8 && |s| % 8 == 0
  {
    RawFrame(UnpackWire(FromBigEndian(s[..8])), DecodeWords(s[8..]))
  }

  lemma {:induction false} WordsRoundTrip(ws: seq<nat>)
    requires AreWords(ws)
    ensures DecodeWords(EncodeWords(ws)) == ws
  {
    if ws != [] {
      var i, last := ws[..|ws| - 1], ws[|ws| - 1];
      WordsRoundTrip(i);
      Pow256Word();
      BigEndianRoundTrip(last, 8);
      var s := EncodeWords(ws);
      assert s[..|s| - 8] == EncodeWords(i) && s[|s| - 8..] == BigEndian(last, 8);
      assert ws == i + [last];
    }
  }

  lemma EncodeSnoc(ws: seq<nat>, w: nat)
    ensures EncodeWords(ws + [w]) == EncodeWords(ws) + BigEndian(w, 8)
  {
    assert (ws + [w])[..|ws|] == ws;
  }

  lemma DecodeSnoc(s: seq<byte>, word: seq<byte>)
    requires |s| % 8 == 0 && |word| == 8
    ensures DecodeWords(s + word) == DecodeWords(s) + [FromBigEndian(word)]
  {
    var t := s + word;
    assert t[..|t| - 8] == s && t[|t| - 8..] == word;
  }

  lemma WordRoundTrip(word: seq<byte>)
    requires |word| == 8
    ensures FromBigEndian(word) < UINT64 && BigEndian(FromBigEndian(word), 8) == word
  {
    FromBigEndianRoundTrip(word);
    Pow256Word();
  }

  lemma EncodeSnocWord(ws: seq<nat>, word: seq<byte>)
    requires |word| == 8
    ensures EncodeWords(ws + [FromBigEndian(word)]) == EncodeWords(ws) + word
  {
    WordRoundTrip(word);
    EncodeSnoc(ws, FromBigEndian(word));
  }

  lemma AreWordsSnoc(ws: seq<nat>, w: nat)
    requires AreWords(ws) && w < UINT64
    ensures AreWords(ws + [w])
  {
  }

  lemma {:induction false} BytesRoundTrip(s: seq<byte>)
    requires |s| % 8 == 0
    ensures AreWords(DecodeWords(s)) && EncodeWords(DecodeWords(s)) == s
    decreases |s|
  {
    if s != [] {
      var init, last := s[..|s| - 8], s[|s| - 8..];
      BytesRoundTrip(init);
      assert s == init + last;
      DecodeSnoc(init, last);
      EncodeSnocWord(DecodeWords(init), last);
      WordRoundTrip(last);
      AreWordsSnoc(DecodeWords(init), FromBigEndian(last));
    }
  }

  /** Every frame, of every packet size, survives the wire with all fields and flits. */
  lemma PacketRoundTrip(f: RawFrame)
    requires WireHeaderFits(f.header) && AreWords(f.flits)
    ensures DecodePacket(EncodePacket(f)) == f
  {
    var s := EncodePacket(f);
    WireHeaderRoundTrip(f.header);
    Pow256Word();
    BigEndianRoundTrip(PackWire(f.header), 8);
    WordsRoundTrip(f.flits);
    assert s[..8] == BigEndian(PackWire(f.header), 8) && s[8..] == EncodeWords(f.flits);
  }

  lemma HeaderBytesRoundTrip(s: seq<byte>)
    requires |s| == 8
    ensures var h := UnpackWire(FromBigEndian(s));
            WireHeaderFits(h) && BigEndian(PackWire(h), 8) == s
  {
    Pow256Word();
    FromBigEndianRoundTrip(s);
    WireWordRoundTrip(FromBigEndian(s));
  }

  /** A packet taken apart. */
  lemma DecodeParts(s: seq<byte>, head: seq<byte>, rest: seq<byte>)
    requires |head| == 8 && |rest| % 8 == 0 && s == head + rest
    ensures |s| % 8 == 0 && DecodePacket(s) == RawFrame(UnpackWire(FromBigEndian(head)), DecodeWords(rest))
  {
    assert s[..8] == head && s[8..] == rest;
  }

  lemma EncodeParts(f: RawFrame, head: seq<byte>, rest: seq<byte>)
    requires BigEndian(PackWire(f.header), 8) == head && EncodeWords(f.flits) == rest
    ensures EncodePacket(f) == head + rest
  {
  }

  /** And every packet is the encoding of exactly one frame. */
  lemma PacketIsEncoding(s: seq<byte>)
    requires |s| >= 8 && |s| % 8 == 0
    ensures var f := DecodePacket(s);
            WireHeaderFits(f.header) && AreWords(f.flits) && EncodePacket(f) == s
  {
    var head, rest := s[..8], s[8..];
    assert s == head + rest;
    HeaderBytesRoundTrip(head);
    BytesRoundTrip(rest);
    DecodeParts(s, head, rest);
    EncodeParts(DecodePacket(s), head, rest);
  }

  // ----- The packet loops -----

  lemma EncodeWordsSnoc(ws: seq<nat>, k: nat)
    requires k < |ws|
    ensures EncodeWords(ws[..k + 1]) == EncodeWords(ws[..k]) + BigEndian(ws[k], 8)
  {
    assert ws[..k + 1][..k] == ws[..k];
  }

  lemma DecodeWordsSnoc(s: seq<byte>, k: nat)
    requires 8 * (k + 1) <= |s|
    ensures DecodeWords(s[..8 * (k + 1)]) == DecodeWords(s[..8 * k]) + [FromBigEndian(s[8 * k..8 * (k + 1)])]
  {
    var t := s[..8 * (k + 1)];
    assert t[..|t| - 8] == s[..8 * k] && t[|t| - 8..] == s[8 * k..8 * (k + 1)];
  }

  /** One word written at the end of what is already there. */
  lemma WordWritten(before: seq<byte>, after: seq<byte>, offset: nat, word: seq<byte>)
    requires |word| == 8 && offset + 8 <= |before|
    requires after == before[..offset] + word + before[offset + 8..]
    ensures |after| == |before|
    ensures after[..offset + 8] == before[..offset] + word && after[offset + 8..] == before[offset + 8..]
  {
  }

  lemma PacketGrows(head: seq<byte>, flits: seq<nat>, i: nat, written: seq<byte>)
    requires i < |flits| && written == head + EncodeWords(flits[..i])
    ensures written + BigEndian(flits[i], 8) == head + EncodeWords(flits[..i + 1])
  {
    EncodeWordsSnoc(flits, i);
  }

  /** A big-endian word into the send buffer */
  method WriteWord(buf: array<byte>, offset: nat, w: nat)
    requires offset + 8 <= buf.Length
    modifies buf
    ensures buf[..offset + 8] == old(buf[..offset]) + BigEndian(w, 8)
    ensures buf[offset + 8..] == old(buf[offset + 8..])
  {
    ghost var before := buf[..];
    CopyInto(buf, offset, BigEndian(w, 8));
    WordWritten(before, buf[..], offset, BigEndian(w, 8));
    assert before[..offset] == old(buf[..offset]) && before[offset + 8..] == old(buf[offset + 8..]);
  }

  lemma TailOfTail(a: seq<byte>, b: seq<byte>, k: nat)
    requires k + 8 <= |a| == |b| && a[k..] == b[k..]
    ensures a[k + 8..] == b[k + 8..]
  {
    assert a[k + 8..] == a[k..][8..] && b[k + 8..] == b[k..][8..];
  }

  /** tloe_frame_to_packet fills the first size bytes of the send buffer. */
  method FrameToPacket(header: WireHeader, flits: seq<nat>, buf: array<byte>, size: nat)
    requires 16 <= size <= buf.Length && size % 8 == 0 && size / 8 - 1 <= |flits|
    modifies buf
    ensures buf[..size] == EncodePacket(RawFrame(header, flits[..size / 8 - 1]))
    ensures buf[size..] == old(buf[size..])
  {
    var flitCnt := (size - 8) / 8;
    ghost var head := BigEndian(PackWire(header), 8);
    ghost var start := buf[..];
    WriteWord(buf, 0, PackWire(header));
    assert head + EncodeWords(flits[..0]) == head;
    for i := 0 to flitCnt
      invariant buf[..8 + 8 * i] == head + EncodeWords(flits[..i])
      invariant buf[8 + 8 * i..] == start[8 + 8 * i..]
    {
      TailOfTail(buf[..], start, 8 + 8 * i);
      PacketGrows(head, flits, i, buf[..8 + 8 * i]);
      WriteWord(buf, 8 + 8 * i, flits[i]);
    }
  }

  /** packet_to_tloe_frame reads a received packet word by word. */
  method PacketToFrame(packet: seq<byte>) returns (f: RawFrame)
    requires 8 <= |packet| && |packet| % 8 == 0
    ensures f == DecodePacket(packet)
  {
    var numFlits := |packet| / 8 - 1;
    var header := UnpackWire(FromBigEndian(packet[..8]));
    var flits: seq<nat> := [];
    var body := packet[8..];
    for i := 0 to numFlits
      invariant flits == DecodeWords(body[..8 * i])
    {
      DecodeWordsSnoc(body, i);
      flits := flits + [FromBigEndian(body[8 * i..8 * (i + 1)])];
    }
    assert body[..8 * numFlits] == body;
    f := RawFrame(header, flits);
  }
}
