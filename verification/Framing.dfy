/** TileLink messages inside frames, and frames on the wire (tloe_frame.c, tloe_receiver.c). */
module Framing {
  import opened Bits
  import opened SeqNum
  import opened TileLink
  import opened FlowSpec
  import opened LinkSpec
  import opened Codec

  const DEFAULT_FRAME_SIZE: nat := 56
  const MAX_FLIT_BYTES: nat := 520      // 65 flits
  const MAX_FRAME_SIZE: nat := 528

  /** tloe_get_fsize */
  function FrameSize(msgs: seq<Msg>): nat {
    if msgs == [] then DEFAULT_FRAME_SIZE
    else
      var fsize := 8 + TotalSize(msgs[0].header);
      if fsize < DEFAULT_FRAME_SIZE then DEFAULT_FRAME_SIZE else fsize
  }

  // ----- Flits in host memory -----

  /** The memory image of an array of words on a little-endian host, and back. */
  function HostBytes(ws: seq<nat>): (s: seq<byte>)
    ensures |s| == 8 * |ws|
  {
    if ws == [] then [] else ToLittleEndian(ws[0], 8) + HostBytes(ws[1..])
  }

  function HostWords(s: seq<byte>): (ws: seq<nat>)
    requires |s| % 8 == 0
    ensures 8 * |ws| == |s|
  {
    if s == [] then [] else [LittleEndian(s[..8])] + HostWords(s[8..])
  }

  lemma {:induction false} HostRoundTrip(s: seq<byte>)
    requires |s| % 8 == 0
    ensures AreWords(HostWords(s)) && HostBytes(HostWords(s)) == s
    decreases |s|
  {
    if s != [] {
      HostRoundTrip(s[8..]);
      BytesOfWord(s[..8]);
      Pow256Word();
      assert s == s[..8] + s[8..];
      assert HostWords(s)[1..] == HostWords(s[8..]);
    }
  }

  lemma {:induction false} LastWord(s: seq<byte>)
    requires |s| % 8 == 0 && s != []
    ensures HostWords(s)[|HostWords(s)| - 1] == LittleEndian(s[|s| - 8..])
    decreases |s|
  {
    if |s| == 8 {
      assert s[..8] == s[0..];
    } else {
      LastWord(s[8..]);
      assert s[8..][|s[8..]| - 8..] == s[|s| - 8..];
    }
  }

  function Zeros(n: nat): (s: seq<byte>)
    ensures |s| == n
  {
    seq(n, i => 0)
  }

  /** A message as it lies in memory: header word, then the bytes that follow. */
  function MsgBytes(m: Msg): (s: seq<byte>)
    ensures |s| == 8 + |m.payload|
  {
    ToLittleEndian(PackTl(m.header), 8) + m.payload
  }

  function Mask(msgs: seq<Msg>): nat {
    if msgs == [] then 0 else 1
  }

  /** A data size is at most 32 bytes, or at least 64 and whole flits. */
  lemma {:induction false} DataSizeGap(k: nat)
    ensures Pow2(k) <= 32 || (Pow2(k) >= 64 && Pow2(k) % 8 == 0)
    ensures k <= 5 <==> Pow2(k) <= 32
  {
    Pow2Values();
    if k < 5 {
      Pow2Monotone(k, 5);
    } else if k > 6 {
      DataSizeGap(k - 1);
    } else if k == 6 {
      assert Pow2(6) == 2 * Pow2(5);
    }
  }

  lemma FrameSizeShape(msgs: seq<Msg>)
    requires |msgs| <= 1 && (msgs != [] ==> WellSized(msgs[0]))
    ensures FrameSize(msgs) % 8 == 0 && FrameSize(msgs) >= 56
    ensures msgs != [] ==>
              var t := TotalSize(msgs[0].header);
              if t <= MAX_FRAMED then FrameSize(msgs) == 56 else FrameSize(msgs) == t + 8
  {
    if msgs != [] {
      DataSizeGap(msgs[0].header.size);
    }
  }

  /**
   The flits of a frame under construction: zeroed, the message copied in at flit 0, the
   mask written over the last flit.
   */
  function FlitBytes(msgs: seq<Msg>): (s: seq<byte>)
    requires |msgs| <= 1 && (msgs != [] ==> WellSized(msgs[0]))
    ensures |s| == FrameSize(msgs) - 8 && |s| % 8 == 0 && |s| >= 48
  {
    FrameSizeShape(msgs);
    var n := FrameSize(msgs) - 8;
    var area := if msgs == [] then Zeros(n) else MsgBytes(msgs[0]) + Zeros(n - |MsgBytes(msgs[0])|);
    area[..n - 8] + ToLittleEndian(Mask(msgs), 8)
  }

  // ----- Extraction -----

  function Min(a: nat, b: nat): nat { if a <= b then a else b }

  /** tloe_get_tlmsg at flit i of a receive frame; what lies beyond the frame is not read. */
  function ExtractAt(area: seq<byte>, i: nat): Msg
    requires 8 * i + 8 <= |area|
  {
    var h := UnpackTl(LittleEndian(area[8 * i..8 * i + 8]));
    var end := Min(8 * i + TotalSize(h), |area|);
    Msg(h, if end < 8 * i + 8 then [] else area[8 * i + 8..end])
  }

  /** The messages serve_normal_request finds: one for each set bit of the mask, from flit i up. */
  function MaskedMsgs(area: seq<byte>, mask: nat, i: nat, bits: nat): seq<Msg>
    requires mask < Pow2(bits) && 8 * (i + bits) <= |area|
    decreases mask
  {
    if mask == 0 then []
    else
      (if mask % 2 == 1 then [ExtractAt(area, i)] else []) + MaskedMsgs(area, mask / 2, i + 1, bits - 1)
  }

  // ----- Set bits -----

  predicate BitSet(mask: nat, p: nat) {
    if p == 0 then mask % 2 == 1 else BitSet(mask / 2, p - 1)
  }

  /** How many bits below p are set. */
  function Rank(mask: nat, p: nat): nat {
    if p == 0 then 0 else mask % 2 + Rank(mask / 2, p - 1)
  }

  /** The positions of the set bits, counted from i. */
  function SetBits(mask: nat, i: nat): seq<nat>
    decreases mask
  {
    if mask == 0 then [] else (if mask % 2 == 1 then [i] else []) + SetBits(mask / 2, i + 1)
  }

  lemma {:induction false} SetBitsCount(mask: nat, i: nat)
    ensures |SetBits(mask, i)| == PopCount(mask)
    decreases mask
  {
    if mask != 0 {
      SetBitsCount(mask / 2, i + 1);
    }
  }

  /** Bit p comes after the set bits below it. */
  lemma {:induction false} SetBitsAt(mask: nat, i: nat, p: nat)
    requires BitSet(mask, p)
    ensures Rank(mask, p) < |SetBits(mask, i)| && SetBits(mask, i)[Rank(mask, p)] == i + p
    decreases p
  {
    NotZero(mask, p);
    if p > 0 {
      SetBitsAt(mask / 2, i + 1, p - 1);
      SetBitAfter(mask, i, p, SetBits(mask / 2, i + 1), Rank(mask / 2, p - 1));
    }
  }

  /** The first bit comes before all others. */
  lemma SetBitAfter(mask: nat, i: nat, p: nat, rest: seq<nat>, k: nat)
    requires mask > 0 && p > 0 && rest == SetBits(mask / 2, i + 1) && k == Rank(mask / 2, p - 1)
    requires k < |rest| && rest[k] == i + p
    ensures Rank(mask, p) < |SetBits(mask, i)| && SetBits(mask, i)[Rank(mask, p)] == i + p
  {
    assert SetBits(mask, i) == (if mask % 2 == 1 then [i] else []) + rest;
    assert Rank(mask, p) == mask % 2 + k;
  }

  lemma {:induction false} NotZero(mask: nat, p: nat)
    requires BitSet(mask, p)
    ensures mask > 0
  {
    if p > 0 {
      NotZero(mask / 2, p - 1);
    }
  }

  /** The messages at these flits. */
  predicate FoundAt(area: seq<byte>, ms: seq<Msg>, ps: seq<nat>) {
    && |ms| == |ps|
    && forall k :: 0 <= k < |ps| ==> 8 * ps[k] + 8 <= |area| && ms[k] == ExtractAt(area, ps[k])
  }

  /** One message for each set bit, in order. */
  lemma {:induction false} MaskedFollowsBits(area: seq<byte>, mask: nat, i: nat, bits: nat)
    requires mask < Pow2(bits) && 8 * (i + bits) <= |area|
    ensures FoundAt(area, MaskedMsgs(area, mask, i, bits), SetBits(mask, i))
    decreases mask
  {
    if mask != 0 {
      MaskedFollowsBits(area, mask / 2, i + 1, bits - 1);
      var odd := mask % 2 == 1;
      FoundBefore(area, odd, i, MaskedMsgs(area, mask / 2, i + 1, bits - 1), SetBits(mask / 2, i + 1));
    }
  }

  lemma FoundBefore(area: seq<byte>, odd: bool, i: nat, ms: seq<Msg>, ps: seq<nat>)
    requires FoundAt(area, ms, ps) && 8 * i + 8 <= |area|
    ensures FoundAt(area, (if odd then [ExtractAt(area, i)] else []) + ms, (if odd then [i] else []) + ps)
  {
    if odd {
      var ms', ps' := [ExtractAt(area, i)] + ms, [i] + ps;
      forall k | 0 <= k < |ps'| ensures 8 * ps'[k] + 8 <= |area| && ms'[k] == ExtractAt(area, ps'[k]) {
        if k > 0 {
          assert ms'[k] == ms[k - 1] && ps'[k] == ps[k - 1];
        }
      }
    } else {
      assert [] + ms == ms && [] + ps == ps;
    }
  }

  lemma MaskLoopStep(area: seq<byte>, mask: nat, i: nat, bits: nat, found: seq<Msg>, all: seq<Msg>)
    requires 0 < mask < Pow2(bits) && 8 * (i + bits) <= |area|
    requires found + MaskedMsgs(area, mask, i, bits) == all
    ensures bits > 0 && mask / 2 < Pow2(bits - 1)
    ensures (found + (if mask % 2 == 1 then [ExtractAt(area, i)] else []))
            + MaskedMsgs(area, mask / 2, i + 1, bits - 1) == all
  {
  }

  /** One message per set bit, in order of position. */
  predicate Extracts(area: seq<byte>, mask: nat, bits: nat, msgs: seq<Msg>)
    requires 8 * bits <= |area|
  {
    && |msgs| == PopCount(mask)
    && forall p :: 0 <= p < bits && BitSet(mask, p) ==>
         Rank(mask, p) < |msgs| && msgs[Rank(mask, p)] == ExtractAt(area, p)
  }

  lemma MaskedExtracts(area: seq<byte>, mask: nat, bits: nat)
    requires mask < Pow2(bits) && 8 * bits <= |area|
    ensures Extracts(area, mask, bits, MaskedMsgs(area, mask, 0, bits))
  {
    SetBitsCount(mask, 0);
    MaskedFollowsBits(area, mask, 0, bits);
    FoundExtracts(area, mask, bits, MaskedMsgs(area, mask, 0, bits), SetBits(mask, 0));
  }

  lemma FoundExtracts(area: seq<byte>, mask: nat, bits: nat, msgs: seq<Msg>, ps: seq<nat>)
    requires 8 * bits <= |area| && FoundAt(area, msgs, ps) && ps == SetBits(mask, 0) && |ps| == PopCount(mask)
    ensures Extracts(area, mask, bits, msgs)
  {
    forall p | 0 <= p < bits && BitSet(mask, p)
      ensures Rank(mask, p) < |msgs| && msgs[Rank(mask, p)] == ExtractAt(area, p)
    {
      SetBitsAt(mask, 0, p);
      FoundOne(area, msgs, ps, Rank(mask, p), p);
    }
  }

  lemma FoundOne(area: seq<byte>, msgs: seq<Msg>, ps: seq<nat>, k: nat, p: nat)
    requires FoundAt(area, msgs, ps) && k < |ps| && ps[k] == p
    ensures k < |msgs| && 8 * p + 8 <= |area| && msgs[k] == ExtractAt(area, p)
  {
  }

  /** The loop of serve_normal_request; the mask is a word of `bits` bits. */
  method ExtractMessages(area: seq<byte>, initial: nat, bits: nat) returns (msgs: seq<Msg>)
    requires initial < Pow2(bits) && 8 * bits <= |area|
    ensures msgs == MaskedMsgs(area, initial, 0, bits) && Extracts(area, initial, bits, msgs)
  {
    msgs := MaskLoop(area, initial, bits);
    MaskedExtracts(area, initial, bits);
  }

  method MaskLoop(area: seq<byte>, initial: nat, bits: nat) returns (msgs: seq<Msg>)
    requires initial < Pow2(bits) && 8 * bits <= |area|
    ensures msgs == MaskedMsgs(area, initial, 0, bits)
  {
    var mask: nat, i: nat := initial, 0;
    ghost var all := MaskedMsgs(area, initial, 0, bits);
    msgs := [];
    while mask != 0
      invariant i <= bits && mask < Pow2(bits - i)
      invariant msgs + MaskedMsgs(area, mask, i, bits - i) == all
      decreases mask
    {
      MaskLoopStep(area, mask, i, bits - i, msgs, all);
      msgs := msgs + if mask % 2 == 1 then [ExtractAt(area, i)] else [];
      mask, i := mask / 2, i + 1;
    }
  }

  /** The receive frame: 65 zeroed flits, the received ones copied over the first of them. */
  function ReceiveArea(flits: seq<nat>): (s: seq<byte>)
    requires |flits| <= 65
    ensures |s| == MAX_FLIT_BYTES
  {
    HostBytes(flits) + Zeros(MAX_FLIT_BYTES - 8 * |flits|)
  }

  const MASK_BITS: nat := 64

  function ParseMsgs(flits: seq<nat>): seq<Msg>
    requires 1 <= |flits| <= 65 && AreWords(flits)
  {
    FieldWidths();
    MaskedMsgs(ReceiveArea(flits), flits[|flits| - 1], 0, MASK_BITS)
  }

  /** What the receiver finds in the flits TX filled with msgs. */
  function Reframed(msgs: seq<Msg>): seq<Msg>
    requires |msgs| <= 1 && (msgs != [] ==> WellSized(msgs[0])) && FrameSize(msgs) <= MAX_FRAME_SIZE
  {
    FrameSizeShape(msgs);
    HostRoundTrip(FlitBytes(msgs));
    ParseMsgs(HostWords(FlitBytes(msgs)))
  }

  lemma HeaderReadBack(m: Msg)
    requires HeaderFits(m.header)
    ensures UnpackTl(LittleEndian(MsgBytes(m)[..8])) == m.header
  {
    TlHeaderRoundTrip(m.header);
    Pow256Word();
    WordOfBytes(PackTl(m.header), 8);
    assert MsgBytes(m)[..8] == ToLittleEndian(PackTl(m.header), 8);
  }

  /** A message that lies at flit i of a frame, whole, is the one extracted there. */
  lemma ExtractsWhatLies(area: seq<byte>, i: nat, m: Msg)
    requires WellSized(m) && 8 * i + TotalSize(m.header) <= |area|
    requires area[8 * i..8 * i + TotalSize(m.header)] == MsgBytes(m)
    ensures ExtractAt(area, i) == m
  {
    var lies := area[8 * i..8 * i + TotalSize(m.header)];
    HeaderReadBack(m);
    assert lies[..8] == area[8 * i..8 * i + 8] && lies[8..] == area[8 * i + 8..8 * i + TotalSize(m.header)];
    assert MsgBytes(m)[8..] == m.payload;
  }

  /** The message extracted at flit 0 takes as many bytes as the header there announces. */
  lemma ExtractFirst(h: TlHeader, area: seq<byte>)
    requires 8 <= TotalSize(h) <= |area|
    requires UnpackTl(LittleEndian(area[..8])) == h
    ensures ExtractAt(area, 0) == Msg(h, area[8..TotalSize(h)])
  {
  }

  lemma MaskReadBack(msgs: seq<Msg>)
    requires |msgs| <= 1 && (msgs != [] ==> WellSized(msgs[0]))
    ensures var ws := HostWords(FlitBytes(msgs));
            |ws| >= 6 && ws[|ws| - 1] == Mask(msgs)
  {
    FrameSizeShape(msgs);
    var s := FlitBytes(msgs);
    LastWord(s);
    assert s[|s| - 8..] == ToLittleEndian(Mask(msgs), 8);
    Pow256Word();
    WordOfBytes(Mask(msgs), 8);
  }

  lemma MaskOne(area: seq<byte>, mask: nat, bits: nat)
    requires mask == 1 && 1 <= bits && 8 * bits <= |area|
    ensures mask < Pow2(bits) && MaskedMsgs(area, mask, 0, bits) == [ExtractAt(area, 0)]
  {
  }

  lemma SliceOfConcat(x: seq<byte>, y: seq<byte>, j: nat, k: nat)
    requires j <= k <= |x|
    ensures (x + y)[j..k] == x[j..k]
  {
  }

  lemma ParseFirst(h: TlHeader, ws: seq<nat>, s: seq<byte>)
    requires 1 <= |ws| <= 65 && AreWords(ws) && ws[|ws| - 1] == 1
    requires HostBytes(ws) == s && 8 <= TotalSize(h) <= |s|
    requires UnpackTl(LittleEndian(s[..8])) == h
    ensures ParseMsgs(ws) == [Msg(h, s[8..TotalSize(h)])]
  {
    var area := ReceiveArea(ws);
    SliceOfConcat(s, Zeros(MAX_FLIT_BYTES - 8 * |ws|), 0, 8);
    SliceOfConcat(s, Zeros(MAX_FLIT_BYTES - 8 * |ws|), 8, TotalSize(h));
    MaskOne(area, ws[|ws| - 1], MASK_BITS);
    ExtractFirst(h, area);
  }

  /** The receiver always finds exactly one message at flit 0: whatever bytes are there. */
  lemma ReframedIsExtract(m: Msg)
    requires WellSized(m) && FrameSize([m]) <= MAX_FRAME_SIZE
    ensures Reframed([m]) == [Msg(m.header, FlitBytes([m])[8..TotalSize(m.header)])]
  {
    var s := FlitBytes([m]);
    FrameSizeShape([m]);
    HostRoundTrip(s);
    MaskReadBack([m]);
    HeaderReadBack(m);
    assert s[..8] == MsgBytes(m)[..8];
    ParseFirst(m.header, HostWords(s), s);
  }

  lemma ShortFlits(m: Msg)
    requires WellSized(m) && TotalSize(m.header) <= MAX_FRAMED
    ensures FlitBytes([m])[8..TotalSize(m.header)] == m.payload
  {
    FrameSizeShape([m]);
    var t, s := TotalSize(m.header), MsgBytes(m);
    assert FrameSize([m]) == 56 && |s| == t;
    var area := s + Zeros(48 - t);
    assert FlitBytes([m]) == area[..40] + ToLittleEndian(1, 8);
    assert FlitBytes([m])[8..t] == area[8..t] == s[8..t] == m.payload;
  }

  lemma LongFlits(m: Msg)
    requires WellSized(m) && TotalSize(m.header) > MAX_FRAMED
    ensures TotalSize(m.header) >= 48
    ensures FlitBytes([m]) == MsgBytes(m)[..TotalSize(m.header) - 8] + ToLittleEndian(1, 8)
  {
    FrameSizeShape([m]);
    DataSizeGap(m.header.size);
    var t := TotalSize(m.header);
    assert FrameSize([m]) == t + 8 && |MsgBytes(m)| == t;
    assert MsgBytes(m) + Zeros(0) == MsgBytes(m);
    assert FlitBytes([m]) == (MsgBytes(m) + Zeros(0))[..t - 8] + ToLittleEndian(1, 8);
  }

  /**
   Framing, exactly: a message survives if and only if it is at most 40 bytes long, or its
   last flit happens to equal the mask that overwrites it.
   */
  lemma FramingExact(m: Msg)
    requires WellSized(m) && FrameSize([m]) <= MAX_FRAME_SIZE
    ensures var t := TotalSize(m.header);
            Reframed([m]) == [m] <==> t <= MAX_FRAMED || MsgBytes(m)[t - 8..] == ToLittleEndian(1, 8)
  {
    ReframedIsExtract(m);
    if TotalSize(m.header) <= MAX_FRAMED {
      ShortFlits(m);
    } else {
      LongFraming(m);
    }
  }

  lemma LongFraming(m: Msg)
    requires WellSized(m) && TotalSize(m.header) > MAX_FRAMED
    ensures var t := TotalSize(m.header);
            && |FlitBytes([m])| >= t && |MsgBytes(m)| == t >= 48
            && (FlitBytes([m])[8..t] == m.payload <==> MsgBytes(m)[t - 8..] == ToLittleEndian(1, 8))
  {
    LongFlits(m);
    LastEightDecide(MsgBytes(m), ToLittleEndian(1, 8));
    assert MsgBytes(m)[8..TotalSize(m.header)] == m.payload;
  }

  /** Replacing the last eight bytes leaves the tail of b alone exactly if they were already there. */
  lemma LastEightDecide(b: seq<byte>, mask: seq<byte>)
    requires |b| >= 16 && |mask| == 8
    ensures var t := |b|;
            (b[..t - 8] + mask)[8..t] == b[8..t] <==> b[t - 8..] == mask
  {
    var t := |b|;
    var s := b[..t - 8] + mask;
    assert s[t - 8..] == mask && s[8..t][t - 16..] == s[t - 8..] && b[8..t][t - 16..] == b[t - 8..];
    if b[t - 8..] == mask {
      assert s == b;
    }
  }

  /** A 48-byte write whose last word does not end in 1 comes out of the wire changed. */
  lemma LongMessageCorrupted(m: Msg)
    requires WellSized(m) && TotalSize(m.header) == 48 && m.payload[32] != 1
    ensures FrameSize([m]) <= MAX_FRAME_SIZE && Reframed([m]) != [m]
  {
    FrameSizeShape([m]);
    FramingExact(m);
    assert MsgBytes(m)[40..][0] == m.payload[32] && ToLittleEndian(1, 8)[0] == 1;
  }

  lemma LongMessageExample() returns (m: Msg)
    ensures IsPutFull(m) && WellSized(m) && FrameSize([m]) <= MAX_FRAME_SIZE && Reframed([m]) != [m]
  {
    m := Msg(TlHeader(0, 0, 0, 0, 5, 0, 0, A_PUTFULLDATA, CHANNEL_A, 0), Zeros(40));
    Pow2Values();
    LongMessageCorrupted(m);
  }

  // ----- Frames on the wire -----

  predicate WireReady(f: Frame) {
    && 0 <= f.ftype < 16 && IsSeq(f.seqNum) && IsSeq(f.seqAck) && 0 <= f.ack < 2
    && f.chan < 8 && f.credit < 32
    && |f.msgs| <= 1 && (f.msgs != [] ==> Admissible(f.msgs[0]))
  }

  function ToRaw(f: Frame): RawFrame
    requires WireReady(f)
  {
    FrameSizeShape(f.msgs);
    RawFrame(WireHeader(f.credit, f.chan, 0, f.ack, f.seqAck, f.seqNum, 0, 0, f.ftype, 0),
             HostWords(FlitBytes(f.msgs)))
  }

  /** From an abstract frame to the bytes handed to the fabric. */
  function Wire(f: Frame): seq<byte>
    requires WireReady(f)
  {
    EncodePacket(ToRaw(f))
  }

  /** From the bytes received to the frame RX works on. */
  function Unwire(s: seq<byte>): Frame
    requires 16 <= |s| <= MAX_FRAME_SIZE && |s| % 8 == 0
  {
    var raw := DecodePacket(s);
    PacketIsEncoding(s);
    Frame(raw.header.ftype, raw.header.seqNum, raw.header.seqAck, raw.header.ack,
          raw.header.chan, raw.header.credit, ParseMsgs(raw.flits))
  }

  lemma MsgsRoundTrip(msgs: seq<Msg>)
    requires |msgs| <= 1 && (msgs != [] ==> Admissible(msgs[0]))
    ensures FrameSize(msgs) == DEFAULT_FRAME_SIZE && Reframed(msgs) == msgs
  {
    FrameSizeShape(msgs);
    if msgs == [] {
      MaskReadBack(msgs);
    } else {
      assert msgs == [msgs[0]];
      FramingExact(msgs[0]);
    }
  }

  /** Every frame an endpoint sends arrives as the frame it was, in a 56-byte packet. */
  lemma WireRoundTrip(f: Frame)
    requires WireReady(f)
    ensures |Wire(f)| == DEFAULT_FRAME_SIZE && Unwire(Wire(f)) == f
  {
    FrameSizeShape(f.msgs);
    MsgsRoundTrip(f.msgs);
    HostRoundTrip(FlitBytes(f.msgs));
    PacketRoundTrip(ToRaw(f));
  }
}
