/** What RX makes of every frame, for every endpoint, in the numbers the endpoint holds. */
module RxRules {
  import opened Bits
  import opened SeqNum
  import opened TileLink
  import opened LinkSpec

  /** How far seqNum is ahead of nextRx around the circle. */
  function Ahead(seqNum: int, nextRx: int): int {
    (seqNum - nextRx) % 0x40_0000
  }

  /** Less than half a circle behind, or exactly half and itself in the upper half. */
  predicate IsOld(seqNum: int, nextRx: int) {
    var d := Ahead(seqNum, nextRx);
    d > 0x20_0000 || (d == 0x20_0000 && seqNum >= 0x20_0000)
  }

  lemma ClassifyExactly(seqNum: int, nextRx: int)
    requires IsSeq(seqNum) && IsSeq(nextRx)
    ensures Classify(seqNum, nextRx) == ReqNormal <==> seqNum == nextRx
    ensures Classify(seqNum, nextRx) == ReqDuplicate <==> IsOld(seqNum, nextRx)
  {
  }

  /** What every frame does: an ack counted, and an ack-only frame per half timeout allowed again. */
  predicate CountsAck(e: Ep, e': Ep) {
    && !e'.ackSent && e'.cnt.ack == e.cnt.ack + 1 && e'.cnt.ackOnly == e.cnt.ackOnly
    && e'.nextTx == e.nextTx && e'.flow == e.flow && |e'.window| <= |e.window|
  }

  /** The next number, the messages, the credit, and an ack owed if there was no message. */
  predicate TakesIn(e: Ep, e': Ep, f: Frame)
    requires |e.credits| == CHANNEL_NUM && f.chan < CHANNEL_NUM
  {
    && e'.nextRx == (f.seqNum + 1) % 0x40_0000 && e'.inbox == e.inbox + f.msgs
    && e'.credits == (if f.chan == 0 then e.credits
                      else e.credits[f.chan := (e.credits[f.chan] + Pow2(f.credit)) % 0x1_0000_0000])
    && (e'.ackPending <==> e.ackPending || f.msgs == [])
    && e'.ackBuf == e.ackBuf && e'.status == e.status && e'.cnt.dup == e.cnt.dup && e'.cnt.oos == e.cnt.oos
  }

  predicate LeavesAlone(e: Ep, e': Ep) {
    && e'.nextRx == e.nextRx && e'.inbox == e.inbox && e'.credits == e.credits && e'.ackPending == e.ackPending
  }

  /** One more ack to send: for an old frame its own number, for one from the future the last accepted. */
  predicate ParksAck(e: Ep, e': Ep, f: Frame) {
    var past := IsOld(f.seqNum, e.nextRx);
    && |e'.ackBuf| == |e.ackBuf| + 1 && e'.ackBuf[..|e.ackBuf|] == e.ackBuf
    && e'.ackBuf[|e.ackBuf|].seqAck == (if past then f.seqNum else (e.nextRx - 1) % 0x40_0000)
    && e'.ackBuf[|e.ackBuf|].ack == (if past then 1 else 0)
    && e'.cnt.dup == e.cnt.dup + (if past then 1 else 0) && e'.cnt.oos == e.cnt.oos + (if past then 0 else 1)
    && e'.status == e.status
  }

  lemma Acked(e: Ep, f: Frame, now: int)
    ensures var a := ServeAck(e, f, now).ep;
            a == e.(window := a.window, cnt := e.cnt.(ack := e.cnt.ack + 1)) && |a.window| <= |e.window|
  {
  }

  /**
   RX of any frame: an ack-only frame changes no more than its ack does; the frame expected
   is taken in, or the process exits if tl_msg_buffer has not the room; any other leaves an
   ack behind, or the process exits if 2047 wait already.
   */
  lemma ReceivesExactly(e: Ep, f: Frame, now: int)
    requires Shape(e) && IsSeq(f.seqNum) && f.chan < CHANNEL_NUM
    ensures var e' := RxStep(e, f, now).ep;
            && CountsAck(e, e')
            && if f.ftype == 1 then
                 LeavesAlone(e, e') && e'.ackBuf == e.ackBuf && e'.status == e.status
               else if f.seqNum == e.nextRx then
                 if |e.inbox| + |f.msgs| > 9999 then e'.status == InboxOverflow else TakesIn(e, e', f)
               else
                 && LeavesAlone(e, e')
                 && if |e.ackBuf| >= 2047 then e'.status == AckBufferFull else ParksAck(e, e', f)
  {
    Acked(e, f, now);
    ClassifyExactly(f.seqNum, e.nextRx);
  }
}
