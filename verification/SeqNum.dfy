/**
 Wrapping 22-bit sequence numbers (tloe_seq_mgr.c) and their reading as a window
 onto the unbounded integers.

 Unbounded ("ghost") numbers are plain integers; the number a frame carries is the
 ghost number modulo SEQ_MOD.  Dafny's `%` is Euclidean, so `(-1) % SEQ_MOD` is the
 largest sequence number, exactly what tloe_seqnum_prev(0) yields.
 */
module SeqNum {

  const SEQ_MOD: int := 0x40_0000
  const MAX_SEQ_NUM: int := SEQ_MOD - 1
  const HALF: int := 0x20_0000

  predicate IsSeq(a: int) {
    0 <= a < SEQ_MOD
  }

  function Sign(x: int): int {
    if x == 0 then 0 else if x > 0 then 1 else -1
  }

  /** tloe_seqnum_cmp */
  function Cmp(a: int, b: int): int {
    var diff := a - b;
    if diff == 0 then 0
    else if diff > 0 then (if diff < HALF then 1 else -1)
    else (if -diff < HALF then -1 else 1)
  }

  /** tloe_seqnum_prev */
  function Prev(a: int): int {
    if a - 1 < 0 then MAX_SEQ_NUM else a - 1
  }

  /** tloe_seqnum_next */
  function Next(a: int): int {
    (a + 1) % SEQ_MOD
  }

  /** tloe_seqnum_update_acked_seq */
  function UpdateAcked(acked: int, ack: int): int {
    if Cmp(ack, acked) > 0 then ack else acked
  }

  /** Section 3.2 of RFC 1982 with SERIAL_BITS = 22: s1 is less than s2. */
  predicate SerialLess(a: int, b: int) {
    (a < b && b - a < HALF) || (a > b && a - b > HALF)
  }

  /** Distance going upwards from a to b, around the circle. */
  function Distance(a: int, b: int): (d: int)
    ensures 0 <= d < SEQ_MOD
  {
    (b - a) % SEQ_MOD
  }

  /** The largest ghost number not above hi that is carried as x. */
  function Unwrap(x: int, hi: int): int {
    hi - (hi - x) % SEQ_MOD
  }

  // ----- Serial order -----

  lemma CmpAntisymmetric(a: int, b: int)
    requires IsSeq(a) && IsSeq(b)
    ensures Cmp(a, b) == -Cmp(b, a)
    ensures Cmp(a, b) == 0 <==> a == b
  {
  }

  /** cmp is the order of RFC 1982 wherever that order is defined (distance not 2^21). */
  lemma CmpIsSerialOrder(a: int, b: int)
    requires IsSeq(a) && IsSeq(b)
    requires Distance(a, b) != HALF
    ensures Cmp(a, b) < 0 <==> SerialLess(a, b)
    ensures Cmp(a, b) > 0 <==> SerialLess(b, a)
  {
  }

  /**
   The central fact: on ghost numbers less than 2^21 apart the wrapping comparison is
   the comparison of the unbounded numbers, across any number of wraps.
   */
  lemma CmpRefines(x: int, y: int)
    requires -HALF < x - y < HALF
    ensures Cmp(x % SEQ_MOD, y % SEQ_MOD) == Sign(x - y)
  {
  }

  /**
   Beyond that distance, exactly: for ghost numbers less than a full circle apart the later
   one is judged later if and only if they are less than 2^21 apart, or exactly 2^21 apart
   with the later one in the lower half of the circle.
   */
  lemma CmpExact(x: int, y: int)
    requires 0 < x - y < SEQ_MOD
    ensures Cmp(x % SEQ_MOD, y % SEQ_MOD) == (if x - y < HALF || (x - y == HALF && x % SEQ_MOD < HALF) then 1 else -1)
  {
  }

  /** Within an arc shorter than 2^21 starting at p, cmp is transitive and total. */
  lemma CmpTransitiveOnArc(p: int, a: int, b: int, c: int)
    requires IsSeq(p) && IsSeq(a) && IsSeq(b) && IsSeq(c)
    requires Distance(p, a) < HALF && Distance(p, b) < HALF && Distance(p, c) < HALF
    requires Cmp(a, b) <= 0 && Cmp(b, c) <= 0
    ensures Cmp(a, c) <= 0
    ensures Cmp(a, c) == 0 <==> (a == b && b == c)
  {
  }

  lemma NextPrevInverse(a: int)
    requires IsSeq(a)
    ensures IsSeq(Next(a)) && IsSeq(Prev(a))
    ensures Next(Prev(a)) == a && Prev(Next(a)) == a
    ensures Next(a) != a
  {
  }

  /**
   next commutes with cmp exactly when the pair is not at the undefined distance 2^21
   with one of the two about to wrap.
   */
  lemma CmpNextCommutes(a: int, b: int)
    requires IsSeq(a) && IsSeq(b)
    ensures Cmp(Next(a), Next(b)) == Cmp(a, b)
       <==> !(Distance(a, b) == HALF && (a == MAX_SEQ_NUM || b == MAX_SEQ_NUM))
  {
  }

  /** The same for prev, where the exception is a pair with one of the two at 0. */
  lemma CmpPrevCommutes(a: int, b: int)
    requires IsSeq(a) && IsSeq(b)
    ensures Cmp(Prev(a), Prev(b)) == Cmp(a, b)
       <==> !(Distance(a, b) == HALF && (a == 0 || b == 0))
  {
  }

  /** Such a pair: 2^22 - 1 is judged before 2^21 - 1, its successor 0 after 2^21. */
  lemma CmpNextExample()
    ensures Cmp(MAX_SEQ_NUM, HALF - 1) == -1 && Cmp(Next(MAX_SEQ_NUM), Next(HALF - 1)) == 1
  {
  }

  // ----- Ghost numbers -----

  lemma NextRefines(x: int)
    ensures Next(x % SEQ_MOD) == (x + 1) % SEQ_MOD
  {
  }

  lemma PrevRefines(x: int)
    ensures Prev(x % SEQ_MOD) == (x - 1) % SEQ_MOD
  {
  }

  lemma UnwrapExact(n: int, hi: int)
    requires n <= hi < n + SEQ_MOD
    ensures Unwrap(n % SEQ_MOD, hi) == n
  {
  }

}
