/** Credits as values: what flowcontrol.c and flowcontrol.h compute. */
module FlowSpec {
  import opened Bits
  import opened TileLink

  const CREDIT_INIT: nat := 7
  const CREDIT_DEFAULT: nat := 10

  predicate IsVector(v: seq<int>) {
    |v| == CHANNEL_NUM && forall c :: 0 <= c < CHANNEL_NUM ==> 0 <= v[c] < UINT32
  }

  /** The first channel among the first n that holds the largest value (select_max_credit_channel). */
  function SelectMax(flow: seq<int>, n: nat): (chan: nat)
    requires 1 <= n <= |flow|
    ensures chan < n
    ensures forall c :: 0 <= c < n ==> flow[c] <= flow[chan]
    ensures forall c :: 0 <= c < chan ==> flow[c] < flow[chan]
  {
    if n == 1 then 0
    else
      var best := SelectMax(flow, n - 1);
      if flow[n - 1] <= flow[best] then best else n - 1
  }

  function SelectMaxCreditChannel(flow: seq<int>): nat
    requires |flow| == CHANNEL_NUM
  {
    SelectMax(flow, CHANNEL_NUM)
  }

  /** get_largest_pow: 31 - clz(v), the position of the top bit. */
  function LargestPow(v: nat): (k: nat)
    requires v > 0
    ensures Pow2(k) <= v < Pow2(k + 1)
  {
    if v == 1 then 0 else 1 + LargestPow(v / 2)
  }

  /** try_dec_credits in the comparison made by fc_credit_dec: can the sender pay for m? */
  predicate CanPay(credits: seq<int>, m: Msg)
    requires |credits| == CHANNEL_NUM && m.header.chan < CHANNEL_NUM
  {
    && m.header.chan != 0
    && Flits(m) <= credits[m.header.chan]
    && credits[m.header.chan] != UINT32 - 1
  }

  /** fc_credit_dec on success */
  function Pay(credits: seq<int>, m: Msg): (r: seq<int>)
    requires |credits| == CHANNEL_NUM && m.header.chan < CHANNEL_NUM
    ensures |r| == CHANNEL_NUM
  {
    credits[m.header.chan := credits[m.header.chan] - Flits(m)]
  }

  /** fc_credit_inc: channel 0 carries no credit; the addition is 32-bit unsigned. */
  function AddCredit(credits: seq<int>, chan: nat, credit: nat): (r: seq<int>)
    requires |credits| == CHANNEL_NUM && chan < CHANNEL_NUM
    ensures |r| == CHANNEL_NUM
  {
    if chan == 0 then credits
    else credits[chan := (credits[chan] + Pow2(credit)) % UINT32]
  }

  /** add_channel_flow_credits */
  function AddFlow(flow: seq<int>, chan: nat, flits: nat): (r: seq<int>)
    requires |flow| == CHANNEL_NUM && chan < CHANNEL_NUM
    ensures |r| == CHANNEL_NUM
  {
    flow[chan := (flow[chan] + flits) % UINT32]
  }

  /** get_outgoing_credits: the vector after the top power of two has left it */
  function TakeFlow(flow: seq<int>, chan: nat): (r: seq<int>)
    requires |flow| == CHANNEL_NUM && chan < CHANNEL_NUM && flow[chan] > 0
    ensures |r| == CHANNEL_NUM
  {
    flow[chan := flow[chan] - Pow2(LargestPow(flow[chan]))]
  }

  /** set_credit on the credit vector; tx_flow_credits of the channel is cleared beside it */
  function SetCredit(credits: seq<int>, chan: nat, credit: nat): (r: seq<int>)
    requires |credits| == CHANNEL_NUM && chan < CHANNEL_NUM
    ensures |r| == CHANNEL_NUM
  {
    credits[chan := Pow2(credit) % UINT32]
  }

  /** check_all_channels */
  predicate AllChannelsFilled(credits: seq<int>)
    requires |credits| == CHANNEL_NUM
  {
    forall c :: CHANNEL_A <= c <= CHANNEL_E ==> credits[c] > Pow2(CREDIT_INIT)
  }

  // ----- Credit return arithmetic -----

  /**
   TX takes the selected channel to mean "there is credit to return" exactly when it is
   not 0: then the logarithm is defined and the subtraction does not underflow.  When
   channel 0 itself holds nothing, 0 is selected only if nothing is left to return.
   */
  lemma SelectedChannelHasCredit(flow: seq<int>)
    requires IsVector(flow)
    ensures var c := SelectMaxCreditChannel(flow);
            c != 0 ==> flow[c] > 0 && Pow2(LargestPow(flow[c])) <= flow[c] && LargestPow(flow[c]) < 32
    ensures flow[0] == 0 && SelectMaxCreditChannel(flow) == 0
            ==> forall c :: 0 <= c < CHANNEL_NUM ==> flow[c] == 0
  {
    var c := SelectMaxCreditChannel(flow);
    if c != 0 {
      assert flow[0] < flow[c];
      LargestPowBelow(flow[c], 32);
    }
  }

  lemma LargestPowBelow(v: nat, n: nat)
    requires 0 < v < Pow2(n) || (0 < v < UINT32 && n == 32)
    ensures LargestPow(v) < n
  {
    Pow2Values();
    if LargestPow(v) >= n {
      if LargestPow(v) > n {
        Pow2Monotone(n, LargestPow(v));
      }
      assert false;
    }
  }

  /** The exponents get_outgoing_credits returns when a channel holding v is drained. */
  function Drain(v: nat): seq<nat>
    decreases v
  {
    if v == 0 then [] else [LargestPow(v)] + Drain(v - Pow2(LargestPow(v)))
  }

  function PopCount(v: nat): nat {
    if v == 0 then 0 else v % 2 + PopCount(v / 2)
  }

  function SumPow2(es: seq<nat>): nat {
    if es == [] then 0 else Pow2(es[0]) + SumPow2(es[1..])
  }

  lemma {:induction false} PopCountTopBit(v: nat)
    requires v > 0
    ensures PopCount(v - Pow2(LargestPow(v))) == PopCount(v) - 1
  {
    if v > 1 {
      var q := v / 2;
      PopCountTopBit(q);
      var rest := v - Pow2(LargestPow(v));
      assert rest == 2 * (q - Pow2(LargestPow(q))) + v % 2;
      assert rest / 2 == q - Pow2(LargestPow(q)) && rest % 2 == v % 2;
      if rest == 0 {
        assert q - Pow2(LargestPow(q)) == 0;
      }
    }
  }

  /** Draining returns exactly v, in popcount(v) frames. */
  lemma {:induction false} DrainReturnsEverything(v: nat)
    ensures SumPow2(Drain(v)) == v
    ensures |Drain(v)| == PopCount(v)
    decreases v
  {
    if v > 0 {
      var rest := v - Pow2(LargestPow(v));
      DrainReturnsEverything(rest);
      PopCountTopBit(v);
      assert Drain(v)[1..] == Drain(rest);
    }
  }

  /** The exponents strictly decrease and fit the 5-bit credit field of a 32-bit count. */
  lemma {:induction false} DrainExponentsDecrease(v: nat)
    ensures forall i, j :: 0 <= i < j < |Drain(v)| ==> Drain(v)[i] > Drain(v)[j]
    ensures v < UINT32 ==> forall i :: 0 <= i < |Drain(v)| ==> Drain(v)[i] < 32
    decreases v
  {
    if v > 0 {
      var k := LargestPow(v);
      var rest := v - Pow2(k);
      DrainExponentsDecrease(rest);
      assert Drain(v) == [k] + Drain(rest);
      if rest > 0 {
        LargestPowBelow(rest, k);
        assert Drain(rest)[0] == LargestPow(rest) < k;
      }
      if v < UINT32 {
        LargestPowBelow(v, 32);
      }
    }
  }
}
