/** flowcontrol_t and its operations, in place (flowcontrol.c, flowcontrol.h). */
module FlowControls {
  import opened Bits
  import opened TileLink
  import opened FlowSpec

  class FlowControl {
    const credits: array<int>
    const flow: array<int>     // tx_flow_credits

    ghost function Repr(): set<object> { {this, credits, flow} }

    ghost predicate Valid()
      reads credits, flow
    {
      credits != flow && IsVector(credits[..]) && IsVector(flow[..])
    }

    /** init_flowcontrol */
    constructor ()
      ensures Valid() && fresh(credits) && fresh(flow)
      ensures credits[..] == [128, 128, 128, 128, 128, 128] && flow[..] == [0, 0, 0, 0, 0, 0]
    {
      credits := new int[6];
      flow := new int[6];
      new;
      for i := 0 to 6
        invariant forall c :: 0 <= c < i ==> credits[c] == 128 && flow[c] == 0
      {
        credits[i] := 128;
        flow[i] := 0;
      }
      assert credits[..] == [128, 128, 128, 128, 128, 128];
      assert flow[..] == [0, 0, 0, 0, 0, 0];
    }

    /** set_credit: 1 << credit, and nothing left to return on that channel */
    method SetCredit(channel: nat, credit: nat)
      requires Valid() && channel < CHANNEL_NUM
      modifies credits, flow
      ensures Valid()
      ensures credits[..] == FlowSpec.SetCredit(old(credits[..]), channel, credit)
      ensures flow[..] == old(flow[..])[channel := 0]
    {
      credits[channel] := Pow2(credit) % UINT32;
      flow[channel] := 0;
    }

    /** select_max_credit_channel */
    method SelectMaxCreditChannel() returns (chan: nat)
      requires Valid()
      ensures chan == FlowSpec.SelectMaxCreditChannel(flow[..])
      ensures chan < CHANNEL_NUM && (chan != 0 ==> flow[chan] > 0)
    {
      chan := 0;
      var maxCredit := flow[0];
      ghost var v := flow[..];
      for i := 1 to 6
        invariant chan == SelectMax(v, i) && maxCredit == v[chan]
      {
        if flow[i] > maxCredit {
          maxCredit := flow[i];
          chan := i;
        }
      }
      SelectedChannelHasCredit(v);
    }

    /** fc_credit_dec: the flits of m, or -1 when they cannot be paid */
    method CreditDec(m: Msg) returns (dec: int)
      requires Valid() && m.header.chan < CHANNEL_NUM
      modifies credits
      ensures Valid()
      ensures if CanPay(old(credits[..]), m) then dec == Flits(m) && credits[..] == Pay(old(credits[..]), m)
              else dec == -1 && credits[..] == old(credits[..])
      ensures var c := m.header.chan;
              && (dec != -1 <==> c != 0 && Flits(m) <= old(credits[c]) < 0xFFFF_FFFF)
              && (dec != -1 ==> dec == Flits(m) && credits[..] == old(credits[..])[c := old(credits[c]) - Flits(m)])
    {
      var chan := m.header.chan;
      dec := -1;
      if chan != 0 {
        dec := Flits(m);
      }
      // try_dec_credits compares unsigned and reports the balance as an int
      var need := if dec == -1 then UINT32 - 1 else dec;
      var available := if credits[chan] < need || credits[chan] == UINT32 - 1 then -1 else credits[chan];
      if available == -1 {
        dec := -1;
      }
      if dec != -1 {
        credits[chan] := credits[chan] - dec;
      }
    }

    /** fc_credit_inc */
    method CreditInc(chan: nat, credit: nat)
      requires Valid() && chan < CHANNEL_NUM
      modifies credits
      ensures Valid() && credits[..] == AddCredit(old(credits[..]), chan, credit)
    {
      if chan != 0 {
        credits[chan] := (credits[chan] + Pow2(credit)) % UINT32;
      }
    }

    /** add_channel_flow_credits */
    method AddFlowCredits(chan: nat, flits: nat)
      requires Valid() && chan < CHANNEL_NUM
      modifies flow
      ensures Valid() && flow[..] == AddFlow(old(flow[..]), chan, flits)
    {
      flow[chan] := (flow[chan] + flits) % UINT32;
    }

    /** get_outgoing_credits */
    method GetOutgoingCredits(chan: nat) returns (credit: nat)
      requires Valid() && chan < CHANNEL_NUM && flow[chan] > 0
      modifies flow
      ensures Valid() && credit == LargestPow(old(flow[chan]))
      ensures flow[..] == TakeFlow(old(flow[..]), chan)
    {
      credit := LargestPow(flow[chan]);
      flow[chan] := flow[chan] - Pow2(credit);
    }

    /** check_all_channels */
    method CheckAllChannels() returns (filled: bool)
      requires Valid()
      ensures filled <==> AllChannelsFilled(credits[..])
    {
      var init := Pow2(CREDIT_INIT);
      filled := credits[CHANNEL_A] > init && credits[CHANNEL_B] > init && credits[CHANNEL_C] > init
             && credits[CHANNEL_D] > init && credits[CHANNEL_E] > init;
      ghost var v := credits[..];
      assert v[1] == credits[1] && v[2] == credits[2] && v[3] == credits[3] && v[4] == credits[4] && v[5] == credits[5];
    }
  }
}
