/** The buffer scheduler over a whole run of calls (select_buffer in tloe_endpoint.c). */
module Scheduler {
  import opened Options
  import opened TileLink
  import opened HostSpec

  /** What the handler and the user put into the two buffers between two calls. */
  datatype Arrival = Arrival(resp: seq<Msg>, msg: seq<Msg>)

  function Arrive(h: Host, a: Arrival): Host {
    h.(respBuf := h.respBuf + a.resp, msgBuf := h.msgBuf + a.msg)
  }

  /** hs[i] is the endpoint at the i-th call; arr[i] arrives between that call and the next. */
  predicate IsCallRun(hs: seq<Host>, arr: seq<Arrival>) {
    && |hs| == |arr| + 1
    && 1 <= hs[0].selectCnt <= SELECT_PERIOD
    && forall i {:trigger arr[i]} :: 0 <= i < |arr| ==> hs[i + 1] == Arrive(SelectBuffer(hs[i]).host, arr[i])
  }

  lemma {:induction false} CounterInRange(hs: seq<Host>, arr: seq<Arrival>, i: nat)
    requires IsCallRun(hs, arr) && i < |hs|
    ensures 1 <= hs[i].selectCnt <= SELECT_PERIOD
  {
    if i > 0 {
      CounterInRange(hs, arr, i - 1);
      assert hs[i] == Arrive(SelectBuffer(hs[i - 1]).host, arr[i - 1]);
    }
  }

  /** A call that does not poll message_buffer counts down by one. */
  lemma CountsDown(hs: seq<Host>, arr: seq<Arrival>, i: nat)
    requires IsCallRun(hs, arr) && i + 1 < |hs| && !PollsMessages(hs[i])
    ensures hs[i + 1].selectCnt == hs[i].selectCnt - 1
  {
    assert hs[i + 1] == Arrive(SelectBuffer(hs[i]).host, arr[i]);
  }

  /** Any four consecutive calls poll message_buffer at least once. */
  lemma MessagesPolledWithinFour(hs: seq<Host>, arr: seq<Arrival>, i: nat)
    requires IsCallRun(hs, arr) && i + 3 < |hs|
    ensures PollsMessages(hs[i]) || PollsMessages(hs[i + 1]) || PollsMessages(hs[i + 2]) || PollsMessages(hs[i + 3])
  {
    CounterInRange(hs, arr, i);
    if !PollsMessages(hs[i]) && !PollsMessages(hs[i + 1]) && !PollsMessages(hs[i + 2]) {
      CountsDown(hs, arr, i);
      CountsDown(hs, arr, i + 1);
      CountsDown(hs, arr, i + 2);
    }
  }

  /** A waiting response is returned by this call or the next one. */
  lemma ResponseWithinTwo(hs: seq<Host>, arr: seq<Arrival>, i: nat)
    requires IsCallRun(hs, arr) && i + 1 < |hs| && hs[i].respBuf != []
    ensures || SelectBuffer(hs[i]).chosen == Some(hs[i].respBuf[0])
            || SelectBuffer(hs[i + 1]).chosen == Some(hs[i].respBuf[0])
  {
    if PollsMessages(hs[i]) {
      assert hs[i + 1] == Arrive(SelectBuffer(hs[i]).host, arr[i]);
      assert hs[i + 1].respBuf[0] == hs[i].respBuf[0];
    }
  }

  /** The call took a response, the oldest. */
  predicate TakesResponse(h: Host) {
    var s := SelectBuffer(h);
    && h.respBuf != [] && s.chosen == Some(h.respBuf[0])
    && s.host.respBuf == h.respBuf[1..] && s.host.msgBuf == h.msgBuf
  }

  /** The call polled message_buffer: its oldest message if there is one, and no response. */
  predicate TakesMessage(h: Host) {
    var s := SelectBuffer(h);
    && s.host.respBuf == h.respBuf
    && (if h.msgBuf == [] then s.chosen == None && s.host.msgBuf == []
        else s.chosen == Some(h.msgBuf[0]) && s.host.msgBuf == h.msgBuf[1..])
  }

  lemma TakesOne(h: Host)
    ensures if PollsMessages(h) then TakesMessage(h) else TakesResponse(h)
    ensures h.respBuf == [] ==> TakesMessage(h)
    ensures h.respBuf != [] ==> !(TakesMessage(h) && TakesResponse(h))
  {
  }

  lemma AfterPoll(hs: seq<Host>, arr: seq<Arrival>, i: nat)
    requires IsCallRun(hs, arr) && i + 1 < |hs|
    ensures hs[i + 1].selectCnt == if PollsMessages(hs[i]) then 4 else hs[i].selectCnt - 1
  {
    assert hs[i + 1] == Arrive(SelectBuffer(hs[i]).host, arr[i]);
  }

  /**
   After a call that polls message_buffer, if responses wait throughout, exactly the next
   three calls take responses and the fourth polls again.
   */
  lemma PollsFourApart(hs: seq<Host>, arr: seq<Arrival>, i: nat)
    requires IsCallRun(hs, arr) && i + 4 < |hs| && TakesMessage(hs[i])
    requires forall j :: i <= j <= i + 4 ==> hs[j].respBuf != []
    ensures TakesResponse(hs[i + 1]) && TakesResponse(hs[i + 2]) && TakesResponse(hs[i + 3])
    ensures TakesMessage(hs[i + 4])
  {
    TakesOne(hs[i]);
    AfterPoll(hs, arr, i);
    assert hs[i + 1].respBuf != [] && hs[i + 2].respBuf != [] && hs[i + 3].respBuf != [] && hs[i + 4].respBuf != [];
    TakesOne(hs[i + 1]);
    AfterPoll(hs, arr, i + 1);
    TakesOne(hs[i + 2]);
    AfterPoll(hs, arr, i + 2);
    TakesOne(hs[i + 3]);
    AfterPoll(hs, arr, i + 3);
    TakesOne(hs[i + 4]);
  }

  /** While no response waits every call polls message_buffer. */
  lemma PollsWhenNoResponse(h: Host)
    requires h.respBuf == []
    ensures TakesMessage(h) && SelectBuffer(h).host.selectCnt == 4
  {
    TakesOne(h);
  }

  /** What the first n calls returned from each buffer, and what arrived meanwhile. */
  function FromResponses(hs: seq<Host>, n: nat): seq<Msg>
    requires n <= |hs|
  {
    if n == 0 then []
    else FromResponses(hs, n - 1) + (if PollsMessages(hs[n - 1]) then [] else [hs[n - 1].respBuf[0]])
  }

  function FromMessages(hs: seq<Host>, n: nat): seq<Msg>
    requires n <= |hs|
  {
    if n == 0 then []
    else FromMessages(hs, n - 1)
         + (if PollsMessages(hs[n - 1]) && hs[n - 1].msgBuf != [] then [hs[n - 1].msgBuf[0]] else [])
  }

  function ArrivedResponses(arr: seq<Arrival>, n: nat): seq<Msg>
    requires n <= |arr|
  {
    if n == 0 then [] else ArrivedResponses(arr, n - 1) + arr[n - 1].resp
  }

  function ArrivedMessages(arr: seq<Arrival>, n: nat): seq<Msg>
    requires n <= |arr|
  {
    if n == 0 then [] else ArrivedMessages(arr, n - 1) + arr[n - 1].msg
  }

  /** One queue: the front leaves if popped, more arrives at the back. */
  lemma Advance(start: seq<Msg>, arrived: seq<Msg>, served: seq<Msg>, buf: seq<Msg>, more: seq<Msg>, popped: bool)
    requires start + arrived == served + buf && (popped ==> buf != [])
    ensures start + (arrived + more)
         == (served + (if popped then [buf[0]] else [])) + ((if popped then buf[1..] else buf) + more)
  {
    assert start + (arrived + more) == (served + buf) + more;
    if popped {
      assert buf == [buf[0]] + buf[1..];
    }
  }

  /**
   Both buffers are consumed in order, without loss or duplication: what was there and
   what arrived is what was returned followed by what is still there.
   */
  lemma {:induction false} ConsumedInOrder(hs: seq<Host>, arr: seq<Arrival>, n: nat)
    requires IsCallRun(hs, arr) && n < |hs|
    ensures hs[0].respBuf + ArrivedResponses(arr, n) == FromResponses(hs, n) + hs[n].respBuf
    ensures hs[0].msgBuf + ArrivedMessages(arr, n) == FromMessages(hs, n) + hs[n].msgBuf
  {
    if n > 0 {
      ConsumedInOrder(hs, arr, n - 1);
      var h, a := hs[n - 1], arr[n - 1];
      assert hs[n] == Arrive(SelectBuffer(h).host, a);
      Advance(hs[0].respBuf, ArrivedResponses(arr, n - 1), FromResponses(hs, n - 1), h.respBuf, a.resp,
              !PollsMessages(h));
      Advance(hs[0].msgBuf, ArrivedMessages(arr, n - 1), FromMessages(hs, n - 1), h.msgBuf, a.msg,
              PollsMessages(h) && h.msgBuf != []);
    }
  }
}
