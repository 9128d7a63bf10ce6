/**
 A run that makes an ack stale.  B keeps a full window and one parked ack; the network
 loses the first frame of every resend, so that A answers the others with three frames
 that B accepts, and B's next_rx_seq moves on while the ack stays where it is.
 */
module StaleRun {
  import opened LinkSpec
  import opened World
  import opened Picture
  import opened Turns

  function Zero(num: int, ack: int): Item {
    Item(false, true, num, ack)
  }

  function AckOnly(num: int, ack: int): Item {
    Item(true, true, num, ack)
  }

  function Times(k: nat, t: int): (w: seq<Slot>)
    ensures |w| == k
  {
    seq(k, i => Slot(t, true))
  }

  /** The frames of B's window, 1 to 4, when it has accepted n frames. */
  function Again(n: int): seq<Item> {
    [Zero(1, n - 1), Zero(2, n - 1), Zero(3, n - 1), Zero(4, n - 1)]
  }

  function Sender(sent: int, got: int, window: seq<Slot>, waiting: seq<Waiting>, owes: bool): Half {
    Half(sent, got, window, waiting, owes, false)
  }

  /** B with its full window sent at t and the ack for frame 1 parked. */
  function Full(n: int, t: int, owes: bool, told: bool): Half {
    Half(5, n, Times(4, t), [Waiting(1, 2)], owes, told)
  }

  /** All n frames of A accepted and acknowledged. */
  function Resting(n: int, t: int, told: bool): Pic {
    Pic(Sender(n, 1, [], [], false), Full(n, t, false, told), [], [])
  }

  // ----- Timeouts of B -----

  lemma FullResends(n: int, t: int, now: int, told: bool)
    requires now - t >= TIMEOUT_TIME
    ensures var h := Full(n, t, false, told);
            && Telling(h, now) == Full(n, now, false, true)
            && Told(h, now) == (if told then [] else [AckOnly(5, n - 1)]) + Again(n)
  {
    var h := Full(n, t, false, told);
    assert Restamped(h.window, now) == Times(4, now);
    assert Resends(h) == Again(n);
  }

  /** B resends its window and the network lets the frames from number 1 + k on through. */
  lemma Resumes(drawn: Pic -> bool, n: int, t: int, told: bool, a: Half, now: int, k: nat)
    requires Closed(drawn) && drawn(Pic(a, Full(n, t, false, told), [], [])) && now - t >= TIMEOUT_TIME && k <= 4
    ensures drawn(Pic(a, Full(n, now, false, true), [], Again(n)[k..]))
  {
    var p := Pic(a, Full(n, t, false, told), [], []);
    FullResends(n, t, now, told);
    var acks := if told then [] else [AckOnly(5, n - 1)];
    var q := Pic(a, Full(n, now, false, true), [], acks + Again(n));
    TurnsTo(drawn, p, SideB, now, q);
    Loses(drawn, q, SideA, |acks| + k);
    assert q.ba[|acks| + k..] == Again(n)[k..];
  }

  // ----- One cycle -----

  function Fresh(n: int, j: nat): (r: seq<Item>)
    ensures |r| == j
  {
    seq(j, i => Zero(n + i, 0))
  }

  /** A with j frames in its window from number n on, and the ack for frame j + 1 of B parked. */
  function Answerer(n: int, now: int, j: nat): Half {
    Sender(n + j, 1, Times(j, now), if j < 3 then [Waiting(j + 2, 1)] else [], false)
  }

  lemma AnswererTells(n: int, now: int, j: nat)
    requires j < 3
    ensures var h := Answerer(n, now, j);
            && Told(h, now) == [Zero(n + j, 0)]
            && Telling(h, now) == Sender(n + j + 1, 1, Times(j + 1, now), [], false)
            && Builds(h) && AckNumber(h.waiting[0]) == 0
  {
    assert Times(j, now) + [Slot(now, true)] == Times(j + 1, now);
  }

  lemma AnswererHears(n: int, now: int, j: nat)
    requires j < 3
    ensures Hearing(Sender(n + j, 1, Times(j, now), [], false), Zero(j + 2, n - 1)) == Answerer(n, now, j)
  {
  }

  /** A has answered j of the frames 2, 3, 4 of B. */
  function Answering(n: int, now: int, b: Half, j: nat): Pic
    requires j <= 3
  {
    Pic(Answerer(n, now, j), b, Fresh(n, j), if j < 3 then Again(n)[j + 2..] else [])
  }

  lemma Answers(drawn: Pic -> bool, n: int, now: int, b: Half, j: nat)
    requires Closed(drawn) && j < 3 && drawn(Answering(n, now, b, j))
    ensures drawn(Answering(n, now, b, j + 1))
  {
    AnswersPic(n, now, b, j);
    TurnsTo(drawn, Answering(n, now, b, j), SideA, now, Answering(n, now, b, j + 1));
  }

  lemma AnswersPic(n: int, now: int, b: Half, j: nat)
    requires j < 3
    ensures Ready(View(Answering(n, now, b, j), SideA))
    ensures Turned(Answering(n, now, b, j), SideA, now) == Answering(n, now, b, j + 1)
  {
    AnswererTells(n, now, j);
    if j < 2 {
      AnswererHears(n, now, j + 1);
    }
    assert Fresh(n, j) + [Zero(n + j, 0)] == Fresh(n, j + 1);
  }

  /** TX of A when there is nothing to answer or to resend. */
  lemma SenderSilent(sent: int, got: int, k: nat, t: int, now: int)
    requires k < 4 && now - t < TIMEOUT_TIME
    ensures var h := Sender(sent, got, Times(k, t), [], false);
            Telling(h, now) == h && Told(h, now) == [] && !Builds(h)
  {
  }

  lemma FirstAnswer(drawn: Pic -> bool, n: int, now: int, b: Half)
    requires Closed(drawn) && drawn(Pic(Sender(n, 1, [], [], false), b, [], Again(n)[1..]))
    ensures drawn(Answering(n, now, b, 0))
  {
    var p := Pic(Sender(n, 1, [], [], false), b, [], Again(n)[1..]);
    FirstAnswerPic(n, now, b);
    TurnsTo(drawn, p, SideA, now, Answering(n, now, b, 0));
  }

  lemma FirstAnswerPic(n: int, now: int, b: Half)
    ensures var p := Pic(Sender(n, 1, [], [], false), b, [], Again(n)[1..]);
            Ready(View(p, SideA)) && Turned(p, SideA, now) == Answering(n, now, b, 0)
  {
    assert Times(0, now) == [] && Fresh(n, 0) == [];
    SenderSilent(n, 1, 0, now, now);
    AnswererHears(n, now, 0);
  }

  lemma FullTells(n: int, now: int, owes: bool, told: bool)
    ensures var h := Full(n, now, owes, told);
            && Telling(h, now) == Full(n, now, false, told)
            && Told(h, now) == (if owes then [AckOnly(5, n - 1)] else []) && !Builds(h)
  {
  }

  lemma FullHears(n: int, now: int, told: bool)
    ensures Hearing(Full(n, now, false, told), Zero(n, 0)) == Full(n + 1, now, true, false)
  {
  }

  function Acks(n: int, k: nat): (r: seq<Item>)
    ensures |r| == k
  {
    seq(k, i => AckOnly(5, n + i))
  }

  /** B has accepted j of the three frames from n on. */
  function Accepting(n: int, now: int, a: Half, j: nat): Pic
    requires j <= 3
  {
    Pic(a, Full(n + j, now, j > 0, j == 0), Fresh(n + j, 3 - j), Acks(n, if j == 0 then 0 else j - 1))
  }

  lemma AcceptsPic(n: int, now: int, a: Half, j: nat)
    requires j < 3
    ensures Ready(View(Accepting(n, now, a, j), SideB))
    ensures Turned(Accepting(n, now, a, j), SideB, now) == Accepting(n, now, a, j + 1)
  {
    FullTells(n + j, now, j > 0, j == 0);
    FullHears(n + j, now, j == 0);
    assert Fresh(n + j, 3 - j)[0] == Zero(n + j, 0) && Fresh(n + j, 3 - j)[1..] == Fresh(n + j + 1, 2 - j);
    if j > 0 {
      assert Acks(n, j - 1) + [AckOnly(5, n + j - 1)] == Acks(n, j);
    }
  }

  lemma Accepts(drawn: Pic -> bool, n: int, now: int, a: Half, j: nat)
    requires Closed(drawn) && j < 3 && drawn(Accepting(n, now, a, j))
    ensures drawn(Accepting(n, now, a, j + 1))
  {
    AcceptsPic(n, now, a, j);
    TurnsTo(drawn, Accepting(n, now, a, j), SideB, now, Accepting(n, now, a, j + 1));
  }

  lemma LastAckPic(n: int, now: int, a: Half)
    ensures var p := Accepting(n, now, a, 3);
            Ready(View(p, SideB)) && Turned(p, SideB, now) == Pic(a, Full(n + 3, now, false, false), [], Acks(n, 3))
  {
    FullTells(n + 3, now, true, false);
    assert Acks(n, 2) + [AckOnly(5, n + 2)] == Acks(n, 3) && Fresh(n + 3, 0) == [];
  }

  lemma AcknowledgedPic(n: int, now: int)
    ensures var p := Pic(Answerer(n, now, 3), Full(n + 3, now, false, false), [], Acks(n, 3)[2..]);
            Ready(View(p, SideA)) && Turned(p, SideA, now) == Resting(n + 3, now, false)
  {
    SenderSilent(n + 3, 1, 3, now, now);
    assert Acks(n, 3)[2..] == [AckOnly(5, n + 2)];
  }

  /** B owes an ack for the last of the three frames; it sends it, and A rests. */
  lemma Settles(drawn: Pic -> bool, n: int, now: int)
    requires Closed(drawn) && drawn(Accepting(n, now, Answerer(n, now, 3), 3))
    ensures drawn(Resting(n + 3, now, false))
  {
    var a, b := Answerer(n, now, 3), Full(n + 3, now, false, false);
    LastAckPic(n, now, a);
    TurnsTo(drawn, Accepting(n, now, a, 3), SideB, now, Pic(a, b, [], Acks(n, 3)));
    Loses(drawn, Pic(a, b, [], Acks(n, 3)), SideA, 2);
    AcknowledgedPic(n, now);
    TurnsTo(drawn, Pic(a, b, [], Acks(n, 3)[2..]), SideA, now, Resting(n + 3, now, false));
  }

  /** A answers all three frames of B. */
  lemma AnswersAll(drawn: Pic -> bool, n: int, now: int, b: Half)
    requires Closed(drawn) && drawn(Answering(n, now, b, 0))
    ensures drawn(Answering(n, now, b, 3))
  {
    Answers(drawn, n, now, b, 0);
    Answers(drawn, n, now, b, 1);
    Answers(drawn, n, now, b, 2);
  }

  /** B accepts all three answers. */
  lemma AcceptsAll(drawn: Pic -> bool, n: int, now: int, a: Half)
    requires Closed(drawn) && drawn(Accepting(n, now, a, 0))
    ensures drawn(Accepting(n, now, a, 3))
  {
    Accepts(drawn, n, now, a, 0);
    Accepts(drawn, n, now, a, 1);
    Accepts(drawn, n, now, a, 2);
  }

  lemma AllAnswered(n: int, now: int)
    ensures Answering(n, now, Full(n, now, false, true), 3) == Accepting(n, now, Answerer(n, now, 3), 0)
  {
  }

  /** One timeout of B later, three more of A's frames have been accepted. */
  lemma Cycle(drawn: Pic -> bool, n: int, t: int, told: bool)
    requires Closed(drawn) && drawn(Resting(n, t, told))
    ensures drawn(Resting(n + 3, t + TIMEOUT_TIME, false))
  {
    var now := t + TIMEOUT_TIME;
    var b := Full(n, now, false, true);
    Resumes(drawn, n, t, told, Sender(n, 1, [], [], false), now, 1);
    FirstAnswer(drawn, n, now, b);
    AnswersAll(drawn, n, now, b);
    AllAnswered(n, now);
    AcceptsAll(drawn, n, now, Answerer(n, now, 3));
    Settles(drawn, n, now);
  }

  /** At rest with n frames accepted, at some time. */
  ghost predicate Rests(drawn: Pic -> bool, n: int) {
    exists t: int, told: bool :: drawn(Resting(n, t, told))
  }

  lemma CycleRests(drawn: Pic -> bool, n: int)
    requires Closed(drawn) && Rests(drawn, n)
    ensures Rests(drawn, n + 3)
  {
    var t: int, told: bool :| drawn(Resting(n, t, told));
    Cycle(drawn, n, t, told);
  }

  /** B's next_rx_seq goes as far as one likes while its parked ack waits. */
  lemma {:induction false} Cycles(drawn: Pic -> bool, n: int, k: nat)
    requires Closed(drawn) && Rests(drawn, n)
    ensures Rests(drawn, n + 3 * k)
  {
    if k > 0 {
      Cycles(drawn, n, k - 1);
      CycleRests(drawn, n + 3 * (k - 1));
    }
  }

  // ----- How B's window fills -----

  /** A with one frame, number 1, still to be acknowledged. */
  function Asker(t: int): Half {
    Sender(2, 1, Times(1, t), [], false)
  }

  /** B has sent k - 1 frames after number 0, and the ack for frame 1 is parked once more. */
  function Filler(k: nat, t: int): Half
    requires 1 <= k <= 5
  {
    Half(k, 2, Times(k - 1, t), [Waiting(1, 2)], false, false)
  }

  function Filling(k: nat, t: int): Pic
    requires 1 <= k <= 5
  {
    Pic(Asker(t), Filler(k, t), [], [])
  }

  function Spent(k: nat, t: int): Half {
    Half(k + 1, 2, Times(k, t), [], false, false)
  }

  lemma FillerTells(k: nat, t: int, now: int)
    requires 1 <= k < 5 && now - t >= TIMEOUT_TIME
    ensures Telling(Filler(k, t), now) == Spent(k, now) && Builds(Filler(k, t))
    ensures AckNumber(Filler(k, t).waiting[0]) == 1
  {
    var h := Filler(k, t);
    assert |Built(h, now).window| == k && forall i :: 0 <= i < k ==> Built(h, now).window[i].zero;
    if k == 1 {
      assert Built(h, now).window == Times(1, now);
    } else {
      assert Late(h.window, now, TIMEOUT_TIME);
      assert Restamped(Built(h, now).window, now) == Times(k, now);
    }
  }

  lemma AskerTells(t: int, now: int)
    requires now - t >= TIMEOUT_TIME
    ensures Telling(Asker(t), now) == Asker(now) && Told(Asker(t), now) == [Zero(1, 0)] && !Builds(Asker(t))
  {
    assert Restamped(Asker(t).window, now) == Times(1, now);
    assert Resends(Asker(t)) == [Zero(1, 0)];
  }

  lemma SpentTurn(k: nat, now: int)
    requires k < 5
    ensures var p := Pic(Asker(now), Spent(k, now), [Zero(1, 0)], []);
            Ready(View(p, SideB)) && Turned(p, SideB, now) == Filling(k + 1, now)
  {
    var h := Spent(k, now);
    assert Telling(h, now) == h && Told(h, now) == [];
    assert Acked(h, 0) == h.window;
  }

  /** A resends into the void until B answers, and B's answer is lost. */
  lemma Fills(drawn: Pic -> bool, k: nat, t: int)
    requires Closed(drawn) && 1 <= k < 5 && drawn(Filling(k, t))
    ensures drawn(Filling(k + 1, t + TIMEOUT_TIME))
  {
    var now := t + TIMEOUT_TIME;
    FillerTells(k, t, now);
    var p := Pic(Asker(t), Spent(k, now), [], Told(Filler(k, t), now));
    TurnsTo(drawn, Filling(k, t), SideB, now, p);
    Loses(drawn, p, SideA, |p.ba|);
    assert Without(p, SideA, |p.ba|) == Pic(Asker(t), Spent(k, now), [], []);
    Repeats(drawn, k, t, now);
  }

  /** A's frame times out, and its copy is a duplicate to B. */
  lemma Repeats(drawn: Pic -> bool, k: nat, t: int, now: int)
    requires Closed(drawn) && k < 5 && now - t >= TIMEOUT_TIME && drawn(Pic(Asker(t), Spent(k, now), [], []))
    ensures drawn(Filling(k + 1, now))
  {
    AskerTells(t, now);
    var p := Pic(Asker(now), Spent(k, now), [Zero(1, 0)], []);
    TurnsTo(drawn, Pic(Asker(t), Spent(k, now), [], []), SideA, now, p);
    SpentTurn(k, now);
    TurnsTo(drawn, p, SideB, now, Filling(k + 1, now));
  }

  lemma FillsUp(drawn: Pic -> bool, t: int)
    requires Closed(drawn) && drawn(Filling(1, t))
    ensures drawn(Filling(5, t + 4 * TIMEOUT_TIME))
  {
    Fills(drawn, 1, t);
    Fills(drawn, 2, t + TIMEOUT_TIME);
    Fills(drawn, 3, t + 2 * TIMEOUT_TIME);
    Fills(drawn, 4, t + 3 * TIMEOUT_TIME);
  }

  lemma HalfTimeoutTurns(t: int)
    ensures var now := t + HALF_TIMEOUT;
            && Ready(View(Filling(5, t), SideB))
            && Turned(Filling(5, t), SideB, now) == Pic(Asker(t), Full(2, t, false, true), [], [AckOnly(5, 1)])
            && Ready(View(Turned(Filling(5, t), SideB, now), SideA))
            && Turned(Turned(Filling(5, t), SideB, now), SideA, now) == Resting(2, t, true)
  {
    var h, now := Filler(5, t), t + HALF_TIMEOUT;
    assert h == Full(2, t, false, false);
    assert Told(h, now) == [AckOnly(5, 1)];
    SenderSilent(2, 1, 1, t, now);
  }

  /** The ack-only frame of the half timeout empties A's window. */
  lemma Rested(drawn: Pic -> bool, t: int)
    requires Closed(drawn) && drawn(Filling(5, t))
    ensures Rests(drawn, 2)
  {
    var now := t + HALF_TIMEOUT;
    HalfTimeoutTurns(t);
    TurnsTo(drawn, Filling(5, t), SideB, now, Pic(Asker(t), Full(2, t, false, true), [], [AckOnly(5, 1)]));
    TurnsTo(drawn, Pic(Asker(t), Full(2, t, false, true), [], [AckOnly(5, 1)]), SideA, now, Resting(2, t, true));
  }

  /** After an ordinary read: A has just returned its credit, and B's response is acknowledged by it. */
  function Opened(t: int): Pic {
    Pic(Asker(t), Half(1, 1, [Slot(t, false)], [], false, false), [Zero(1, 0)], [])
  }

  /** B has accepted A's frame and owes an ack for it. */
  function Owing(t: int): Pic {
    Pic(Asker(t), Half(1, 2, [], [], true, false), [], [])
  }

  lemma OpenedTurn(t: int)
    ensures Ready(View(Opened(t), SideB)) && Turned(Opened(t), SideB, t) == Owing(t)
  {
    var h := Opened(t).b;
    assert Telling(h, t) == h && Told(h, t) == [];
  }

  lemma OwingTurn(t: int, now: int)
    ensures var p := Pic(Asker(t), Spent(0, now), [], [AckOnly(1, 1)]);
            && Ready(View(Owing(t), SideB)) && Turned(Owing(t), SideB, t) == p
            && Without(p, SideA, 1) == Pic(Asker(t), Spent(0, now), [], [])
  {
    assert Times(0, now) == [];
  }

  lemma AcksInVain(drawn: Pic -> bool, t: int, now: int)
    requires Closed(drawn) && drawn(Owing(t))
    ensures drawn(Pic(Asker(t), Spent(0, now), [], []))
  {
    OwingTurn(t, now);
    var p := Pic(Asker(t), Spent(0, now), [], [AckOnly(1, 1)]);
    TurnsTo(drawn, Owing(t), SideB, t, p);
    Loses(drawn, p, SideA, 1);
  }

  lemma StartsFilling(drawn: Pic -> bool, t: int)
    requires Closed(drawn) && drawn(Opened(t))
    ensures drawn(Filling(1, t + TIMEOUT_TIME))
  {
    OpenedTurn(t);
    TurnsTo(drawn, Opened(t), SideB, t, Owing(t));
    AcksInVain(drawn, t, t + TIMEOUT_TIME);
    Repeats(drawn, 0, t, t + TIMEOUT_TIME);
  }

  // ----- How B's window empties at once -----

  /** A has one frame that B never saw, and has accepted j of B's four. */
  function Listener(n: int, now: int, j: nat, owes: bool): Half {
    Sender(n + 1, 1 + j, Times(1, now), [], owes)
  }

  function Replies(n: int, k: nat): (r: seq<Item>)
    ensures |r| == k
  {
    seq(k, i => AckOnly(n + 1, 1 + i))
  }

  function Listening(n: int, now: int, j: nat): Pic
    requires 1 <= j <= 4
  {
    Pic(Listener(n, now, j, true), Full(n, now, false, true), Replies(n, j - 1), Again(n)[j..])
  }

  lemma ListenerTells(n: int, now: int, j: nat)
    ensures var h := Listener(n, now, j, true);
            && Telling(h, now) == Listener(n, now, j, false) && Told(h, now) == [AckOnly(n + 1, j)] && !Builds(h)
  {
  }

  lemma ListenerHears(n: int, now: int, j: nat)
    ensures Hearing(Listener(n, now, j, false), Zero(1 + j, n - 1)) == Listener(n, now, j + 1, true)
  {
  }

  lemma ListensPic(n: int, now: int, j: nat)
    requires 1 <= j < 4
    ensures Ready(View(Listening(n, now, j), SideA))
    ensures Turned(Listening(n, now, j), SideA, now) == Listening(n, now, j + 1)
  {
    ListenerTells(n, now, j);
    ListenerHears(n, now, j);
    assert Replies(n, j - 1) + [AckOnly(n + 1, j)] == Replies(n, j);
  }

  lemma Listens(drawn: Pic -> bool, n: int, now: int, j: nat)
    requires Closed(drawn) && 1 <= j < 4 && drawn(Listening(n, now, j))
    ensures drawn(Listening(n, now, j + 1))
  {
    ListensPic(n, now, j);
    TurnsTo(drawn, Listening(n, now, j), SideA, now, Listening(n, now, j + 1));
  }

  /** The first of A's four receptions; its own frame times out just before, and is lost. */
  lemma FirstListens(drawn: Pic -> bool, n: int, t: int, now: int)
    requires Closed(drawn) && now - t >= TIMEOUT_TIME
    requires drawn(Pic(Listener(n, t, 0, false), Full(n, now, false, true), [], Again(n)))
    ensures drawn(Listening(n, now, 1))
  {
    var p := Pic(Listener(n, t, 0, false), Full(n, now, false, true), [], Again(n));
    var h := Listener(n, t, 0, false);
    assert Telling(h, now) == Listener(n, now, 0, false) by {
      assert Restamped(h.window, now) == Times(1, now);
    }
    assert Told(h, now) == [Zero(n, 0)];
    ListenerHears(n, now, 0);
    var q := Pic(Listener(n, now, 1, true), Full(n, now, false, true), [Zero(n, 0)], Again(n)[1..]);
    TurnsTo(drawn, p, SideA, now, q);
    Loses(drawn, q, SideB, 1);
    assert Without(q, SideB, 1) == Listening(n, now, 1);
  }

  /** B's window is empty, its next_rx_seq has come to n, and the ack for frame 1 still waits. */
  function Emptied(n: int, now: int): Pic {
    Pic(Listener(n, now, 4, false), Half(5, n, [], [Waiting(1, 2)], false, false), [], [])
  }

  lemma LastReplyPic(n: int, now: int)
    ensures var p := Pic(Listener(n, now, 4, false), Full(n, now, false, true), Replies(n, 4), []);
            && Ready(View(Listening(n, now, 4), SideA)) && Turned(Listening(n, now, 4), SideA, now) == p
            && Ready(View(Without(p, SideB, 3), SideB)) && Turned(Without(p, SideB, 3), SideB, now) == Emptied(n, now)
  {
    ListenerTells(n, now, 4);
    assert Replies(n, 3) + [AckOnly(n + 1, 4)] == Replies(n, 4) && Again(n)[4..] == [];
    FullTells(n, now, false, true);
    assert Replies(n, 4)[3..] == [AckOnly(n + 1, 4)];
  }

  lemma Empties(drawn: Pic -> bool, n: int, now: int)
    requires Closed(drawn) && drawn(Listening(n, now, 1))
    ensures drawn(Emptied(n, now))
  {
    Listens(drawn, n, now, 1);
    Listens(drawn, n, now, 2);
    Listens(drawn, n, now, 3);
    LastReplyPic(n, now);
    var p := Pic(Listener(n, now, 4, false), Full(n, now, false, true), Replies(n, 4), []);
    TurnsTo(drawn, Listening(n, now, 4), SideA, now, p);
    Loses(drawn, p, SideB, 3);
    TurnsTo(drawn, Without(p, SideB, 3), SideB, now, Emptied(n, now));
  }

  /** A sends a frame that is lost. */
  lemma SendsInVain(drawn: Pic -> bool, n: int, t: int, told: bool)
    requires Closed(drawn) && drawn(Resting(n, t, told))
    ensures var now := t + TIMEOUT_TIME;
            drawn(Pic(Listener(n, now, 0, false), Full(n, now, false, true), [], []))
  {
    var now := t + TIMEOUT_TIME;
    var b := Full(n, now, false, true);
    Resumes(drawn, n, t, told, Sender(n, 1, [], [], false), now, 1);
    FirstAnswer(drawn, n, now, b);
    Loses(drawn, Answering(n, now, b, 0), SideA, 2);
    var p := Pic(Answerer(n, now, 0), b, [], []);
    assert Without(Answering(n, now, b, 0), SideA, 2) == p;
    AnswererTells(n, now, 0);
    var q := Pic(Listener(n, now, 0, false), b, [Zero(n, 0)], []);
    TurnsTo(drawn, p, SideA, now, q);
    Loses(drawn, q, SideB, 1);
  }

  lemma Ends(drawn: Pic -> bool, n: int, t: int, told: bool)
    requires Closed(drawn) && drawn(Resting(n, t, told))
    ensures drawn(Emptied(n, t + 2 * TIMEOUT_TIME))
  {
    var u, v := t + TIMEOUT_TIME, t + 2 * TIMEOUT_TIME;
    SendsInVain(drawn, n, t, told);
    Resumes(drawn, n, u, true, Listener(n, u, 0, false), v, 0);
    assert Again(n)[0..] == Again(n);
    FirstListens(drawn, n, u, v);
    Empties(drawn, n, v);
  }

  /** Frames accepted by B beyond the one its parked ack is for, in multiples of three. */
  lemma EmptiedDrawn(drawn: Pic -> bool, t: int, k: nat) returns (now: int)
    requires Closed(drawn) && drawn(Opened(t))
    ensures drawn(Emptied(2 + 3 * k, now))
  {
    StartsFilling(drawn, t);
    FillsUp(drawn, t + TIMEOUT_TIME);
    Rested(drawn, t + 5 * TIMEOUT_TIME);
    Cycles(drawn, 2, k);
    var u: int, told: bool :| drawn(Resting(2 + 3 * k, u, told));
    Ends(drawn, 2 + 3 * k, u, told);
    now := u + 2 * TIMEOUT_TIME;
  }
}
