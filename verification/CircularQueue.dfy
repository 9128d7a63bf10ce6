/** The ring buffer of util/circular_queue.c as a bounded sequence of size - 1 elements. */
module CircularQueues {
  import opened Options

  /** (i + 1) % size for an index of the ring */
  function Step(i: nat, size: nat): (j: nat)
    requires i < size
    ensures j < size
    ensures j == if i + 1 == size then 0 else i + 1
  {
    StepWraps(i, size);
    (i + 1) % size
  }

  lemma StepWraps(i: nat, size: nat)
    requires i < size
    ensures (i + 1) % size == if i + 1 == size then 0 else i + 1
  {
  }

  class CircularQueue<T(0)> {
    const size: nat
    const data: array<T>
    var front: nat
    var rear: nat

    ghost function Repr(): set<object> { {this, data} }

    ghost predicate Valid()
      reads this
    {
      1 <= size == data.Length && front < size && rear < size
    }

    function Count(): (n: nat)
      requires Valid()
      reads this
    {
      if front <= rear then rear - front else rear + size - front
    }

    /** The index of the k-th element from the front. */
    function Slot(k: nat): (i: nat)
      requires Valid() && k < size
      reads this
      ensures i < size
    {
      if front + k < size then front + k else front + k - size
    }

    /** The elements, oldest first. */
    ghost function Contents(): (s: seq<T>)
      requires Valid()
      reads this, data
      ensures |s| == Count() < size
    {
      if front <= rear then data[front..rear] else data[front..] + data[..rear]
    }

    lemma ContentsAt(k: nat)
      requires Valid() && k < Count()
      ensures Contents()[k] == data[Slot(k)]
    {
    }

    /** From the k-th slot the traversal moves on to the next, or to rear. */
    lemma NextSlot(k: nat)
      requires Valid() && k < Count()
      ensures Step(Slot(k), size) == if k + 1 < Count() then Slot(k + 1) else rear
    {
    }

    /** create_queue */
    constructor (n: nat)
      requires n >= 1
      ensures Valid() && fresh(data) && size == n && Contents() == []
    {
      size := n;
      data := new T[n];
      front, rear := 0, 0;
    }

    /** is_queue_empty */
    predicate IsEmpty()
      requires Valid()
      reads this, data
      ensures IsEmpty() <==> Contents() == []
    {
      front == rear
    }

    /** is_queue_full */
    predicate IsFull()
      requires Valid()
      reads this, data
      ensures IsFull() <==> |Contents()| == size - 1
    {
      Step(rear, size) == front
    }

    method Enqueue(x: T) returns (ok: bool)
      requires Valid()
      modifies this`rear, data
      ensures Valid()
      ensures ok <==> |old(Contents())| < size - 1
      ensures Contents() == if ok then old(Contents()) + [x] else old(Contents())
    {
      if IsFull() {
        return false;
      }
      ghost var before := Contents();
      data[rear] := x;
      rear := Step(rear, size);
      assert Count() == |before| + 1;
      assert forall k :: 0 <= k < |before| ==> Contents()[k] == before[k];
      assert Contents() == before + [x];
      ok := true;
    }

    method Dequeue() returns (r: Option<T>)
      requires Valid()
      modifies this`front
      ensures Valid()
      ensures old(Contents()) == [] ==> r == None && Contents() == []
      ensures old(Contents()) != [] ==> r == Some(old(Contents())[0]) && Contents() == old(Contents())[1..]
    {
      if IsEmpty() {
        return None;
      }
      ghost var before := Contents();
      ContentsAt(0);
      r := Some(data[front]);
      front := Step(front, size);
      assert forall k :: 0 <= k < |before| - 1 ==> Contents()[k] == before[k + 1];
      assert Contents() == before[1..];
    }

    /** getfront */
    method GetFront() returns (r: Option<T>)
      requires Valid()
      ensures r == if Contents() == [] then None else Some(Contents()[0])
    {
      if IsEmpty() {
        r := None;
      } else {
        ContentsAt(0);
        r := Some(data[front]);
      }
    }

    /** Overwriting the k-th element in place. */
    method Replace(k: nat, x: T)
      requires Valid() && k < |Contents()|
      modifies data
      ensures Valid() && Contents() == old(Contents())[k := x]
    {
      ghost var before := Contents();
      data[Slot(k)] := x;
      assert forall j :: 0 <= j < |before| && j != k ==> Slot(j) != Slot(k);
      assert Contents() == before[k := x];
    }

    /** The traversal i = front; i != rear; i = (i + 1) % size visits the elements in order. */
    method Traverse() returns (visited: seq<T>)
      requires Valid()
      ensures visited == Contents()
    {
      visited := [];
      var i := front;
      ghost var k := 0;
      while i != rear
        invariant k <= Count() && i == if k < Count() then Slot(k) else rear
        invariant visited == Contents()[..k]
        decreases Count() - k
      {
        ContentsAt(k);
        NextSlot(k);
        visited := visited + [data[i]];
        i := Step(i, size);
        k := k + 1;
      }
    }
  }
}
