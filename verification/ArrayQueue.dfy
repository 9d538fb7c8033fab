/** The fixed-capacity ring queue of array_queue.c, refining a bounded sequence. */
module ArrayQueue {
  import opened Common

  const EMPTY_ELEMENT: char := '\0'

  // ---------------------------------------------------------------- the bounded sequence

  function Enqueued(s: string, c: char): string {
    if |s| < QUEUE_CAPACITY then s + [c] else s
  }

  function Dequeued(s: string): string {
    if s == "" then s else s[1..]
  }

  function Front(s: string): char {
    if s == "" then EMPTY_ELEMENT else s[0]
  }

  datatype Op = Enqueue(c: char) | Dequeue

  /** Contents, elements accepted, and elements removed after a history of operations on an empty queue. */
  function History(ops: seq<Op>): (r: (string, string, string)) {
    if ops == [] then ("", "", "")
    else
      var (s, entered, left) := History(ops[..|ops| - 1]);
      match ops[|ops| - 1]
      case Enqueue(c) => (Enqueued(s, c), if |s| < QUEUE_CAPACITY then entered + [c] else entered, left)
      case Dequeue => (Dequeued(s), entered, if s == "" then left else left + [Front(s)])
  }

  /** First in, first out: over any history the elements come out in the order they were accepted, none is lost, and
      at most the capacity is waiting. */
  lemma {:induction false} FirstInFirstOut(ops: seq<Op>)
    ensures var (s, entered, left) := History(ops); entered == left + s && |s| <= QUEUE_CAPACITY
  {
    if ops != [] {
      FirstInFirstOut(ops[..|ops| - 1]);
      var (s, entered, left) := History(ops[..|ops| - 1]);
      assert s != "" ==> left + s == left + [s[0]] + s[1..];
    }
  }

  lemma NothingYet(s: string)
    ensures s[..0] == "" && NoNul("")
  {
  }

  lemma NoNulSnoc(s: string, n: nat)
    requires n < |s| && NoNul(s[..n]) && s[n] != '\0'
    ensures NoNul(s[..n + 1]) && s[..n + 1] == s[..n] + [s[n]]
  {
  }

  lemma PrefixOfUntilNul(s: string, n: nat)
    requires n <= |s| && NoNul(s[..n])
    ensures n <= |UntilNul(s)| && UntilNul(s)[..n] == s[..n]
  {
    var r := UntilNul(s);
    assert r == s[..|r|];
    assert forall i :: 0 <= i < n ==> s[..n][i] == s[i];
  }

  // ---------------------------------------------------------------- the ring

  function Wrap(i: int): int {
    if i >= QUEUE_CAPACITY then i - QUEUE_CAPACITY else i
  }

  class Queue {
    var head: int
    var tail: int
    var size: int
    const cells: array<char>
    var iterator_: int

    ghost predicate Valid()
      reads this, cells
    {
      && cells.Length == QUEUE_CAPACITY
      && 0 <= head < QUEUE_CAPACITY && 0 <= tail < QUEUE_CAPACITY && 0 <= size <= QUEUE_CAPACITY
      && Wrap(tail + 1) == Wrap(head + size)
      && 0 <= iterator_
    }

    /** The elements from head to tail. */
    ghost function Contents(): (s: string)
      reads this, cells
      requires Valid()
      ensures |s| == size && |s| <= QUEUE_CAPACITY
    {
      if head + size <= QUEUE_CAPACITY then cells[head..head + size]
      else cells[head..] + cells[..head + size - QUEUE_CAPACITY]
    }

    /** QueueCreate */
    constructor ()
      ensures Valid() && fresh(cells) && Contents() == ""
    {
      head := 0;
      tail := QUEUE_CAPACITY - 1;
      size := 0;
      iterator_ := 0;
      cells := new char[QUEUE_CAPACITY](_ => EMPTY_ELEMENT);
    }

    method Enqueue(element: char) returns (ok: bool)
      requires Valid()
      modifies this, cells
      ensures Valid() && iterator_ == old(iterator_)
      ensures ok == (|old(Contents())| < QUEUE_CAPACITY)
      ensures Contents() == Enqueued(old(Contents()), element)
    {
      if size == QUEUE_CAPACITY {
        return false;
      }
      tail := tail + 1;
      if tail >= QUEUE_CAPACITY {
        tail := tail - QUEUE_CAPACITY;
      }
      cells[tail] := element;
      size := size + 1;
      assert Contents() == old(Contents()) + [element];
      return true;
    }

    method Dequeue() returns (element: char)
      requires Valid()
      modifies this, cells
      ensures Valid()
      ensures element == Front(old(Contents()))
      ensures Contents() == Dequeued(old(Contents()))
    {
      if size == 0 {
        return EMPTY_ELEMENT;
      }
      element := cells[head];
      cells[head] := EMPTY_ELEMENT;
      head := head + 1;
      if head >= QUEUE_CAPACITY {
        head := head - QUEUE_CAPACITY;
      }
      size := size - 1;
      assert Contents() == old(Contents())[1..];
    }

    /** QueueGetFirst: the iterator of an empty queue is left where it was. */
    method GetFirst() returns (element: char)
      requires Valid()
      modifies this`iterator_
      ensures Valid() && Contents() == old(Contents())
      ensures element == Front(Contents())
      ensures iterator_ == if Contents() == "" then old(iterator_) else 0
    {
      if size == 0 {
        return EMPTY_ELEMENT;
      }
      iterator_ := 0;
      return cells[head];
    }

    method GetNext() returns (element: char)
      requires Valid()
      modifies this`iterator_
      ensures Valid() && Contents() == old(Contents())
      ensures var n := old(iterator_) + 1;
              if n < |Contents()| then element == Contents()[n] && iterator_ == n
              else element == EMPTY_ELEMENT && iterator_ == old(iterator_)
    {
      if iterator_ + 1 >= size {
        return EMPTY_ELEMENT;
      }
      iterator_ := iterator_ + 1;
      var index := head + iterator_;
      if index >= QUEUE_CAPACITY {
        index := index - QUEUE_CAPACITY;
      }
      return cells[index];
    }

    /** QueueCopy: a NUL among the elements ends the copy, so the copy is exact just when there is none. */
    method Copy() returns (copied: Queue)
      requires Valid()
      modifies this`iterator_
      ensures Valid() && Contents() == old(Contents())
      ensures fresh(copied) && fresh(copied.cells) && copied.Valid()
      ensures copied.Contents() == UntilNul(Contents())
      ensures copied.Contents() == Contents() <==> NoNul(Contents())
    {
      hide UntilNul, NoNul, Valid, Contents;
      copied := new Queue();
      ghost var s := Contents();
      NothingYet(s);
      ghost var n := 0;
      var item := GetFirst();
      while item != EMPTY_ELEMENT
        invariant Valid() && Contents() == s
        invariant fresh(copied) && fresh(copied.cells) && copied.Valid() && |s| <= QUEUE_CAPACITY
        invariant 0 <= n <= |s| && copied.Contents() == s[..n] && NoNul(s[..n])
        invariant item == if n < |s| then s[n] else EMPTY_ELEMENT
        invariant n < |s| ==> iterator_ == n
        decreases |s| - n
      {
        NoNulSnoc(s, n);
        var _ := copied.Enqueue(item);
        n := n + 1;
        item := GetNext();
      }
      UntilNulIs(s, n);
    }

    /** get_next_socket_packet_data: the first elements, at most a packet's worth. */
    method FirstElements(limit: nat) returns (data: string)
      requires Valid() && limit > 0
      modifies this`iterator_
      ensures Valid() && Contents() == old(Contents())
      ensures var all := UntilNul(Contents()); data == all[..Min(|all|, limit)]
    {
      hide UntilNul, NoNul, Valid, Contents;
      data := "";
      ghost var s := Contents();
      NothingYet(s);
      var item := GetFirst();
      while item != EMPTY_ELEMENT
        invariant Valid() && Contents() == s
        invariant |data| <= |s| && |data| < limit && data == s[..|data|] && NoNul(data)
        invariant item == if |data| < |s| then s[|data|] else EMPTY_ELEMENT
        invariant |data| < |s| ==> iterator_ == |data|
        decreases |s| - |data|
      {
        NoNulSnoc(s, |data|);
        data := data + [item];
        if |data| == limit {
          PrefixOfUntilNul(s, limit);
          return;
        }
        item := GetNext();
      }
      UntilNulIs(s, |data|);
    }
  }
}
