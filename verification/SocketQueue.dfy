/** The ring of accepted sockets between the master thread and the worker threads. */
module SocketQueue {

  const SIZE := 20

  type Sock = int

  function Slot(i: int): (r: nat)
    ensures r < SIZE
  {
    i % SIZE
  }

  /** The sockets in the ring, oldest first. */
  function Contents(queue: seq<Sock>, head: int, tail: int): (c: seq<Sock>)
    requires |queue| == SIZE && 0 <= tail <= head
    ensures |c| == head - tail
  {
    seq(head - tail, k requires 0 <= k < head - tail => queue[Slot(tail + k)])
  }

  /** Writing the slot after the newest socket overwrites no socket that is still queued. */
  lemma StoringOverwritesNothing(queue: seq<Sock>, head: int, tail: int, x: Sock)
    requires |queue| == SIZE && 0 <= tail <= head < tail + SIZE
    ensures Contents(queue[Slot(head) := x], head, tail) == Contents(queue, head, tail)
    ensures Contents(queue[Slot(head) := x], head + 1, tail) == Contents(queue, head, tail) + [x]
  {
    var after := Contents(queue[Slot(head) := x], head, tail);
    forall k | 0 <= k < head - tail ensures after[k] == Contents(queue, head, tail)[k] {
      SlotsDiffer(tail + k, head);
    }
    assert Contents(queue[Slot(head) := x], head + 1, tail) == after + [x];
  }

  lemma SlotsDiffer(a: int, b: int)
    requires 0 <= a < b < a + SIZE
    ensures Slot(a) != Slot(b)
  {
  }

  lemma AdvancingAppends(queue: seq<Sock>, head: int, tail: int)
    requires |queue| == SIZE && 0 <= tail <= head
    ensures Contents(queue, head + 1, tail) == Contents(queue, head, tail) + [queue[Slot(head)]]
  {
  }

  lemma TakingRemovesTheOldest(queue: seq<Sock>, head: int, tail: int)
    requires |queue| == SIZE && 0 <= tail < head
    ensures Contents(queue, head, tail) == [queue[Slot(tail)]] + Contents(queue, head, tail + 1)
  {
    var rest := Contents(queue, head, tail + 1);
    forall k | 0 <= k < head - tail - 1 ensures Contents(queue, head, tail)[k + 1] == rest[k] {
      assert tail + (k + 1) == tail + 1 + k;
    }
  }

  lemma WrappingKeeps(queue: seq<Sock>, head: int, tail: int)
    requires |queue| == SIZE && SIZE <= tail <= head
    ensures Contents(queue, head - SIZE, tail - SIZE) == Contents(queue, head, tail)
  {
    var after := Contents(queue, head - SIZE, tail - SIZE);
    forall k | 0 <= k < head - tail ensures after[k] == Contents(queue, head, tail)[k] {
      assert Slot(tail - SIZE + k) == Slot(tail + k);
    }
  }

  /** What a thread that holds the mutex finds: it has to wait, to go, or has done its work. */
  datatype Outcome = Wait | Stop | Done(socket: Sock)

  /** The queue's part of the server context. */
  class Context {
    const queue: array<Sock>
    var sqHead: int
    var sqTail: int
    var stopFlag: bool

    ghost predicate Valid()
      reads this
    {
      queue.Length == SIZE && 0 <= sqTail <= SIZE && sqTail <= sqHead <= sqTail + SIZE
    }

    ghost function Queued(): seq<Sock>
      requires Valid()
      reads this, queue
    {
      Contents(queue[..], sqHead, sqTail)
    }

    constructor ()
      ensures Valid() && fresh(queue) && Queued() == [] && !stopFlag
    {
      queue := new Sock[SIZE];
      sqHead, sqTail, stopFlag := 0, 0, false;
    }

    /** `produce_socket` from one look at the full queue to the next. */
    method Produce(x: Sock) returns (r: Outcome)
      requires Valid()
      modifies this`sqHead, queue
      ensures Valid()
      ensures r == if |old(Queued())| == SIZE then Wait else Done(x)
      ensures Queued() == if |old(Queued())| == SIZE then old(Queued()) else old(Queued()) + [x]
    {
      if sqHead - sqTail >= SIZE {
        return Wait;
      }
      StoringOverwritesNothing(queue[..], sqHead, sqTail, x);
      queue[Slot(sqHead)] := x;
      sqHead := sqHead + 1;
      r := Done(x);
    }

    /** `consume_socket` from one look at the empty queue to the next. */
    method Consume() returns (r: Outcome)
      requires Valid()
      modifies this`sqHead, this`sqTail
      ensures Valid()
      ensures r.Wait? <==> old(Queued()) == [] && !stopFlag
      ensures r.Stop? <==> stopFlag
      ensures if r.Done? then old(Queued()) == [r.socket] + Queued() else Queued() == old(Queued())
    {
      if sqHead == sqTail && !stopFlag {
        return Wait;
      }
      if stopFlag {
        return Stop;
      }
      TakingRemovesTheOldest(queue[..], sqHead, sqTail);
      r := Done(queue[Slot(sqTail)]);
      sqTail := sqTail + 1;
      while sqTail > SIZE
        invariant queue.Length == SIZE && 0 <= sqTail <= SIZE + 1 && sqTail <= sqHead <= sqTail + SIZE
        invariant old(Queued()) == [r.socket] + Contents(queue[..], sqHead, sqTail)
      {
        WrappingKeeps(queue[..], sqHead, sqTail);
        sqTail := sqTail - SIZE;
        sqHead := sqHead - SIZE;
      }
    }
  }
}
