/** The ring queue of a signal pool (src/uru/type/queue.c:6-48): a buffer of queue_size + 1 cells,
    of which one always stays free. */
module RingQueue {
  import opened Arith

  class Ring {
    var head: nat
    var tail: nat
    const size: nat
    const buff: array<int>

    ghost predicate Valid()
      reads this
    {
      size > 0 && buff.Length == size && head < size && tail < size
    }

    /** The entries from head to tail, around the end of the buffer. */
    ghost function Contents(): (c: seq<int>)
      requires Valid()
      reads this, buff
      ensures |c| < size
    {
      if head <= tail then buff[head..tail] else buff[head..] + buff[..tail]
    }

    constructor (queueSize: nat)
      ensures Valid() && Contents() == [] && size == queueSize + 1 && fresh(buff)
    {
      head, tail, size := 0, 0, queueSize + 1;
      buff := new int[queueSize + 1];
    }

    /** Appends an entry; false stands for the failing assertion that the queue is not full. */
    method Push(data: int) returns (ok: bool)
      requires Valid()
      modifies `tail, buff
      ensures Valid() && head == old(head)
      ensures ok <==> |old(Contents())| < size - 1
      ensures Contents() == if ok then old(Contents()) + [data] else old(Contents())
    {
      SuccIsMod(tail, size);
      ok := head != (tail + 1) % size;
      if ok {
        buff[tail] := data;
        tail := (tail + 1) % size;
      }
    }

    /** Takes the oldest entry, or -1 when there is none. */
    method Pop() returns (data: int)
      requires Valid()
      modifies `head
      ensures Valid() && tail == old(tail)
      ensures old(Contents()) == [] ==> data == -1 && Contents() == []
      ensures old(Contents()) != [] ==> data == old(Contents())[0] && Contents() == old(Contents())[1..]
    {
      if head == tail {
        data := -1;
      } else {
        SuccIsMod(head, size);
        data := buff[head];
        head := (head + 1) % size;
      }
    }
  }
}
