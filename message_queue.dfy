/**
  The progress message queue of `message_queue.c`: a ring buffer of
  `MAX_QUEUE` fixed-size text slots with a `head` (oldest message) and a
  `tail` (next free slot). A push into a full ring overwrites the oldest
  message. The lock around each operation only serialises callers and is
  not modelled.
*/
module MessageQueue {
  import opened CsonValue

  /** `MAX_QUEUE`: the number of slots. */
  const MaxQueue: nat := 100

  /** `MAX_MSG_LEN`: the size of a slot, terminating NUL included. */
  const MaxMsgLen: nat := 256

  /** The first `n` characters of `s`, or all of it when it is shorter. */
  function Prefix(s: string, n: nat): (r: string)
    ensures |r| <= n && r <= s
    ensures |s| <= n ==> r == s
  {
    if |s| <= n then s else s[..n]
  }

  /** What `strncpy` into a slot and the NUL after it keep of a message. */
  function Stored(msg: string): (r: string)
    ensures |r| < MaxMsgLen && '\0' !in r
    ensures r <= CString(msg)
    ensures |CString(msg)| < MaxMsgLen ==> r == CString(msg)
  {
    Prefix(CString(msg), MaxMsgLen - 1)
  }

  /* ---------- The queue as a sequence of messages, oldest first ---------- */

  /**
    `msgq_push` on the held messages: the stored text joins at the end, and
    when the ring was full the oldest message is lost.
  */
  function Enqueue(q: seq<string>, msg: string): (r: seq<string>)
    requires |q| < MaxQueue
  {
    if |q| == MaxQueue - 1 then q[1..] + [Stored(msg)] else q + [Stored(msg)]
  }

  /** `msgq_pop` on the held messages: nothing from an empty queue, else the oldest. */
  function Dequeue(q: seq<string>): (r: (Option<string>, seq<string>))
  {
    if q == [] then (None, q) else (Some(q[0]), q[1..])
  }

  /** Pushing each message of `msgs` in turn. */
  function EnqueueAll(q: seq<string>, msgs: seq<string>): (r: seq<string>)
    requires |q| < MaxQueue
    ensures |r| < MaxQueue
    decreases |msgs|
  {
    if msgs == [] then q else EnqueueAll(Enqueue(q, msgs[0]), msgs[1..])
  }

  /** Popping until the queue is empty: the messages in the order they come out. */
  function Drain(q: seq<string>): (r: seq<string>)
    decreases |q|
  {
    match Dequeue(q)
    case (None, _) => []
    case (Some(m), rest) => [m] + Drain(rest)
  }

  function StoredAll(msgs: seq<string>): (r: seq<string>)
    ensures |r| == |msgs|
    ensures forall i :: 0 <= i < |msgs| ==> r[i] == Stored(msgs[i])
  {
    if msgs == [] then [] else [Stored(msgs[0])] + StoredAll(msgs[1..])
  }

  /** A push never lets the queue reach `MaxQueue` messages: at most 99 are held. */
  lemma EnqueueBound(q: seq<string>, msg: string)
    requires |q| < MaxQueue
    ensures |Enqueue(q, msg)| == if |q| == MaxQueue - 1 then |q| else |q| + 1
    ensures Enqueue(q, msg)[|Enqueue(q, msg)| - 1] == Stored(msg)
  {
  }

  /** Draining hands the messages back exactly, oldest first. */
  lemma {:induction false} DrainIsIdentity(q: seq<string>)
    ensures Drain(q) == q
    decreases |q|
  {
    if q != [] {
      DrainIsIdentity(q[1..]);
    }
  }

  /** While the ring does not fill up, pushing appends each stored message at the end. */
  lemma {:induction false} EnqueueAllAppends(q: seq<string>, msgs: seq<string>)
    requires |q| + |msgs| < MaxQueue
    ensures EnqueueAll(q, msgs) == q + StoredAll(msgs)
    decreases |msgs|
  {
    if msgs != [] {
      var x := Stored(msgs[0]);
      assert EnqueueAll(q, msgs) == EnqueueAll(q + [x], msgs[1..]);
      EnqueueAllAppends(q + [x], msgs[1..]);
      assert StoredAll(msgs) == [x] + StoredAll(msgs[1..]);
      assert (q + [x]) + StoredAll(msgs[1..]) == q + StoredAll(msgs);
    }
  }

  /**
    First in, first out: while no more than 99 messages are pushed into an
    empty queue, popping returns every one of them, in push order.
  */
  lemma FifoOrder(q: seq<string>, msgs: seq<string>)
    requires |q| + |msgs| < MaxQueue
    ensures Drain(EnqueueAll(q, msgs)) == q + StoredAll(msgs)
  {
    EnqueueAllAppends(q, msgs);
    DrainIsIdentity(EnqueueAll(q, msgs));
  }

  /**
    Overflow drops the oldest: pushing into a full queue keeps the newest 99
    messages.
  */
  lemma {:induction false} OverflowKeepsNewest(q: seq<string>, msgs: seq<string>)
    requires |q| == MaxQueue - 1
    ensures EnqueueAll(q, msgs) == (q + StoredAll(msgs))[|msgs|..]
    decreases |msgs|
  {
    if msgs != [] {
      var q' := q[1..] + [Stored(msgs[0])];
      OverflowKeepsNewest(q', msgs[1..]);
      var all := q + StoredAll(msgs);
      assert StoredAll(msgs) == [Stored(msgs[0])] + StoredAll(msgs[1..]);
      assert q' + StoredAll(msgs[1..]) == all[1..];
      assert all[1..][|msgs| - 1..] == all[|msgs|..];
    }
  }

  /* ---------- Positions in the ring ---------- */

  /** The slot of the `j`-th message from `head`. */
  function SlotOf(head: int, j: int): int
  {
    (head + j) % MaxQueue
  }

  /** The slot after the last message is `tail`, and no message sits there. */
  lemma TailSlot(head: int, tail: int)
    requires 0 <= head < MaxQueue && 0 <= tail < MaxQueue
    ensures SlotOf(head, (tail - head) % MaxQueue) == tail
    ensures forall j :: 0 <= j < (tail - head) % MaxQueue ==> SlotOf(head, j) != tail
  {
  }

  /** Advancing `tail` adds one message, unless it meets `head`. */
  lemma AdvanceTail(head: int, tail: int)
    requires 0 <= head < MaxQueue && 0 <= tail < MaxQueue
    ensures var c := (tail - head) % MaxQueue;
      ((tail + 1) % MaxQueue - head) % MaxQueue == if c == MaxQueue - 1 then 0 else c + 1
    ensures (tail - head) % MaxQueue == MaxQueue - 1 <==> (tail + 1) % MaxQueue == head
  {
  }

  /** Advancing `head` past a message leaves one message less. */
  lemma AdvanceHead(head: int, tail: int)
    requires 0 <= head < MaxQueue && 0 <= tail < MaxQueue && head != tail
    ensures (tail - (head + 1) % MaxQueue) % MaxQueue == (tail - head) % MaxQueue - 1
  {
  }

  /** After `head` advances, the `j`-th message is the one that was `j + 1`-th. */
  lemma ShiftSlot(head: int, j: int)
    requires 0 <= head < MaxQueue && 0 <= j
    ensures SlotOf((head + 1) % MaxQueue, j) == SlotOf(head, j + 1)
  {
  }

  /* ---------- The ring buffer ---------- */

  class Queue {
    /** `queue`: the slots, each holding the text stored there. */
    const slots: array<string>
    var head: int
    var tail: int
    /** The messages held, oldest first. */
    ghost var Contents: seq<string>

    ghost predicate Valid()
      reads this, slots
    {
      && slots.Length == MaxQueue
      && 0 <= head < MaxQueue && 0 <= tail < MaxQueue
      && |Contents| == (tail - head) % MaxQueue
      && forall j :: 0 <= j < |Contents| ==> Contents[j] == slots[SlotOf(head, j)]
    }

    /** The static initialisation: every slot empty and `head == tail == 0`. */
    constructor ()
      ensures Valid() && fresh(slots)
      ensures Contents == [] && head == 0 && tail == 0
    {
      slots := new string[MaxQueue](_ => "");
      head, tail := 0, 0;
      Contents := [];
    }

    /**
      `msgq_push`: store the message at `tail` and advance it; when `tail`
      catches up with `head`, advance `head` as well.
    */
    method Push(msg: string)
      requires Valid()
      modifies this, slots
      ensures Valid()
      ensures tail == (old(tail) + 1) % MaxQueue
      ensures head == if tail == old(head) then (old(head) + 1) % MaxQueue else old(head)
      ensures Contents == Enqueue(old(Contents), msg)
    {
      TailSlot(head, tail);
      AdvanceTail(head, tail);
      ghost var h := head;
      slots[tail] := Stored(msg);
      tail := (tail + 1) % MaxQueue;
      if tail == head {
        head := (head + 1) % MaxQueue;
        forall j | 0 <= j < MaxQueue - 1
          ensures SlotOf(head, j) == SlotOf(h, j + 1)
        {
          ShiftSlot(h, j);
        }
      }
      Contents := Enqueue(Contents, msg);
    }

    /**
      `msgq_pop`: 0 on an empty queue (`head == tail`), which stays as it is;
      otherwise 1, the oldest message cut to `maxLen - 1` characters, and
      `head` advanced.
    */
    method Pop(maxLen: int) returns (status: int, out: string)
      requires Valid() && maxLen >= 1
      modifies this
      ensures Valid() && tail == old(tail)
      ensures old(Contents) == [] ==> status == 0 && out == [] && head == old(head) && Contents == old(Contents)
      ensures old(Contents) != [] ==>
        && status == 1
        && out == Prefix(old(Contents)[0], maxLen - 1)
        && head == (old(head) + 1) % MaxQueue
        && Contents == Dequeue(old(Contents)).1
    {
      if head == tail {
        return 0, [];
      }
      out := Prefix(slots[head], maxLen - 1);
      AdvanceHead(head, tail);
      var next := (head + 1) % MaxQueue;
      forall j | 0 <= j < |Contents| - 1
        ensures SlotOf(next, j) == SlotOf(head, j + 1)
      {
        ShiftSlot(head, j);
      }
      head := next;
      Contents := Contents[1..];
      status := 1;
    }
  }
}
