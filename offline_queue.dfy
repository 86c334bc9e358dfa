/**
 * The durable offline write queue (offlineQueue.ts): one list of pending operations
 * persisted under a single storage key. Every operation reads the stored list,
 * changes it and writes it back; `clearQueue` removes the key altogether.
 */
module OfflineQueue {
  import opened Wrappers

  /** The storage key the queue lives under. */
  const QUEUE_KEY: string := "offline_queue"

  /**
   * A pending network write. `options` is the request descriptor handed to `fetch`
   * (method, headers, body), never inspected here; `retries` is carried but never read.
   */
  datatype OfflineOperation = OfflineOperation(
    id: string,
    url: string,
    options: Option<RequestInit>,
    retries: Option<int>)

  datatype RequestInit = RequestInit(httpMethod: string, headers: seq<(string, string)>, body: Option<string>)

  /** What the key holds: `None` when it was never written or has been removed. */
  type Stored = Option<seq<OfflineOperation>>

  /** `readQueue`: the stored list, or the empty list when the key is absent. */
  function Read(stored: Stored): seq<OfflineOperation>
  {
    stored.GetOr([])
  }

  /** The stored value after `enqueue(op)`: the list read, with `op` pushed at the end. */
  function AfterEnqueue(stored: Stored, op: OfflineOperation): Stored
  {
    Some(Read(stored) + [op])
  }

  /**
   * `dequeue()`: the head of the list read (if any) and the stored value afterwards.
   * The list is written back even when it was empty, so the key then holds `[]`.
   */
  function AfterDequeue(stored: Stored): (Option<OfflineOperation>, Stored)
  {
    var queue := Read(stored);
    if |queue| == 0 then (None, Some([])) else (Some(queue[0]), Some(queue[1..]))
  }

  /** The stored value after enqueuing each of `ops`, first to last. */
  function EnqueueAll(stored: Stored, ops: seq<OfflineOperation>): Stored
    decreases |ops|
  {
    if |ops| == 0 then stored else EnqueueAll(AfterEnqueue(stored, ops[0]), ops[1..])
  }

  /** The operations `n` successive dequeues return (empty results skipped), and the stored value after them. */
  function DequeueTimes(stored: Stored, n: nat): (seq<OfflineOperation>, Stored)
    decreases n
  {
    if n == 0 then ([], stored)
    else
      var (head, rest) := AfterDequeue(stored);
      var (later, final) := DequeueTimes(rest, n - 1);
      (if head.Some? then [head.value] + later else later, final)
  }

  /** Enqueuing a list of operations appends exactly that list, in order, behind what was stored. */
  lemma {:induction false} EnqueueAllAppends(stored: Stored, ops: seq<OfflineOperation>)
    ensures Read(EnqueueAll(stored, ops)) == Read(stored) + ops
    decreases |ops|
  {
    if |ops| > 0 {
      EnqueueAllAppends(AfterEnqueue(stored, ops[0]), ops[1..]);
      assert Read(stored) + [ops[0]] + ops[1..] == Read(stored) + ops;
    }
  }

  /** Enqueuing one more operation after a list is enqueuing the extended list. */
  lemma {:induction false} EnqueueAllSnoc(stored: Stored, ops: seq<OfflineOperation>, op: OfflineOperation)
    ensures EnqueueAll(stored, ops + [op]) == AfterEnqueue(EnqueueAll(stored, ops), op)
    decreases |ops|
  {
    if |ops| == 0 {
      assert ops + [op] == [op];
    } else {
      assert (ops + [op])[1..] == ops[1..] + [op];
      EnqueueAllSnoc(AfterEnqueue(stored, ops[0]), ops[1..], op);
    }
  }

  /** `n` dequeues on a queue of at least `n` entries return its first `n` entries, oldest first, and leave the rest. */
  lemma {:induction false} DequeueTimesTakesPrefix(stored: Stored, n: nat)
    requires n <= |Read(stored)|
    ensures DequeueTimes(stored, n).0 == Read(stored)[..n]
    ensures Read(DequeueTimes(stored, n).1) == Read(stored)[n..]
    decreases n
  {
    if n > 0 {
      var queue := Read(stored);
      var rest := AfterDequeue(stored).1;
      assert Read(rest) == queue[1..];
      DequeueTimesTakesPrefix(rest, n - 1);
      assert [queue[0]] + queue[1..][..n - 1] == queue[..n];
      assert queue[1..][n - 1..] == queue[n..];
    }
  }

  /** FIFO: enqueuing op1..opN on a fresh key and then dequeuing N times yields op1..opN and an empty queue. */
  lemma Fifo(ops: seq<OfflineOperation>)
    ensures DequeueTimes(EnqueueAll(None, ops), |ops|).0 == ops
    ensures Read(DequeueTimes(EnqueueAll(None, ops), |ops|).1) == []
  {
    EnqueueAllAppends(None, ops);
    DequeueTimesTakesPrefix(EnqueueAll(None, ops), |ops|);
    assert ops[..|ops|] == ops;
  }

  /** The persisted queue: `stored` stands for what the storage key holds. */
  class QueueStore {
    var stored: Stored

    /** The list `readQueue` returns in the current state. */
    function Contents(): seq<OfflineOperation>
      reads this
    {
      Read(stored)
    }

    /** A store whose key was never written: it reads as the empty queue. */
    constructor ()
      ensures stored == None
      ensures Contents() == []
    {
      stored := None;
    }

    /** `enqueue(op)`: `op` goes to the end; every earlier entry stays where it was. */
    method Enqueue(op: OfflineOperation)
      modifies this
      ensures stored == AfterEnqueue(old(stored), op)
      ensures Contents() == old(Contents()) + [op]
    {
      var queue := Read(stored);
      queue := queue + [op];
      stored := Some(queue);
    }

    /**
     * `dequeue()`: on a non-empty queue, the oldest entry, leaving exactly the others;
     * on an empty one, nothing, and the queue stays empty.
     */
    method Dequeue() returns (op: Option<OfflineOperation>)
      modifies this
      ensures (op, stored) == AfterDequeue(old(stored))
      ensures old(Contents()) == [] ==> op == None && Contents() == []
      ensures old(Contents()) != [] ==> op == Some(old(Contents())[0]) && Contents() == old(Contents())[1..]
    {
      var queue := Read(stored);
      if |queue| == 0 {
        op := None;
      } else {
        op := Some(queue[0]);
        queue := queue[1..];
      }
      stored := Some(queue);
    }

    /** `peekQueue()`: a snapshot of the current contents; nothing changes. */
    method PeekQueue() returns (queue: seq<OfflineOperation>)
      ensures queue == Contents()
      ensures stored == None ==> queue == []
    {
      queue := Read(stored);
    }

    /** `clearQueue()`: removes the key, so the queue then reads as empty. */
    method ClearQueue()
      modifies this
      ensures stored == None
      ensures Contents() == []
      // Clearing an already empty queue is a no-op as far as any reader can tell.
      ensures old(Contents()) == [] ==> Contents() == old(Contents())
    {
      stored := None;
    }
  }
}
