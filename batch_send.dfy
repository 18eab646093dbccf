/**
 * The batched upload both base-station handlers use for their queues: take
 * up to batchSize entries off the front, POST them, and put them back at the
 * front when the upload fails.  The network's answer is a parameter.
 */
module BatchSend {
  import opened JsText

  /** How the awaited fetch ends. */
  datatype Outcome =
    | Delivered   // the response is ok
    | Rejected    // a response arrives but is not ok
    | Unreachable // fetch itself throws

  /** A POST the send makes: the URL, and the batch and retention period in its body. */
  datatype Upload<T> = Upload(url: string, entries: seq<T>, retentionDays: real)

  /** The guard at the top of a send: nothing queued, or a send in flight. */
  predicate Skips<T>(queue: seq<T>, isSending: bool) {
    |queue| == 0 || isSending
  }

  /** queue.splice(0, batchSize): the entries one send takes. */
  function Batch<T>(queue: seq<T>, batchSize: int): (batch: seq<T>)
    ensures batch <= queue
    ensures |batch| == SpliceCount(batchSize, |queue|)
  {
    queue[..SpliceCount(batchSize, |queue|)]
  }

  /** What splice leaves in the queue. */
  function Rest<T>(queue: seq<T>, batchSize: int): (rest: seq<T>)
    ensures queue == Batch(queue, batchSize) + rest
  {
    queue[SpliceCount(batchSize, |queue|)..]
  }

  /**
   * The queue after one send.  A response that is not ok unshifts the batch
   * and then throws into the catch, which unshifts it a second time.
   */
  function AfterSend<T>(queue: seq<T>, batchSize: int, isSending: bool, outcome: Outcome): seq<T> {
    if Skips(queue, isSending) then queue
    else
      var batch, rest := Batch(queue, batchSize), Rest(queue, batchSize);
      match outcome
      case Delivered => rest
      case Rejected => batch + batch + rest
      case Unreachable => batch + rest
  }

  /** What the backend received in one send. */
  function Sent<T>(queue: seq<T>, batchSize: int, isSending: bool, outcome: Outcome): seq<T> {
    if Skips(queue, isSending) || !outcome.Delivered? then [] else Batch(queue, batchSize)
  }

  /** The guard makes a send a no-op on an empty queue or while one is in flight. */
  lemma GuardIsNoOp<T>(queue: seq<T>, batchSize: int, isSending: bool, outcome: Outcome)
    requires Skips(queue, isSending)
    ensures AfterSend(queue, batchSize, isSending, outcome) == queue
    ensures Sent(queue, batchSize, isSending, outcome) == []
  {
  }

  /**
   * A delivered send leaves exactly the entries after the first
   * min(batchSize, n), and sends those, in order.
   */
  lemma DeliveredLeavesRest<T>(queue: seq<T>, batchSize: int)
    requires |queue| > 0
    ensures var after := AfterSend(queue, batchSize, false, Delivered);
      var k := if batchSize <= 0 then 0 else if batchSize < |queue| then batchSize else |queue|;
      after == queue[k..] && Sent(queue, batchSize, false, Delivered) == queue[..k]
  {
  }

  /**
   * The send triggered when a queue reaches batchSize takes the whole
   * queue, and a delivered one leaves it empty.
   */
  lemma FullQueueGoesWhole<T>(queue: seq<T>, batchSize: int)
    requires |queue| > 0 && |queue| == batchSize
    ensures Batch(queue, batchSize) == queue
    ensures AfterSend(queue, batchSize, false, Delivered) == []
    ensures Sent(queue, batchSize, false, Delivered) == queue
  {
  }

  /** A fetch that throws restores the queue as it was. */
  lemma UnreachableRestores<T>(queue: seq<T>, batchSize: int, isSending: bool)
    ensures AfterSend(queue, batchSize, isSending, Unreachable) == queue
  {
  }

  /** A response that is not ok leaves the batch twice at the front. */
  lemma RejectedDuplicatesBatch<T>(queue: seq<T>, batchSize: int)
    requires |queue| > 0
    ensures var b := Batch(queue, batchSize);
      AfterSend(queue, batchSize, false, Rejected) == b + queue &&
      |AfterSend(queue, batchSize, false, Rejected)| == |queue| + |b|
  {
  }

  /**
   * No entry is lost: whatever the outcome, the old queue is what was sent
   * followed by a tail of the new queue.
   */
  lemma NothingLost<T>(queue: seq<T>, batchSize: int, isSending: bool, outcome: Outcome)
    ensures var after := AfterSend(queue, batchSize, isSending, outcome);
      var sent := Sent(queue, batchSize, isSending, outcome);
      |sent| <= |queue| && queue[..|sent|] == sent &&
      |queue| - |sent| <= |after| && after[|after| - (|queue| - |sent|)..] == queue[|sent|..]
  {
    var after := AfterSend(queue, batchSize, isSending, outcome);
    if !Skips(queue, isSending) && outcome.Rejected? {
      var b := Batch(queue, batchSize);
      assert after == b + queue;
      assert after[|b|..] == queue;
    }
  }

  /**
   * Repeated rejections never shrink the queue back: each one grows it by
   * at least one entry, so a backend that keeps answering not ok makes the
   * queue grow without bound.
   */
  lemma {:induction false} RejectionsGrowQueue<T>(queue: seq<T>, batchSize: int, n: nat)
    requires |queue| > 0 && batchSize > 0
    ensures |Rejections(queue, batchSize, n)| >= |queue| + n
  {
    if n > 0 {
      RejectionsGrowQueue(queue, batchSize, n - 1);
      var before := Rejections(queue, batchSize, n - 1);
      RejectedDuplicatesBatch(before, batchSize);
      assert |Batch(before, batchSize)| >= 1;
    }
  }

  /** The queue after n sends that all receive a response that is not ok. */
  function Rejections<T>(queue: seq<T>, batchSize: int, n: nat): (q: seq<T>)
    ensures |q| >= |queue|
  {
    if n == 0 then queue
    else
      var before := Rejections(queue, batchSize, n - 1);
      AfterSend(before, batchSize, false, Rejected)
  }
}
