/** The FIFO event bus (src/queue/event-bus.js) and the dead-letter queue
    (src/queue/dead-letter.js). */
module Queue {
  import opened Events

  /** A consume handler, described by what it publishes on the bus: its `k`-th call,
      on event `e`, publishes `handler(k, e)`. */
  type Handler = (nat, PipelineEvent) -> seq<PipelineEvent>

  function SumRank(rank: PipelineEvent -> nat, q: seq<PipelineEvent>): nat {
    if q == [] then 0 else rank(q[0]) + SumRank(rank, q[1..])
  }

  lemma {:induction false} SumRankAppend(rank: PipelineEvent -> nat, a: seq<PipelineEvent>, b: seq<PipelineEvent>)
    ensures SumRank(rank, a + b) == SumRank(rank, a) + SumRank(rank, b)
  {
    if a != [] {
      assert (a + b)[1..] == a[1..] + b;
      SumRankAppend(rank, a[1..], b);
    } else {
      assert a + b == b;
    }
  }

  /** `rank` bounds the work an event causes: what the handler publishes for an
      event weighs strictly less than the event itself, so a drain ends. */
  ghost predicate Decreasing(handler: Handler, rank: PipelineEvent -> nat) {
    forall k, e :: SumRank(rank, handler(k, e)) < rank(e)
  }

  /** The events `consume` hands to the handler, in order, when the queue holds `q`
      and the handler has been called `k` times: the head first, and what the
      handler publishes joins the back of the queue. */
  function Drain(q: seq<PipelineEvent>, handler: Handler, rank: PipelineEvent -> nat, k: nat): (r: seq<PipelineEvent>)
    requires Decreasing(handler, rank)
    ensures r == [] <==> q == []
    decreases SumRank(rank, q)
  {
    if q == [] then []
    else
      SumRankAppend(rank, q[1..], handler(k, q[0]));
      [q[0]] + Drain(q[1..] + handler(k, q[0]), handler, rank, k + 1)
  }

  /** FIFO: the queued events are handled first, each once, in queue order (so a
      drain of an empty queue never calls the handler). */
  lemma {:induction false} DrainStartsWithQueue(q: seq<PipelineEvent>, handler: Handler, rank: PipelineEvent -> nat, k: nat)
    requires Decreasing(handler, rank)
    ensures |q| <= |Drain(q, handler, rank, k)|
    ensures Drain(q, handler, rank, k)[..|q|] == q
    decreases SumRank(rank, q)
  {
    if q != [] {
      var rest := q[1..] + handler(k, q[0]);
      SumRankAppend(rank, q[1..], handler(k, q[0]));
      var d := Drain(rest, handler, rank, k + 1);
      assert Drain(q, handler, rank, k) == [q[0]] + d;
      DrainStartsWithQueue(rest, handler, rank, k + 1);
      assert d[..|q| - 1] == rest[..|q| - 1] == q[1..];
      assert ([q[0]] + d)[..|q|] == [q[0]] + d[..|q| - 1];
    }
  }

  /** A drain handles at most as many events as the queue's total rank. */
  lemma {:induction false} DrainBound(q: seq<PipelineEvent>, handler: Handler, rank: PipelineEvent -> nat, k: nat)
    requires Decreasing(handler, rank)
    ensures |Drain(q, handler, rank, k)| <= SumRank(rank, q)
    decreases SumRank(rank, q)
  {
    if q != [] {
      var rest := q[1..] + handler(k, q[0]);
      SumRankAppend(rank, q[1..], handler(k, q[0]));
      DrainBound(rest, handler, rank, k + 1);
    }
  }

  /** The bus: `queue` is its only state. */
  class EventBus {
    var queue: seq<PipelineEvent>

    constructor ()
      ensures queue == []
    {
      queue := [];
    }

    /** Appends `e` at the back of the queue. */
    method Publish(e: PipelineEvent)
      modifies this
      ensures queue == old(queue) + [e]
    {
      queue := queue + [e];
    }

    /** Shifts events off the front and hands each to the handler until the queue is
        empty; events the handler publishes meanwhile are handled in the same call.
        `handled` lists the handler's calls in order. */
    method Consume(handler: Handler, ghost rank: PipelineEvent -> nat) returns (handled: seq<PipelineEvent>)
      requires Decreasing(handler, rank)
      modifies this
      ensures queue == []
      ensures handled == Drain(old(queue), handler, rank, 0)
    {
      handled := [];
      var k := 0;
      while |queue| > 0
        invariant handled + Drain(queue, handler, rank, k) == Drain(old(queue), handler, rank, 0)
        decreases SumRank(rank, queue)
      {
        var event := queue[0];
        queue := queue[1..];
        handled := handled + [event];
        SumRankAppend(rank, queue, handler(k, event));
        queue := queue + handler(k, event);
        k := k + 1;
      }
    }
  }

  /** A failed event, why it failed, and when. */
  datatype DeadLetter = DeadLetter(event: PipelineEvent, reason: string, timestamp: int)

  class DeadLetterQueue {
    var failed: seq<DeadLetter>

    constructor ()
      ensures failed == []
    {
      failed := [];
    }

    /** Appends one record; earlier records stay as they were. */
    method Push(event: PipelineEvent, reason: string, now: int)
      modifies this
      ensures failed == old(failed) + [DeadLetter(event, reason, now)]
    {
      failed := failed + [DeadLetter(event, reason, now)];
    }

    /** All records, in the order they were pushed. */
    method List() returns (records: seq<DeadLetter>)
      ensures records == failed
    {
      records := failed;
    }
  }
}
