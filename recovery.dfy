/** Retry with exponential backoff (src/recovery/retry-engine.js), the recovery
    wrapper that sends what still fails to the dead-letter queue
    (src/recovery/orchestrator-recovery.js), and the replay engine
    (src/recovery/replay-engine.js). The sleeps are returned rather than waited for. */
module Recovery {
  import opened Events
  import opened Queue

  /** What one call of the retried function did: returned a value or threw an
      error with a message (a rejected promise counts as thrown). */
  datatype Attempt<V> = Returned(value: V) | Threw(message: string)

  /** How `retry` settles: with a value, by rethrowing the last error, or with
      `undefined` when the loop never runs. */
  datatype RetryOutcome<V> = Resolved(value: V) | Rejected(message: string) | Undefined

  const InitialDelay: nat := 200
  const DefaultAttempts: int := 5

  function Pow2(n: nat): (p: nat)
    ensures p >= 1
  {
    if n == 0 then 1 else 2 * Pow2(n - 1)
  }

  /** The delay slept after the failure of call `j` when another call follows:
      200 ms doubled `j` times. */
  function Backoff(j: nat): nat {
    InitialDelay * Pow2(j)
  }

  lemma BackoffDoubles(j: nat)
    ensures Backoff(j + 1) == 2 * Backoff(j)
  {
  }

  /** The outcome of `retry(fn, attempts)` once the calls before `i` have all
      thrown; `fn(j)` is what the `j`-th call does. */
  function RetryFrom<V>(fn: nat -> Attempt<V>, i: nat, attempts: int): (r: RetryOutcome<V>)
    ensures r.Undefined? <==> attempts <= i
    decreases attempts - i
  {
    if i >= attempts then Undefined
    else match fn(i)
      case Returned(v) => Resolved(v)
      case Threw(m) => if i == attempts - 1 then Rejected(m) else RetryFrom(fn, i + 1, attempts)
  }

  /** Retry settles with the first value returned within the attempts, rethrows
      the last error when every attempt threw, and is undefined exactly when no
      attempt is made. */
  lemma {:induction false} RetryFromCases<V>(fn: nat -> Attempt<V>, i: nat, attempts: int)
    ensures RetryFrom(fn, i, attempts).Undefined? <==> attempts <= i
    ensures RetryFrom(fn, i, attempts).Resolved? ==>
      exists c :: i <= c < attempts && fn(c) == Returned(RetryFrom(fn, i, attempts).value)
        && (forall j :: i <= j < c ==> fn(j).Threw?)
    ensures RetryFrom(fn, i, attempts).Rejected? <==>
      attempts > i && forall j :: i <= j < attempts ==> fn(j).Threw?
    ensures RetryFrom(fn, i, attempts).Rejected? ==>
      RetryFrom(fn, i, attempts).message == fn(attempts - 1).message
    decreases attempts - i
  {
    if i < attempts && fn(i).Threw? && i != attempts - 1 {
      RetryFromCases(fn, i + 1, attempts);
      var r := RetryFrom(fn, i, attempts);
      if r.Resolved? {
        var c :| i + 1 <= c < attempts && fn(c) == Returned(r.value) && (forall j :: i + 1 <= j < c ==> fn(j).Threw?);
        assert forall j :: i <= j < c ==> fn(j).Threw?;
      }
      if r.Rejected? {
        assert forall j :: i <= j < attempts ==> fn(j).Threw?;
      }
      if attempts > i && forall j :: i <= j < attempts ==> fn(j).Threw? {
        assert forall j :: i + 1 <= j < attempts ==> fn(j).Threw?;
      }
    } else if i < attempts && fn(i).Returned? {
      assert fn(i) == Returned(RetryFrom(fn, i, attempts).value);
    }
  }

  /** One more attempt never undoes a success. */
  lemma {:induction false} RetryMoreAttempts<V>(fn: nat -> Attempt<V>, i: nat, attempts: int)
    requires RetryFrom(fn, i, attempts).Resolved?
    ensures RetryFrom(fn, i, attempts + 1) == RetryFrom(fn, i, attempts)
    decreases attempts - i
  {
    if fn(i).Threw? {
      RetryMoreAttempts(fn, i + 1, attempts);
    }
  }

  /** `retry(fn, attempts)`: calls `fn` until it returns, at most `attempts` times,
      sleeping 200 ms after the first failure and doubling the delay after each
      further one; the last error is rethrown. `calls` counts the calls and
      `sleeps` lists the delays slept, in order. */
  method Retry<V>(fn: nat -> Attempt<V>, attempts: int) returns (r: RetryOutcome<V>, calls: nat, sleeps: seq<nat>)
    ensures r == RetryFrom(fn, 0, attempts)
    ensures r.Undefined? <==> attempts <= 0
    ensures r.Undefined? ==> calls == 0 && sleeps == []
    ensures r.Resolved? ==> 1 <= calls <= attempts && fn(calls - 1) == Returned(r.value)
    ensures r.Rejected? ==> calls == attempts && fn(calls - 1) == Threw(r.message)
    ensures forall j :: 0 <= j < calls - 1 ==> fn(j).Threw?
    ensures calls > 0 ==> |sleeps| == calls - 1
    ensures forall j :: 0 <= j < |sleeps| ==> sleeps[j] == Backoff(j)
  {
    var delay := InitialDelay;
    var i := 0;
    sleeps := [];
    while i < attempts
      invariant 0 <= i && (attempts > 0 ==> i < attempts) && (attempts <= 0 ==> i == 0)
      invariant forall j :: 0 <= j < i ==> fn(j).Threw?
      invariant RetryFrom(fn, i, attempts) == RetryFrom(fn, 0, attempts)
      invariant |sleeps| == i && delay == Backoff(i)
      invariant forall j :: 0 <= j < |sleeps| ==> sleeps[j] == Backoff(j)
      decreases attempts - i
    {
      var outcome := fn(i);
      if outcome.Returned? {
        return Resolved(outcome.value), i + 1, sleeps;
      }
      if i == attempts - 1 {
        return Rejected(outcome.message), i + 1, sleeps;
      }
      assert RetryFrom(fn, i + 1, attempts) == RetryFrom(fn, i, attempts);
      sleeps := sleeps + [delay];
      BackoffDoubles(i);
      delay := delay * 2;
      i := i + 1;
    }
    r, calls := Undefined, 0;
  }

  /** The delays slept before the `n`-th attempt. */
  function TotalBackoff(n: nat): nat {
    if n == 0 then 0 else TotalBackoff(n - 1) + Backoff(n - 1)
  }

  /** The delays double each time, so `n` sleeps add up to 200 * (2^n - 1) ms:
      3000 ms before the last of the five default attempts. */
  lemma {:induction false} TotalBackoffClosed(n: nat)
    ensures TotalBackoff(n) == InitialDelay * (Pow2(n) - 1)
  {
    if n > 0 {
      TotalBackoffClosed(n - 1);
    }
  }

  class OrchestratorRecovery {
    const bus: EventBus
    const dlq: DeadLetterQueue

    constructor (bus: EventBus)
      ensures this.bus == bus
      ensures fresh(dlq) && dlq.failed == []
    {
      this.bus := bus;
      dlq := new DeadLetterQueue();
    }

    /** `safeProcess(handler, event)`: retries `handler(event)` with the default
        five attempts; `handler(event, k)` is what its `k`-th call does. When every
        attempt throws, the event is dead-lettered with the last error's message
        at clock reading `now`; otherwise the dead-letter queue is untouched. */
    method SafeProcess<V>(handler: (PipelineEvent, nat) -> Attempt<V>, event: PipelineEvent, now: int)
      modifies dlq
      ensures var outcome := RetryFrom((k: nat) => handler(event, k), 0, DefaultAttempts);
        && (outcome.Rejected? ==> dlq.failed == old(dlq.failed) + [DeadLetter(event, outcome.message, now)])
        && (!outcome.Rejected? ==> dlq.failed == old(dlq.failed))
    {
      var outcome, _, _ := Retry((k: nat) => handler(event, k), DefaultAttempts);
      if outcome.Rejected? {
        dlq.Push(event, outcome.message, now);
      }
    }
  }

  class ReplayEngine {
    const bus: EventBus
    var history: seq<PipelineEvent>

    constructor (bus: EventBus)
      ensures this.bus == bus && history == []
    {
      this.bus := bus;
      history := [];
    }

    /** Appends `event` to the history. */
    method Record(event: PipelineEvent)
      modifies this
      ensures history == old(history) + [event]
    {
      history := history + [event];
    }

    /** Publishes the whole history, oldest first, behind what the bus already
        holds; the history is kept. */
    method Replay()
      modifies bus
      ensures bus.queue == old(bus.queue) + history
    {
      for i := 0 to |history|
        invariant bus.queue == old(bus.queue) + history[..i]
      {
        assert history[..i + 1] == history[..i] + [history[i]];
        bus.Publish(history[i]);
      }
    }
  }
}
