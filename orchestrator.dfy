/** The transaction engine (src/orchestrator/transaction-engine.js) and the core
    orchestrator that drains the bus with it (src/orchestrator/core-orchestrator.js).
    The orchestrator's routing engine is not part of this model. */
module Orchestrator {
  import opened Wrappers
  import opened StateMachine
  import opened Events
  import opened Queue

  /** What `process(e)` publishes, at clock reading `now` and with `freshId` for a
      new UUID: nothing at the end of the pipeline, otherwise one event for the next
      stage carrying the same payload. */
  function Published(e: PipelineEvent, now: int, freshId: string): (out: seq<PipelineEvent>)
    ensures |out| <= 1
    ensures out == [] <==> NextState(e.event).None?
    ensures out != [] ==> out[0].event == NextState(e.event) && out[0].payload == e.payload
    ensures out != [] && Truthy(CorrelationOf(e.payload)) ==> out[0].correlationId == CorrelationOf(e.payload).value
  {
    match NextState(e.event)
    case None => []
    case Some(next) => [EmitEvent(next, e.payload, now, freshId)]
  }

  class TransactionEngine {
    const bus: EventBus

    constructor (bus: EventBus)
      ensures this.bus == bus
    {
      this.bus := bus;
    }

    /** Publishes the event for the next stage, reading the stage from the `event`
        field; at the end of the pipeline the bus is left as it was. */
    method Process(e: PipelineEvent, now: int, freshId: string)
      modifies bus
      ensures bus.queue == old(bus.queue) + Published(e, now, freshId)
    {
      var next := NextState(e.event);
      if next.None? {
        return;
      }
      var newEvent := EmitEvent(next.value, e.payload, now, freshId);
      bus.Publish(newEvent);
    }
  }

  /** How many events a drain handles for `e` alone: one per remaining stage, and
      six for an unknown stage, which restarts at the first. */
  function Rank(e: PipelineEvent): nat {
    var i := IndexOf(e.event);
    if i == -1 then 6 else |Order| - i
  }

  /** The orchestrator's handler `e => tx.process(e)`; its `k`-th call reads the
      clock as `clock(k)` and draws the UUID `ids(k)`. */
  function EngineHandler(clock: nat -> int, ids: nat -> string): Handler {
    (k: nat, e: PipelineEvent) => Published(e, clock(k), ids(k))
  }

  lemma EngineHandlerDecreasing(clock: nat -> int, ids: nat -> string)
    ensures Decreasing(EngineHandler(clock, ids), Rank)
  {
    forall k: nat, e: PipelineEvent
      ensures SumRank(Rank, EngineHandler(clock, ids)(k, e)) < Rank(e)
    {
      var out := Published(e, clock(k), ids(k));
      NextStateCases(e.event);
      if out != [] {
        OrderDistinct();
        assert out[1..] == [];
      }
    }
  }

  /** The events the engine handler is called with when the bus holds `q` and the
      handler has been called `k` times. */
  function EngineDrain(q: seq<PipelineEvent>, clock: nat -> int, ids: nat -> string, k: nat): seq<PipelineEvent> {
    EngineHandlerDecreasing(clock, ids);
    Drain(q, EngineHandler(clock, ids), Rank, k)
  }

  class CoreOrchestrator {
    const bus: EventBus
    const tx: TransactionEngine

    constructor ()
      ensures fresh(bus) && bus.queue == []
      ensures tx.bus == bus
    {
      var b := new EventBus();
      bus := b;
      tx := new TransactionEngine(b);
    }

    /** `start(event)`: publishes `event`, then drains the bus with the engine as
        handler; `handled` lists the events the handler was called with. */
    method Start(event: PipelineEvent, clock: nat -> int, ids: nat -> string) returns (handled: seq<PipelineEvent>)
      modifies bus
      ensures bus.queue == []
      ensures handled == EngineDrain(old(bus.queue) + [event], clock, ids, 0)
    {
      bus.Publish(event);
      EngineHandlerDecreasing(clock, ids);
      handled := bus.Consume(EngineHandler(clock, ids), Rank);
    }
  }

  /** From an event at stage `Order[j]`, the drain of a lone event walks the rest of
      the pipeline: one event per stage, in order, all with the same payload, and
      every derived event keeps a truthy correlation id of the payload. */
  lemma {:induction false} DrainFromStage(e: PipelineEvent, j: nat, clock: nat -> int, ids: nat -> string, k: nat)
    requires j < |Order| && e.event == Some(Order[j])
    ensures var d := EngineDrain([e], clock, ids, k);
      && |d| == |Order| - j
      && d[0] == e
      && (forall i :: 0 <= i < |d| ==> d[i].event == Some(Order[j + i]) && d[i].payload == e.payload)
      && (Truthy(CorrelationOf(e.payload)) ==>
            forall i :: 1 <= i < |d| ==> d[i].correlationId == CorrelationOf(e.payload).value)
    decreases |Order| - j
  {
    EngineHandlerDecreasing(clock, ids);
    var h := EngineHandler(clock, ids);
    var out := Published(e, clock(k), ids(k));
    NextStateCases(e.event);
    assert [e][1..] + out == out;
    assert Drain([e], h, Rank, k) == [e] + Drain(out, h, Rank, k + 1);
    if j + 1 < |Order| {
      var e' := out[0];
      assert out == [e'];
      DrainFromStage(e', j + 1, clock, ids, k + 1);
    } else {
      OrderDistinct();
      assert out == [];
    }
  }

  /** A payment_requested event is handled, then one event for each later stage:
      five handler calls in pipeline order. */
  lemma StartFromRequested(e: PipelineEvent, clock: nat -> int, ids: nat -> string)
    requires e.event == Some(Requested)
    ensures var d := EngineDrain([] + [e], clock, ids, 0);
      && |d| == 5
      && (forall i :: 0 <= i < 5 ==> d[i].event == Some(Order[i]) && d[i].payload == e.payload)
  {
    assert [] + [e] == [e];
    DrainFromStage(e, 0, clock, ids, 0);
  }

  /** A payment_settled event is handled once and nothing is published. */
  lemma StartFromSettled(e: PipelineEvent, clock: nat -> int, ids: nat -> string)
    requires e.event == Some(Settled)
    ensures EngineDrain([] + [e], clock, ids, 0) == [e]
  {
    assert [] + [e] == [e];
    DrainFromStage(e, 4, clock, ids, 0);
  }

  /** Any lone event causes at most six handler calls: an unknown stage restarts
      the pipeline once, and the first handled event is the one started with. */
  lemma StartTerminates(e: PipelineEvent, clock: nat -> int, ids: nat -> string)
    ensures var d := EngineDrain([] + [e], clock, ids, 0);
      && 1 <= |d| <= 6
      && d[0] == e
  {
    EngineHandlerDecreasing(clock, ids);
    assert [] + [e] == [e];
    DrainBound([e], EngineHandler(clock, ids), Rank, 0);
    DrainStartsWithQueue([e], EngineHandler(clock, ids), Rank, 0);
    assert SumRank(Rank, [e]) == Rank(e);
  }
}
