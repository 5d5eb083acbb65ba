/** Pipeline events and correlation ids (src/events/emitter.js, src/utils/correlation.js).
    `Date.now()` and `crypto.randomUUID()` are parameters. */
module Events {
  import opened Wrappers

  /** A payload object: its `correlation_id` (absent is `None`) and its other fields. */
  datatype Data = Data(correlationId: Option<string>, fields: map<string, string>)

  /** `{ event, timestamp, correlation_id, payload }`; the stage is read from the
      `event` field, which an incoming event may lack (`None`). A payload of
      `null` or `undefined` is `None`. */
  datatype PipelineEvent = PipelineEvent(event: Option<string>, timestamp: int, correlationId: string, payload: Option<Data>)

  /** `data?.correlation_id`: the id carried by an optional payload. */
  function CorrelationOf(data: Option<Data>): Option<string> {
    if data.Some? then data.value.correlationId else None
  }

  /** JavaScript truthiness of an optional string: present and non-empty. */
  predicate Truthy(id: Option<string>) {
    id.Some? && id.value != ""
  }

  /** `emitEvent(name, data)` at clock reading `now`, with `freshId` standing for
      `crypto.randomUUID()`. */
  function EmitEvent(name: string, data: Option<Data>, now: int, freshId: string): (e: PipelineEvent)
    ensures e.event == Some(name) && e.timestamp == now
    ensures e.payload == data
    ensures e.correlationId == (if Truthy(CorrelationOf(data)) then CorrelationOf(data).value else freshId)
  {
    PipelineEvent(Some(name), now, if Truthy(CorrelationOf(data)) then data.value.correlationId.value else freshId, data)
  }

  /** `ensureCorrelation(data)`: a copy of `data` (`{}` for null) whose
      `correlation_id` is kept when truthy and otherwise set to `freshId`. */
  function EnsureCorrelation(data: Option<Data>, freshId: string): (r: Data)
    ensures r.fields == (if data.Some? then data.value.fields else map[])
    ensures Truthy(CorrelationOf(data)) ==> r.correlationId == CorrelationOf(data)
    ensures !Truthy(CorrelationOf(data)) ==> r.correlationId == Some(freshId)
  {
    var fields := if data.Some? then data.value.fields else map[];
    Data(if Truthy(CorrelationOf(data)) then CorrelationOf(data) else Some(freshId), fields)
  }

  /** Ensuring a correlation id twice changes nothing the second time, provided the
      generated id is non-empty (a UUID always is). */
  lemma EnsureCorrelationIdempotent(data: Option<Data>, id1: string, id2: string)
    requires id1 != ""
    ensures EnsureCorrelation(Some(EnsureCorrelation(data, id1)), id2) == EnsureCorrelation(data, id1)
  {
  }
}
