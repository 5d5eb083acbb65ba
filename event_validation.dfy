/** Pipeline completeness: the validator (src/utils/event-validator.js) and the fixer
    that lists the missing stages with a patch line for each (src/fixer/event-fixer.js).
    Both use the five stage names of the state machine as their `required` list. */
module EventValidation {
  import opened Wrappers
  import opened StateMachine

  /** `required.every(e => events.includes(e))` */
  function ValidateEventPipeline(events: seq<string>): (ok: bool)
    ensures ok <==> forall k :: 0 <= k < |Order| ==> Order[k] in events
  {
    forall s | s in Order :: s in events
  }

  /** Only which names occur matters: order, repetitions and extra names do not. */
  lemma ValidateDependsOnNamesOnly(a: seq<string>, b: seq<string>)
    requires forall s :: s in Order ==> (s in a <==> s in b)
    ensures ValidateEventPipeline(a) == ValidateEventPipeline(b)
  {
  }

  lemma ValidateEmpty()
    ensures !ValidateEventPipeline([])
  {
    assert Order[0] !in [];
  }

  /** Appending names never turns a complete pipeline into an incomplete one. */
  lemma ValidateMonotone(a: seq<string>, more: seq<string>)
    requires ValidateEventPipeline(a)
    ensures ValidateEventPipeline(a + more)
  {
    forall k | 0 <= k < |Order| ensures Order[k] in a + more {
      assert Order[k] in a;
    }
  }

  /** The entries of `required` that `events` lacks, in the order of `required`. */
  function Missing(required: seq<string>, events: seq<string>): (r: seq<string>)
    ensures |r| <= |required|
  {
    if required == [] then []
    else (if required[0] in events then [] else [required[0]]) + Missing(required[1..], events)
  }

  /** `Missing` lists exactly the required entries absent from `events`. */
  lemma {:induction false} MissingMembers(required: seq<string>, events: seq<string>)
    ensures forall s :: s in Missing(required, events) <==> s in required && s !in events
  {
    if required != [] {
      MissingMembers(required[1..], events);
      assert forall s :: s in required <==> s == required[0] || s in required[1..];
    }
  }

  /** Nothing is missing exactly when every required entry occurs. */
  lemma {:induction false} MissingNoneIffComplete(required: seq<string>, events: seq<string>)
    ensures Missing(required, events) == [] <==> forall k :: 0 <= k < |required| ==> required[k] in events
  {
    var missing := Missing(required, events);
    MissingMembers(required, events);
    if missing != [] {
      assert missing[0] in missing;
    } else {
      forall k | 0 <= k < |required| ensures required[k] in events {
        assert required[k] in required;
      }
    }
  }

  /** The positions, counted from `from`, of the entries `Missing` lists. */
  function MissingPositions(required: seq<string>, events: seq<string>, from: nat): (r: seq<nat>)
    ensures forall i :: 0 <= i < |r| ==> from <= r[i] < from + |required|
    ensures forall i, j :: 0 <= i < j < |r| ==> r[i] < r[j]
  {
    if required == [] then []
    else (if required[0] in events then [] else [from]) + MissingPositions(required[1..], events, from + 1)
  }

  lemma {:induction false} MissingPositionsLength(required: seq<string>, events: seq<string>, from: nat)
    ensures |Missing(required, events)| == |MissingPositions(required, events, from)|
  {
    if required != [] {
      MissingPositionsLength(required[1..], events, from + 1);
    }
  }

  /** Each missing entry is the required entry at its position. */
  lemma {:induction false} MissingAtPosition(required: seq<string>, events: seq<string>, from: nat, i: nat)
    requires i < |Missing(required, events)|
    ensures i < |MissingPositions(required, events, from)|
    ensures Missing(required, events)[i] == required[MissingPositions(required, events, from)[i] - from]
  {
    MissingPositionsLength(required, events, from);
    var rest := Missing(required[1..], events);
    var after := MissingPositions(required[1..], events, from + 1);
    MissingPositionsLength(required[1..], events, from + 1);
    if required[0] in events {
      MissingAtPosition(required[1..], events, from + 1, i);
    } else if i > 0 {
      MissingAtPosition(required[1..], events, from + 1, i - 1);
      assert Missing(required, events)[i] == rest[i - 1];
      assert MissingPositions(required, events, from)[i] == after[i - 1];
    }
  }

  lemma IndexOfStage(k: nat)
    requires k < |Order|
    ensures IndexOf(Some(Order[k])) == k
  {
    OrderDistinct();
  }

  /** The missing stages keep the pipeline order. */
  lemma MissingOrdered(events: seq<string>)
    ensures forall i, j :: 0 <= i < j < |Missing(Order, events)| ==>
      IndexOf(Some(Missing(Order, events)[i])) < IndexOf(Some(Missing(Order, events)[j]))
  {
    var m := Missing(Order, events);
    var p := MissingPositions(Order, events, 0);
    MissingPositionsLength(Order, events, 0);
    forall i | 0 <= i < |m|
      ensures IndexOf(Some(m[i])) == p[i]
    {
      MissingAtPosition(Order, events, 0, i);
      IndexOfStage(p[i]);
    }
  }

  /** The line the fixer suggests for a missing stage. */
  function PatchLine(stage: string): string {
    "emitEvent(\"" + stage + "\", payload);"
  }

  datatype FixReport = FixReport(missing: seq<string>, patch: seq<string>)

  /** `fixEventPipeline(events)` */
  function FixEventPipeline(events: seq<string>): (r: FixReport)
    ensures |r.missing| <= |Order|
    ensures forall s :: s in r.missing <==> s in Order && s !in events
    ensures |r.patch| == |r.missing|
    ensures forall i :: 0 <= i < |r.patch| ==> r.patch[i] == PatchLine(r.missing[i])
    ensures r.missing == [] <==> ValidateEventPipeline(events)
  {
    var missing := Missing(Order, events);
    MissingNoneIffComplete(Order, events);
    MissingMembers(Order, events);
    FixReport(missing, seq(|missing|, i requires 0 <= i < |missing| => PatchLine(missing[i])))
  }

  lemma DistinctByIndex(a: string, b: string)
    requires IndexOf(Some(a)) < IndexOf(Some(b))
    ensures a != b
  {
  }

  /** The missing stages come in pipeline order, hence without repetition. */
  lemma FixEventPipelineOrdered(events: seq<string>)
    ensures var missing := FixEventPipeline(events).missing;
      && (forall i, j :: 0 <= i < j < |missing| ==> IndexOf(Some(missing[i])) < IndexOf(Some(missing[j])))
      && (forall i, j :: 0 <= i < j < |missing| ==> missing[i] != missing[j])
  {
    var missing := FixEventPipeline(events).missing;
    assert missing == Missing(Order, events);
    MissingOrdered(events);
    forall i, j | 0 <= i < j < |missing| ensures missing[i] != missing[j] {
      DistinctByIndex(missing[i], missing[j]);
    }
  }
}
