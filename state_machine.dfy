/** The fixed five-stage payment pipeline (src/orchestrator/state-machine.js). */
module StateMachine {
  import opened Wrappers

  const Requested := "payment_requested"
  const Validated := "payment_validated"
  const Routed := "payment_routed"
  const Executed := "payment_executed"
  const Settled := "payment_settled"

  /** `Object.values(PipelineStates)`: the stages in pipeline order. */
  const Order: seq<string> := [Requested, Validated, Routed, Executed, Settled]

  /** The five stage names are pairwise distinct. */
  lemma OrderDistinct()
    ensures forall i, j :: 0 <= i < j < |Order| ==> Order[i] != Order[j]
  {
    assert Requested[8] != Validated[8];
    assert |Requested| != |Routed| && |Requested| != |Executed| && |Requested| != |Settled|;
    assert |Validated| != |Routed| && |Validated| != |Executed| && |Validated| != |Settled|;
    assert |Routed| != |Executed| && |Routed| != |Settled| && |Executed| != |Settled|;
  }

  /** `order.indexOf(current)`: the position of `current` in the order, or -1 when
      it is not a stage name (`undefined` is `None`). */
  function IndexOf(current: Option<string>): (i: int)
    ensures -1 <= i < |Order|
    ensures i == -1 <==> current.None? || current.value !in Order
    ensures i >= 0 ==> current == Some(Order[i])
  {
    if current.None? then -1
    else if current.value == Order[0] then 0
    else if current.value == Order[1] then 1
    else if current.value == Order[2] then 2
    else if current.value == Order[3] then 3
    else if current.value == Order[4] then 4
    else -1
  }

  /** `order[index + 1] || null`: the stage after `current`. */
  function NextState(current: Option<string>): (r: Option<string>)
    ensures r.None? || r.value in Order
  {
    var index := IndexOf(current);
    if index + 1 < |Order| then Some(Order[index + 1]) else None
  }

  /** Each of the first four stages maps to the next one and the last stage to
      null; an unknown stage, `undefined` included, restarts at the first stage
      (indexOf gives -1), which a known stage never yields. */
  lemma NextStateCases(current: Option<string>)
    ensures var r := NextState(current);
      && (r.None? || r.value in Order)
      && (r.None? <==> current == Some(Settled))
      && ((current.None? || current.value !in Order) ==> r == Some(Requested))
      && (forall k :: 0 <= k < |Order| - 1 && current == Some(Order[k]) ==> r == Some(Order[k + 1]))
      && (current.Some? && current.value in Order ==> r != Some(Requested))
  {
    OrderDistinct();
  }

  /** `nextState` applied `n` times. */
  function Iterate(current: Option<string>, n: nat): Option<string>
    decreases n
  {
    if n == 0 then current else Iterate(NextState(current), n - 1)
  }

  /** From the first stage, four steps reach the last stage and a fifth ends the
      pipeline; every stage in between is visited in order. */
  lemma {:induction false} IterateFromRequested()
    ensures forall n :: 0 <= n < |Order| ==> Iterate(Some(Requested), n) == Some(Order[n])
    ensures Iterate(Some(Requested), 4) == Some(Settled)
    ensures Iterate(Some(Requested), 5) == None
  {
    forall n | 0 <= n < |Order| ensures Iterate(Some(Requested), n) == Some(Order[n]) {
      IterateStage(0, n);
    }
    IterateStage(0, 4);
    NextStateCases(Some(Settled));
    assert Iterate(Some(Settled), 1) == None;
    IterateShift(Some(Requested), 4, 1);
  }

  lemma {:induction false} IterateStage(k: nat, n: nat)
    requires k + n < |Order|
    ensures Iterate(Some(Order[k]), n) == Some(Order[k + n])
    decreases n
  {
    if n > 0 {
      NextStateCases(Some(Order[k]));
      IterateStage(k + 1, n - 1);
    }
  }

  lemma {:induction false} IterateShift(c: Option<string>, m: nat, n: nat)
    ensures Iterate(c, m + n) == Iterate(Iterate(c, m), n)
    decreases m
  {
    if m > 0 {
      IterateShift(NextState(c), m - 1, n);
    }
  }
}
