/** The speculative evaluator: six fixed weighted paths
    (src/quantum/state/state-generator.js), the per-path score
    (src/quantum/probability/probability-engine.js) and the execution layer that
    scores every path on the Nexus context and labels the decision from the name
    of the path the fusion step picks (src/quantum/core/quantum-core.js). The
    fusion module is the parameter `fuse`. Weights and scores are exact reals. */
module Quantum {
  import opened Wrappers
  import opened Strings
  import Routing
  import Nexus

  datatype QuantumState = QuantumState(path: string, weight: real)

  const ApproveLabel := "APPROVE"
  const ReviewLabel := "REVIEW"
  const DeclineLabel := "DECLINE"

  /** The sum of the weights. */
  function WeightSum(states: seq<QuantumState>): real {
    if states == [] then 0.0 else states[0].weight + WeightSum(states[1..])
  }

  /** How many paths contain `tag`. */
  function CountContaining(states: seq<QuantumState>, tag: string): nat {
    if states == [] then 0 else (if Contains(states[0].path, tag) then 1 else 0) + CountContaining(states[1..], tag)
  }

  /** `generateQuantumStates(payload)`: the same six paths whatever the payment. */
  function GenerateQuantumStates(): (r: seq<QuantumState>)
    ensures |r| == 6
    ensures forall i, j :: 0 <= i < j < |r| ==> r[i].path != r[j].path
    ensures forall i :: 0 <= i < |r| ==> r[i].weight > 0.0
    ensures WeightSum(r) == 1.0
  {
    [QuantumState("A_APPROVE", 0.32), QuantumState("A_DECLINE", 0.12), QuantumState("B_APPROVE", 0.28),
     QuantumState("B_REVIEW", 0.10), QuantumState("C_APPROVE", 0.15), QuantumState("C_DECLINE", 0.03)]
  }

  /** Each generated path contains the verdict its name ends with. */
  lemma GeneratedContains()
    ensures var r := GenerateQuantumStates();
      && Contains(r[0].path, ApproveLabel) && Contains(r[2].path, ApproveLabel) && Contains(r[4].path, ApproveLabel)
      && Contains(r[1].path, DeclineLabel) && Contains(r[5].path, DeclineLabel)
      && Contains(r[3].path, ReviewLabel)
  {
    ApprovePathsContain();
    OtherPathsContain();
  }

  lemma ApprovePathsContain()
    ensures Contains("A_APPROVE", ApproveLabel) && Contains("B_APPROVE", ApproveLabel) && Contains("C_APPROVE", ApproveLabel)
  {
    BranchContains("A_", ApproveLabel, "A_APPROVE");
    BranchContains("B_", ApproveLabel, "B_APPROVE");
    BranchContains("C_", ApproveLabel, "C_APPROVE");
  }

  lemma OtherPathsContain()
    ensures Contains("A_DECLINE", DeclineLabel) && Contains("C_DECLINE", DeclineLabel) && Contains("B_REVIEW", ReviewLabel)
  {
    BranchContains("A_", DeclineLabel, "A_DECLINE");
    BranchContains("C_", DeclineLabel, "C_DECLINE");
    BranchContains("B_", ReviewLabel, "B_REVIEW");
  }

  /** A path named by a branch prefix and a verdict contains that verdict. */
  lemma BranchContains(branch: string, verdict: string, path: string)
    requires |path| == |branch| + |verdict|
    requires path[..|branch|] == branch && path[|branch|..] == verdict
    ensures Contains(path, verdict)
  {
    ContainsAt(path, verdict, |branch|);
  }

  /** No generated path contains a verdict other than its own. */
  lemma GeneratedLacks()
    ensures var r := GenerateQuantumStates();
      && !Contains(r[1].path, ApproveLabel) && !Contains(r[3].path, ApproveLabel) && !Contains(r[5].path, ApproveLabel)
      && !Contains(r[0].path, ReviewLabel) && !Contains(r[1].path, ReviewLabel) && !Contains(r[2].path, ReviewLabel)
      && !Contains(r[4].path, ReviewLabel) && !Contains(r[5].path, ReviewLabel)
      && !Contains(r[0].path, DeclineLabel) && !Contains(r[2].path, DeclineLabel) && !Contains(r[3].path, DeclineLabel)
      && !Contains(r[4].path, DeclineLabel)
  {
    PathsLackApprove();
    PathsLackReview();
    PathsLackDecline();
  }

  lemma PathsLackDecline()
    ensures !Contains("A_APPROVE", DeclineLabel) && !Contains("B_APPROVE", DeclineLabel)
    ensures !Contains("B_REVIEW", DeclineLabel) && !Contains("C_APPROVE", DeclineLabel)
  {
    NotContainsByChar("A_APPROVE", DeclineLabel, 0);
    NotContainsByChar("B_APPROVE", DeclineLabel, 0);
    NotContainsByChar("B_REVIEW", DeclineLabel, 0);
    NotContainsByChar("C_APPROVE", DeclineLabel, 0);
  }

  lemma PathsLackApprove()
    ensures !Contains("A_DECLINE", ApproveLabel) && !Contains("B_REVIEW", ApproveLabel) && !Contains("C_DECLINE", ApproveLabel)
  {
    NotContainsByChar("A_DECLINE", ApproveLabel, 1);
    NotContainsByChar("B_REVIEW", ApproveLabel, 1);
    NotContainsByChar("C_DECLINE", ApproveLabel, 1);
  }

  lemma PathsLackReview()
    ensures !Contains("A_APPROVE", ReviewLabel) && !Contains("A_DECLINE", ReviewLabel) && !Contains("B_APPROVE", ReviewLabel)
    ensures !Contains("C_APPROVE", ReviewLabel) && !Contains("C_DECLINE", ReviewLabel)
  {
    NotContainsByChar("A_APPROVE", ReviewLabel, 5);
    NotContainsByChar("A_DECLINE", ReviewLabel, 5);
    NotContainsByChar("B_APPROVE", ReviewLabel, 5);
    NotContainsByChar("C_APPROVE", ReviewLabel, 5);
    NotContainsByChar("C_DECLINE", ReviewLabel, 5);
  }

  /** Three paths contain APPROVE, two DECLINE and one REVIEW. */
  lemma GeneratedCounts()
    ensures CountContaining(GenerateQuantumStates(), ApproveLabel) == 3
    ensures CountContaining(GenerateQuantumStates(), ReviewLabel) == 1
    ensures CountContaining(GenerateQuantumStates(), DeclineLabel) == 2
  {
    var r := GenerateQuantumStates();
    GeneratedContains();
    GeneratedLacks();
    assert r[1..][1..][1..][1..][1..][1..] == [];
  }

  /** The scores `evaluateState` reads from a context: `routing?.score`,
      `compliance?.score`, `ledger?.score`, `risk?.score`, `chain?.score`, each
      absent when the part or its score field is. */
  datatype ScoreView = ScoreView(routing: Option<real>, compliance: Option<real>, ledger: Option<real>,
                                 risk: Option<real>, chain: Option<real>)

  /** `x || 0` */
  function Part(x: Option<real>): real {
    if x.Some? then x.value else 0.0
  }

  /** `evaluateState(state, context)`: the weight applies to the routing score only. */
  function EvaluateState(state: QuantumState, view: ScoreView): (r: real)
    ensures view == ScoreView(None, None, None, None, None) ==> r == 0.0
  {
    state.weight * Part(view.routing) + Part(view.compliance) + Part(view.ledger) + Part(view.risk) + Part(view.chain)
  }

  /** Only the routing part is weighted: a path's score is the weighted routing
      score plus what the other parts score without it. */
  lemma EvaluateRoutingSplit(state: QuantumState, view: ScoreView)
    ensures EvaluateState(state, view) == state.weight * Part(view.routing) + EvaluateState(state, view.(routing := None))
  {
  }

  /** With a non-negative weight, a path's score never falls as the routing score
      rises, the other parts fixed. */
  lemma EvaluateMonotone(state: QuantumState, view: ScoreView, low: real, high: real)
    requires state.weight >= 0.0 && low <= high
    ensures EvaluateState(state, view.(routing := Some(low))) <= EvaluateState(state, view.(routing := Some(high)))
  {
    assert state.weight * low <= state.weight * high;
  }

  /** The scores a Nexus context exposes: its routing score; a compliance result
      and a ledger execution have no `score` field, and there is no risk or chain
      part. */
  function NexusView<S>(context: Nexus.Context<S>): ScoreView {
    ScoreView(if context.routing.Some? then Some(context.routing.value.score as real) else None, None, None, None, None)
  }

  /** On a Nexus context only the weighted routing term contributes. */
  lemma NexusOnlyRouting<S>(state: QuantumState, context: Nexus.Context<S>)
    ensures EvaluateState(state, NexusView(context)) == state.weight * (Nexus.RoutingTerm(context) as real)
  {
  }

  datatype EvaluatedState = EvaluatedState(path: string, weight: real, finalScore: real)

  /** `states.map(s => ({ ...s, finalScore: evaluateState(s, context) }))`. */
  function EvaluateAll(states: seq<QuantumState>, view: ScoreView): (r: seq<EvaluatedState>)
    ensures |r| == |states|
    ensures forall i :: 0 <= i < |states| ==>
      r[i] == EvaluatedState(states[i].path, states[i].weight, EvaluateState(states[i], view))
  {
    if states == [] then []
    else [EvaluatedState(states[0].path, states[0].weight, EvaluateState(states[0], view))] + EvaluateAll(states[1..], view)
  }

  /** The decision label of the chosen path: APPROVE if its name contains
      "APPROVE", else REVIEW if it contains "REVIEW", else DECLINE. */
  function DecisionFromPath(path: string): (v: Nexus.Verdict)
    ensures v == Nexus.Approve <==> Contains(path, ApproveLabel)
    ensures v == Nexus.Review <==> !Contains(path, ApproveLabel) && Contains(path, ReviewLabel)
    ensures v == Nexus.Decline <==> !Contains(path, ApproveLabel) && !Contains(path, ReviewLabel)
  {
    if Contains(path, ApproveLabel) then Nexus.Approve
    else if Contains(path, ReviewLabel) then Nexus.Review
    else Nexus.Decline
  }

  /** Every generated path is labelled by the verdict its name ends with. */
  lemma GeneratedDecisions()
    ensures var r := GenerateQuantumStates();
      && DecisionFromPath(r[0].path) == Nexus.Approve && DecisionFromPath(r[1].path) == Nexus.Decline
      && DecisionFromPath(r[2].path) == Nexus.Approve && DecisionFromPath(r[3].path) == Nexus.Review
      && DecisionFromPath(r[4].path) == Nexus.Approve && DecisionFromPath(r[5].path) == Nexus.Decline
  {
    GeneratedContains();
    GeneratedLacks();
  }

  /** What `execute` returns; the base Nexus decision is not part of it. */
  datatype QuantumOutcome = QuantumOutcome(states: seq<EvaluatedState>, best: EvaluatedState, decision: Nexus.Verdict)

  class QuantumExecutionLayer<S> {
    const nexus: Nexus.NexusEngine<S>

    constructor (nexus: Nexus.NexusEngine<S>)
      ensures this.nexus == nexus
    {
      this.nexus := nexus;
    }

    /** `execute(payload)`: runs Nexus (whose failure propagates), scores the six
        paths on its context, lets `fuse` pick one and labels the decision from
        that path's name. Only the routing score reaches the path scores. */
    method Execute(payload: Nexus.NexusPayload, health: string -> Routing.Health, now: int,
                   fuse: seq<EvaluatedState> -> EvaluatedState) returns (r: Result<QuantumOutcome>)
      ensures r.Failure? <==> nexus.LedgerRun(payload, now).Failure?
      ensures r.Failure? ==> r.error == nexus.LedgerRun(payload, now).error
      ensures r.Success? ==>
        var routing := Routing.Chosen(nexus.brain.providers, nexus.brain.routingMap, Nexus.RouteView(payload), health);
        var view := ScoreView(if routing.Some? then Some(routing.value.score as real) else None, None, None, None, None);
        && r.value.states == EvaluateAll(GenerateQuantumStates(), view)
        && r.value.best == fuse(r.value.states)
        && r.value.decision == DecisionFromPath(r.value.best.path)
    {
      var base := nexus.Execute(payload, health, now);
      if base.Failure? {
        return Failure(base.error);
      }
      var states := GenerateQuantumStates();
      var evaluated := EvaluateAll(states, NexusView(base.value.context));
      var best := fuse(evaluated);
      r := Success(QuantumOutcome(evaluated, best, DecisionFromPath(best.path)));
    }
  }
}
