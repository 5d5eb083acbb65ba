/** The Nexus decision layer: the heuristic neural score
    (src/nexus/brain/neural-score.js), the APPROVE/REVIEW/DECLINE thresholds
    (src/nexus/brain/decision-fusion.js) and their composition with the routing
    brain, the compliance engine and the ledger VM (src/nexus/nexus-core.js,
    with the context record of src/nexus/context/context-builder.js folded in).
    The probes the routing brain awaits are the parameter `health`; the clock
    reading is the parameter `now`. */
module Nexus {
  import opened Wrappers
  import Routing
  import Compliance
  import Ledger

  /** The payment record handed to every engine, with the fields each one reads. */
  datatype NexusPayload = NexusPayload(amount: int, country: string, currency: string, mcc: string,
                                       risk: Option<int>, fields: map<string, string>)

  function RouteView(p: NexusPayload): Routing.RoutePayload {
    Routing.RoutePayload(p.mcc, p.country, p.risk)
  }

  function PaymentView(p: NexusPayload): Compliance.Payment {
    Compliance.Payment(p.amount, p.country, p.currency)
  }

  function LedgerView(p: NexusPayload): Ledger.LedgerPayload {
    Ledger.LedgerPayload(p.amount, p.fields)
  }

  /** The decision context: `routing` is null when nothing was chosen, and
      `neuralScore` is absent until `execute` sets it. The optional `compliance`
      and `ledger` stand for the `?.` reads of the score. */
  datatype Context<S> = Context(timestamp: int, payload: NexusPayload, routing: Option<Routing.Scored>,
                                compliance: Option<Compliance.ComplianceResult>,
                                ledger: Option<Ledger.Execution<S>>, neuralScore: Option<int>)

  /** `context.routing?.score || 0`. */
  function RoutingTerm<S>(context: Context<S>): int {
    if context.routing.Some? then context.routing.value.score else 0
  }

  /** `neuralScore(context)`: the routing score, +50 for CLEAR, -100 for FLAGGED,
      +30 for exactly two ledger entries and -50 otherwise, -20 above 10000. */
  function NeuralScore<S>(context: Context<S>): (score: int)
    ensures RoutingTerm(context) - 170 <= score <= RoutingTerm(context) + 80
    ensures score == RoutingTerm(context) + 80 <==>
      context.compliance == Some(Compliance.Clear) && context.ledger.Some? &&
      |context.ledger.value.entries| == 2 && context.payload.amount <= 10000
  {
    var s0 := 0;
    var s1 := s0 + RoutingTerm(context);
    var s2 := if context.compliance == Some(Compliance.Clear) then s1 + 50 else s1;
    var s3 := if context.compliance.Some? && context.compliance.value.Flagged? then s2 - 100 else s2;
    var s4 := if context.ledger.Some? && |context.ledger.value.entries| == 2 then s3 + 30 else s3 - 50;
    if context.payload.amount > 10000 then s4 - 20 else s4
  }

  /** Each term on its own: the compliance status moves the score by +50, -100 or 0,
      the ledger by +30 or -50, and the amount by -20 only strictly above 10000. */
  lemma NeuralScoreTerms<S>(context: Context<S>)
    ensures NeuralScore(context) ==
      RoutingTerm(context)
      + (match context.compliance
         case None => 0
         case Some(Clear) => 50
         case Some(Flagged(_)) => -100)
      + (if context.ledger.Some? && |context.ledger.value.entries| == 2 then 30 else -50)
      + (if context.payload.amount > 10000 then -20 else 0)
  {
  }

  /** The score never falls when only the routing score rises. */
  lemma NeuralScoreMonotone<S>(context: Context<S>, lower: Option<Routing.Scored>, higher: Option<Routing.Scored>)
    requires RoutingTerm(context.(routing := lower)) <= RoutingTerm(context.(routing := higher))
    ensures NeuralScore(context.(routing := lower)) <= NeuralScore(context.(routing := higher))
  {
  }

  /** The score does not read a score already set. */
  lemma NeuralScoreIgnoresScore<S>(context: Context<S>, v: Option<int>)
    ensures NeuralScore(context.(neuralScore := v)) == NeuralScore(context)
  {
  }

  datatype Verdict = Decline | Review | Approve

  /** DECLINE < REVIEW < APPROVE. */
  function Rank(v: Verdict): nat {
    match v
    case Decline => 0
    case Review => 1
    case Approve => 2
  }

  datatype Decision = Decision(decision: Verdict, reason: string)

  const HighConfidence := "High neural confidence"
  const MediumConfidence := "Medium confidence, manual check suggested"
  const LowConfidence := "Low neural confidence"

  /** `fuseDecision(context)` on `context.neural_score`: an absent score compares
      false with both thresholds and so declines. */
  function FuseDecision<S>(context: Context<S>): (r: Decision)
    ensures r.decision == Approve <==> context.neuralScore.Some? && context.neuralScore.value >= 80
    ensures r.decision == Review <==> context.neuralScore.Some? && 40 <= context.neuralScore.value < 80
    ensures r.decision == Decline <==> context.neuralScore.None? || context.neuralScore.value < 40
    ensures r.reason == (match r.decision
                         case Approve => HighConfidence
                         case Review => MediumConfidence
                         case Decline => LowConfidence)
  {
    match context.neuralScore
    case None => Decision(Decline, LowConfidence)
    case Some(score) =>
      if score >= 80 then Decision(Approve, HighConfidence)
      else if score >= 40 then Decision(Review, MediumConfidence)
      else Decision(Decline, LowConfidence)
  }

  /** A higher score never yields a lower decision. */
  lemma FuseMonotone<S>(context: Context<S>, low: int, high: int)
    requires low <= high
    ensures Rank(FuseDecision(context.(neuralScore := Some(low))).decision) <=
            Rank(FuseDecision(context.(neuralScore := Some(high))).decision)
  {
  }

  /** With a routing score of at most 100, a FLAGGED payment scores at most 30 and
      is always declined, whatever the ledger and the amount. */
  lemma FlaggedDeclined<S>(context: Context<S>)
    requires context.compliance.Some? && context.compliance.value.Flagged?
    requires RoutingTerm(context) <= 100
    ensures FuseDecision(context.(neuralScore := Some(NeuralScore(context)))).decision == Decline
  {
    NeuralScoreTerms(context);
  }

  /** An approval needs a non-negative routing score; without exactly two ledger
      entries it needs a routing score of at least 80, and for a FLAGGED payment
      one of at least 150. */
  lemma ApproveNeedsRouting<S>(context: Context<S>)
    requires FuseDecision(context.(neuralScore := Some(NeuralScore(context)))).decision == Approve
    ensures RoutingTerm(context) >= 0
    ensures !(context.ledger.Some? && |context.ledger.value.entries| == 2) ==> RoutingTerm(context) >= 80
    ensures context.compliance.Some? && context.compliance.value.Flagged? ==> RoutingTerm(context) >= 150
  {
    NeuralScoreTerms(context);
  }

  /** What `execute` returns: the context with its score set, and the decision. */
  datatype NexusOutcome<S> = NexusOutcome(context: Context<S>, decision: Decision)

  /** Every score `choose` can return is at most 100, since it is a provider score. */
  lemma ChosenAtMost100(brain: Routing.RoutingBrain, payload: NexusPayload, health: string -> Routing.Health)
    ensures var r := Routing.Chosen(brain.providers, brain.routingMap, RouteView(payload), health);
      r.Some? ==> r.value.score <= 100
  {
    Routing.ChosenIsCandidate(brain.providers, brain.routingMap, RouteView(payload), health);
  }

  /** A Nexus wired to a routing brain, a compliance engine (its policy, history
      and pattern evaluator) and a ledger VM (its policy, rule evaluator and
      settlement). */
  class NexusEngine<S> {
    const brain: Routing.RoutingBrain
    const compliancePolicy: Compliance.CompliancePolicy
    const history: seq<Compliance.Txn>
    const patternHolds: (string, Compliance.Payment) -> bool
    const ledgerPolicy: Ledger.LedgerPolicy
    const ruleHolds: (string, Ledger.LedgerPayload) -> bool
    const settle: (Ledger.LedgerPolicy, Ledger.LedgerPayload) -> S

    constructor (brain: Routing.RoutingBrain, compliancePolicy: Compliance.CompliancePolicy, history: seq<Compliance.Txn>,
                 patternHolds: (string, Compliance.Payment) -> bool, ledgerPolicy: Ledger.LedgerPolicy,
                 ruleHolds: (string, Ledger.LedgerPayload) -> bool, settle: (Ledger.LedgerPolicy, Ledger.LedgerPayload) -> S)
      ensures this.brain == brain && this.compliancePolicy == compliancePolicy && this.history == history
      ensures this.patternHolds == patternHolds && this.ledgerPolicy == ledgerPolicy
      ensures this.ruleHolds == ruleHolds && this.settle == settle
    {
      this.brain := brain;
      this.compliancePolicy := compliancePolicy;
      this.history := history;
      this.patternHolds := patternHolds;
      this.ledgerPolicy := ledgerPolicy;
      this.ruleHolds := ruleHolds;
      this.settle := settle;
    }

    /** The ledger VM's result for `payload`. */
    function LedgerRun(payload: NexusPayload, now: int): Result<Ledger.Execution<S>> {
      Ledger.Execute(ledgerPolicy, LedgerView(payload), now, ruleHolds, settle)
    }

    /** `execute(payload)`: routing, compliance and the ledger consulted once each;
        a ledger validation failure propagates with its message; otherwise the
        context holds the payload and the three results unchanged, its neural
        score is set from it, and the decision is fused from that score. */
    method Execute(payload: NexusPayload, health: string -> Routing.Health, now: int) returns (r: Result<NexusOutcome<S>>)
      ensures r.Failure? <==> LedgerRun(payload, now).Failure?
      ensures r.Failure? ==> r.error == LedgerRun(payload, now).error
      ensures r.Success? ==>
        var c := r.value.context;
        && c.timestamp == now && c.payload == payload
        && c.routing == Routing.Chosen(brain.providers, brain.routingMap, RouteView(payload), health)
        && c.compliance == Some(Compliance.Evaluate(compliancePolicy, history, PaymentView(payload), now, patternHolds))
        && c.ledger == Some(LedgerRun(payload, now).value)
        && c.neuralScore == Some(NeuralScore(c))
        && r.value.decision == FuseDecision(c)
    {
      var routing := brain.Choose(RouteView(payload), health);
      var compliance := Compliance.Evaluate(compliancePolicy, history, PaymentView(payload), now, patternHolds);
      var ledger := LedgerRun(payload, now);
      if ledger.Failure? {
        return Failure(ledger.error);
      }
      var context := Context(now, payload, routing, Some(compliance), Some(ledger.value), None);
      var score := NeuralScore(context);
      NeuralScoreIgnoresScore(context, Some(score));
      context := context.(neuralScore := Some(score));
      var decision := FuseDecision(context);
      r := Success(NexusOutcome(context, decision));
    }
  }

  /** A payment the compliance engine flags is declined by Nexus whatever the
      ledger returned, since no routing score exceeds 100. */
  lemma NexusDeclinesFlagged<S>(nexus: NexusEngine<S>, payload: NexusPayload, health: string -> Routing.Health, now: int,
                                ledger: Option<Ledger.Execution<S>>)
    requires Compliance.Evaluate(nexus.compliancePolicy, nexus.history, PaymentView(payload), now, nexus.patternHolds).Flagged?
    ensures var c := Context(now, payload, Routing.Chosen(nexus.brain.providers, nexus.brain.routingMap, RouteView(payload), health),
                             Some(Compliance.Evaluate(nexus.compliancePolicy, nexus.history, PaymentView(payload), now, nexus.patternHolds)),
                             ledger, None);
      FuseDecision(c.(neuralScore := Some(NeuralScore(c)))).decision == Decline
  {
    var c := Context(now, payload, Routing.Chosen(nexus.brain.providers, nexus.brain.routingMap, RouteView(payload), health),
                     Some(Compliance.Evaluate(nexus.compliancePolicy, nexus.history, PaymentView(payload), now, nexus.patternHolds)),
                     ledger, None);
    ChosenAtMost100(nexus.brain, payload, health);
    FlaggedDeclined(c);
  }
}
