/** The compliance engine (src/compliance/compliance-core.js) and its three checks:
    velocity windows (src/compliance/runtime/velocity.js), the spike ratio
    (src/compliance/runtime/anomaly.js) and first-match pattern rules
    (src/compliance/runtime/patterns.js). `Date.now()` is the parameter `now`;
    a pattern rule's `eval` after substitution is the parameter `holds`. */
module Compliance {
  import opened Wrappers

  /** A past transaction of the engine's history. */
  datatype Txn = Txn(amount: int, timestamp: int)

  /** The payment fields the checks read. */
  datatype Payment = Payment(amount: int, country: string, currency: string)

  datatype VelocityRules = VelocityRules(maxAmountPerMinute: int, maxTransactionsPerHour: int)

  /** `policy.rules` of a compliance policy. */
  datatype CompliancePolicy = CompliancePolicy(velocity: VelocityRules, suddenSpikeThreshold: real, patterns: seq<string>)

  const MinuteMs := 60000
  const HourMs := 3600000

  const MinuteBreach := "Velocity breach: amount per minute exceeded"
  const HourBreach := "Velocity breach: too many transactions per hour"
  const SpikeDetected := "Anomaly detected: sudden spike in transaction amount"
  const PatternPrefix := "Pattern match triggered: "

  /** `history.filter(t => now - t.timestamp < span)`. */
  function Window(history: seq<Txn>, now: int, span: int): (r: seq<Txn>)
    ensures forall t :: t in r <==> t in history && now - t.timestamp < span
    ensures |r| <= |history|
  {
    if history == [] then []
    else (if now - history[0].timestamp < span then [history[0]] else []) + Window(history[1..], now, span)
  }

  /** The window keeps each recent transaction as often as the history lists it,
      and no other. */
  lemma {:induction false} WindowCount(history: seq<Txn>, now: int, span: int, t: Txn)
    ensures multiset(Window(history, now, span))[t] == if now - t.timestamp < span then multiset(history)[t] else 0
  {
    if history != [] {
      WindowCount(history[1..], now, span, t);
      assert history == [history[0]] + history[1..];
    }
  }

  /** The window keeps the order of the history: filtering two parts in turn is
      filtering the whole. */
  lemma {:induction false} WindowAppend(a: seq<Txn>, b: seq<Txn>, now: int, span: int)
    ensures Window(a + b, now, span) == Window(a, now, span) + Window(b, now, span)
  {
    if a == [] {
      assert a + b == b;
    } else {
      assert (a + b)[1..] == a[1..] + b;
      WindowAppend(a[1..], b, now, span);
    }
  }

  /** A narrower window never holds more transactions: the last minute's are among
      the last hour's. */
  lemma {:induction false} WindowNested(history: seq<Txn>, now: int, narrow: int, wide: int)
    requires narrow <= wide
    ensures |Window(history, now, narrow)| <= |Window(history, now, wide)|
  {
    if history != [] {
      WindowNested(history[1..], now, narrow, wide);
    }
  }

  /** `reduce((a, t) => a + t.amount, 0)` */
  function SumAmounts(txns: seq<Txn>): int {
    if txns == [] then 0 else txns[0].amount + SumAmounts(txns[1..])
  }

  /** `velocityCheck(policy, history, payload)`: the per-minute amount limit is
      checked first and may be reached exactly; then the hourly count, counting
      this payment. */
  function VelocityCheck(policy: CompliancePolicy, history: seq<Txn>, payment: Payment, now: int): (r: Option<string>)
    ensures r == Some(MinuteBreach) <==>
      SumAmounts(Window(history, now, MinuteMs)) + payment.amount > policy.velocity.maxAmountPerMinute
    ensures r == Some(HourBreach) <==>
      SumAmounts(Window(history, now, MinuteMs)) + payment.amount <= policy.velocity.maxAmountPerMinute &&
      |Window(history, now, HourMs)| + 1 > policy.velocity.maxTransactionsPerHour
    ensures r.None? || r == Some(MinuteBreach) || r == Some(HourBreach)
  {
    var lastMinute := Window(history, now, MinuteMs);
    var lastHour := Window(history, now, HourMs);
    if SumAmounts(lastMinute) + payment.amount > policy.velocity.maxAmountPerMinute then Some(MinuteBreach)
    else if |lastHour| + 1 > policy.velocity.maxTransactionsPerHour then Some(HourBreach)
    else None
  }

  /** A transaction older than an hour is outside both windows, so adding it to the
      history changes no velocity verdict. */
  lemma {:induction false} VelocityIgnoresOld(policy: CompliancePolicy, history: seq<Txn>, old_: Txn, payment: Payment, now: int)
    requires now - old_.timestamp >= HourMs
    ensures VelocityCheck(policy, [old_] + history, payment, now) == VelocityCheck(policy, history, payment, now)
  {
    assert ([old_] + history)[1..] == history;
    assert Window([old_] + history, now, MinuteMs) == Window(history, now, MinuteMs);
    assert Window([old_] + history, now, HourMs) == Window(history, now, HourMs);
  }

  /** The history's average amount, an empty history averaging 0
      (`sum / (history.length || 1)`). */
  function Average(history: seq<Txn>): real {
    (SumAmounts(history) as real) / (if |history| == 0 then 1 else |history|) as real
  }

  /** `amount / (avg || 1)`: a zero average is replaced by 1. */
  function Spike(history: seq<Txn>, payment: Payment): real {
    var avg := Average(history);
    (payment.amount as real) / (if avg == 0.0 then 1.0 else avg)
  }

  /** `anomalyScore(policy, history, payload)`: flags a spike at or above the
      threshold. */
  function AnomalyScore(policy: CompliancePolicy, history: seq<Txn>, payment: Payment): (r: Option<string>)
    ensures r.None? || r == Some(SpikeDetected)
    ensures r.Some? <==> Spike(history, payment) >= policy.suddenSpikeThreshold
  {
    if Spike(history, payment) >= policy.suddenSpikeThreshold then Some(SpikeDetected) else None
  }

  /** With a positive history total the ratio test is `amount * count >= threshold * sum`,
      free of division. */
  lemma AnomalyCrossMultiplied(policy: CompliancePolicy, history: seq<Txn>, payment: Payment)
    requires SumAmounts(history) > 0
    ensures AnomalyScore(policy, history, payment).Some? <==>
      (payment.amount as real) * (|history| as real) >= policy.suddenSpikeThreshold * (SumAmounts(history) as real)
  {
    SpikeCrossMultiplied(history, payment, policy.suddenSpikeThreshold);
  }

  lemma SpikeCrossMultiplied(history: seq<Txn>, payment: Payment, threshold: real)
    requires SumAmounts(history) > 0
    ensures Spike(history, payment) >= threshold <==>
      (payment.amount as real) * (|history| as real) >= threshold * (SumAmounts(history) as real)
  {
    var s := SumAmounts(history) as real;
    var n := |history| as real;
    var a := payment.amount as real;
    SpikeRatio(history, payment);
    RatioTest(a, s, n, threshold);
  }

  lemma SpikeRatio(history: seq<Txn>, payment: Payment)
    requires SumAmounts(history) > 0
    ensures |history| > 0
    ensures Spike(history, payment) == (payment.amount as real) / ((SumAmounts(history) as real) / (|history| as real))
  {
    AverageOfNonEmpty(history);
    PositiveQuotient(SumAmounts(history) as real, |history| as real);
    SpikeOfNonZero(history, payment);
  }

  lemma AverageOfNonEmpty(history: seq<Txn>)
    requires SumAmounts(history) != 0
    ensures |history| > 0
    ensures Average(history) == (SumAmounts(history) as real) / (|history| as real)
  {
  }

  lemma SpikeOfNonZero(history: seq<Txn>, payment: Payment)
    requires Average(history) != 0.0
    ensures Spike(history, payment) == payment.amount as real / Average(history)
  {
  }

  /** `a / (s / n) >= t` without division, for positive `s` and `n`. */
  lemma RatioTest(a: real, s: real, n: real, t: real)
    requires s > 0.0 && n > 0.0
    ensures a / (s / n) >= t <==> a * n >= t * s
  {
    PositiveQuotient(s, n);
    var avg := s / n;
    DivideAtLeast(a, avg, t);
    MultiplyAtLeast(a, t * avg, n);
    ScaleQuotient(t, s, n);
  }

  lemma PositiveQuotient(s: real, n: real)
    requires s > 0.0 && n > 0.0
    ensures s / n > 0.0
  {
  }

  lemma DivideAtLeast(a: real, d: real, t: real)
    requires d > 0.0
    ensures a / d >= t <==> a >= t * d
  {
    assert a / d * d == a;
  }

  lemma MultiplyAtLeast(a: real, b: real, n: real)
    requires n > 0.0
    ensures a >= b <==> a * n >= b * n
  {
  }

  lemma ScaleQuotient(t: real, s: real, n: real)
    requires n > 0.0
    ensures t * (s / n) * n == t * s
  {
    assert s / n * n == s;
  }

  /** With no history, and with a history summing to 0, the amount itself is
      compared with the threshold. */
  lemma AnomalyZeroAverage(policy: CompliancePolicy, history: seq<Txn>, payment: Payment)
    requires SumAmounts(history) == 0
    ensures AnomalyScore(policy, history, payment).Some? <==> payment.amount as real >= policy.suddenSpikeThreshold
  {
    assert Average(history) == 0.0;
  }

  /** `patternMatch(policy, payload)`: the first rule, in policy order, that holds
      for the payment, reported with its own text; rules after it are not looked
      at. */
  function PatternMatch(rules: seq<string>, payment: Payment, holds: (string, Payment) -> bool): (r: Option<string>)
    ensures r.None? <==> forall i :: 0 <= i < |rules| ==> !holds(rules[i], payment)
    ensures r.Some? ==> exists i :: (0 <= i < |rules| && holds(rules[i], payment) &&
      (forall j :: 0 <= j < i ==> !holds(rules[j], payment)) && r.value == PatternPrefix + rules[i])
  {
    if rules == [] then None
    else if holds(rules[0], payment) then Some(PatternPrefix + rules[0])
    else
      var r := PatternMatch(rules[1..], payment, holds);
      assert forall i :: 1 <= i < |rules| ==> rules[i] == rules[1..][i - 1];
      r
  }

  /** Rules after the first matching one do not change the result. */
  lemma {:induction false} PatternMatchFirstWins(a: seq<string>, b: seq<string>, payment: Payment, holds: (string, Payment) -> bool)
    requires PatternMatch(a, payment, holds).Some?
    ensures PatternMatch(a + b, payment, holds) == PatternMatch(a, payment, holds)
  {
    assert (a + b)[0] == a[0];
    if !holds(a[0], payment) {
      assert (a + b)[1..] == a[1..] + b;
      PatternMatchFirstWins(a[1..], b, payment, holds);
    }
  }

  /** The engine's verdict: CLEAR carries no issues. */
  datatype ComplianceResult = Clear | Flagged(issues: seq<string>)

  /** `checks.filter(Boolean)`: the messages of the checks that fired, in order
      (every message is a non-empty string, hence truthy). */
  function Fired(checks: seq<Option<string>>): (r: seq<string>)
    ensures |r| <= |checks|
    ensures r == [] <==> forall i :: 0 <= i < |checks| ==> checks[i].None?
  {
    if checks == [] then []
    else (if checks[0].Some? then [checks[0].value] else []) + Fired(checks[1..])
  }

  /** `evaluate(payload)` of an engine holding `history` and `policy`. */
  function Evaluate(policy: CompliancePolicy, history: seq<Txn>, payment: Payment, now: int, holds: (string, Payment) -> bool): (r: ComplianceResult)
    ensures var v := VelocityCheck(policy, history, payment, now);
      var a := AnomalyScore(policy, history, payment);
      var p := PatternMatch(policy.patterns, payment, holds);
      && (r.Clear? <==> v.None? && a.None? && p.None?)
      && (r.Flagged? ==> 1 <= |r.issues| <= 3)
      && (r.Flagged? ==>
            r.issues == (if v.Some? then [v.value] else []) + (if a.Some? then [a.value] else []) + (if p.Some? then [p.value] else []))
  {
    var v := VelocityCheck(policy, history, payment, now);
    var a := AnomalyScore(policy, history, payment);
    var p := PatternMatch(policy.patterns, payment, holds);
    var checks := [v, a, p];
    var issues := Fired(checks);
    assert checks[1..] == [a, p] && [a, p][1..] == [p] && [p][1..] == [];
    assert Fired([p]) == (if p.Some? then [p.value] else []);
    assert Fired([a, p]) == (if a.Some? then [a.value] else []) + Fired([p]);
    if |issues| > 0 then Flagged(issues) else Clear
  }
}
