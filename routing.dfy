/** Provider routing: the additive-penalty scorer (src/routing/scoring.js), the
    routing brain that ranks the candidate providers of a payment
    (src/routing/routing-brain.js) and failover to a second query
    (src/routing/failover.js). Health checks are inputs: `health(name)` is what
    the probe of provider `name` reported. */
module Routing {
  import opened Wrappers
  import opened Sorting

  /** `scoreProvider({ latency, risk, availability })`: 100, less 20 above 500 ms and
      40 more above 1000 ms, less 30 above risk 70 and 50 more above 90, less 100
      when unavailable. */
  function ScoreProvider(latency: int, risk: int, available: bool): (score: int)
    ensures -140 <= score <= 100
    ensures score == 100 <==> latency <= 500 && risk <= 70 && available
    ensures !available ==> score <= 0
  {
    var s0 := 100;
    var s1 := if latency > 500 then s0 - 20 else s0;
    var s2 := if latency > 1000 then s1 - 40 else s1;
    var s3 := if risk > 70 then s2 - 30 else s2;
    var s4 := if risk > 90 then s3 - 50 else s3;
    if !available then s4 - 100 else s4
  }

  /** The penalties are tiered: 20 or 60 in all for latency, 30 or 80 in all for
      risk, and exactly 100 for unavailability. */
  lemma ScoreTiers(latency: int, risk: int, available: bool)
    ensures ScoreProvider(latency, risk, available) ==
      100 - (if latency > 1000 then 60 else if latency > 500 then 20 else 0)
          - (if risk > 90 then 80 else if risk > 70 then 30 else 0)
          - (if available then 0 else 100)
    ensures ScoreProvider(latency, risk, false) == ScoreProvider(latency, risk, true) - 100
  {
  }

  /** The score never rises with latency or with risk, and never falls when a
      provider comes up. */
  lemma ScoreMonotone(l1: int, l2: int, r1: int, r2: int, a1: bool, a2: bool)
    requires l1 <= l2 && r1 <= r2 && (a2 ==> a1)
    ensures ScoreProvider(l2, r2, a2) <= ScoreProvider(l1, r1, a1)
  {
  }

  /** A provider entry: only its `risk` is read; absent is `None`. */
  datatype Provider = Provider(risk: Option<int>)

  /** `healthCheck(provider)`: status "UP" with the measured latency, or "DOWN"
      with a null latency. */
  datatype Health = Health(status: string, latency: Option<int>)

  /** `routing-map.json`: provider names by merchant category code and by country. */
  datatype RoutingMap = RoutingMap(mcc: map<string, seq<string>>, country: map<string, seq<string>>)

  /** The payment fields routing reads, and the `risk` field failover overrides. */
  datatype RoutePayload = RoutePayload(mcc: string, country: string, risk: Option<int>)

  datatype Scored = Scored(name: string, score: int)

  /** `x || d` for a number: `d` when `x` is null, undefined or 0. */
  function OrDefault(x: Option<int>, d: int): (r: int)
    ensures x.None? || x.value == 0 ==> r == d
    ensures x.Some? && x.value != 0 ==> r == x.value
  {
    if x.None? || x.value == 0 then d else x.value
  }

  /** The score of one provider given its health: a missing or zero latency counts
      as 9999 ms, a missing or zero risk as 50. */
  function ProviderScore(p: Provider, h: Health): (score: int)
    ensures h.status != "UP" ==> score <= 0
    ensures h.latency.None? || h.latency == Some(0) ==> score <= 40
    ensures p.risk.None? && h.status == "UP" && h.latency.Some? && 0 < h.latency.value <= 500 ==> score == 100
  {
    ScoreProvider(OrDefault(h.latency, 9999), OrDefault(p.risk, 50), h.status == "UP")
  }

  /** `[...new Set(xs)]`: the elements of `xs` without repetition, each where it
      first occurs. */
  function Dedup(xs: seq<string>): (r: seq<string>)
    ensures forall x :: x in r <==> x in xs
    ensures forall i, j :: 0 <= i < j < |r| ==> r[i] != r[j]
    ensures |r| <= |xs|
  {
    if xs == [] then []
    else
      var d := Dedup(xs[..|xs| - 1]);
      assert xs == xs[..|xs| - 1] + [xs[|xs| - 1]];
      if xs[|xs| - 1] in d then d else d + [xs[|xs| - 1]]
  }

  /** The position where `x` first occurs in `xs`. */
  function FirstIndex(xs: seq<string>, x: string): (i: nat)
    requires x in xs
    ensures i < |xs| && xs[i] == x
    ensures forall j :: 0 <= j < i ==> xs[j] != x
  {
    if xs[0] == x then 0 else 1 + FirstIndex(xs[1..], x)
  }

  lemma {:induction false} FirstIndexPrefix(xs: seq<string>, n: nat, x: string)
    requires n <= |xs| && x in xs[..n]
    ensures FirstIndex(xs, x) == FirstIndex(xs[..n], x)
  {
    var i := FirstIndex(xs[..n], x);
    assert xs[i] == x;
  }

  /** The deduplicated names keep the order of their first occurrences. */
  lemma {:induction false} DedupOrder(xs: seq<string>)
    ensures forall i, j :: 0 <= i < j < |Dedup(xs)| ==>
      FirstIndex(xs, Dedup(xs)[i]) < FirstIndex(xs, Dedup(xs)[j])
  {
    if xs != [] {
      var n := |xs| - 1;
      var p := xs[..n];
      var d := Dedup(p);
      DedupOrder(p);
      forall y | y in d ensures FirstIndex(xs, y) == FirstIndex(p, y) && FirstIndex(xs, y) < n {
        FirstIndexPrefix(xs, n, y);
      }
      if xs[n] !in d {
        assert xs[n] !in p;
        assert FirstIndex(xs, xs[n]) == n;
      }
    }
  }

  /** The candidate names: those listed for the payment's merchant category code,
      then those listed for its country, without repetition. */
  function Candidates(m: RoutingMap, payload: RoutePayload): (r: seq<string>)
    ensures forall x :: x in r <==>
      (payload.mcc in m.mcc && x in m.mcc[payload.mcc]) || (payload.country in m.country && x in m.country[payload.country])
    ensures forall i, j :: 0 <= i < j < |r| ==> r[i] != r[j]
  {
    var mccList := if payload.mcc in m.mcc then m.mcc[payload.mcc] else [];
    var countryList := if payload.country in m.country then m.country[payload.country] else [];
    Dedup(mccList + countryList)
  }

  /** What the loop of `choose` pushes for `names`: one scored entry per name that
      has a provider entry, in candidate order. */
  function ScoredList(names: seq<string>, providers: map<string, Provider>, health: string -> Health): (r: seq<Scored>)
    ensures forall e :: e in r ==>
      e.name in names && e.name in providers && e.score == ProviderScore(providers[e.name], health(e.name))
    ensures forall x :: x in names && x in providers ==> Scored(x, ProviderScore(providers[x], health(x))) in r
    ensures |r| <= |names|
  {
    if names == [] then []
    else
      var n := |names| - 1;
      assert names == names[..n] + [names[n]];
      ScoredList(names[..n], providers, health) +
        (if names[n] in providers then [Scored(names[n], ProviderScore(providers[names[n]], health(names[n])))] else [])
  }

  /** Each known name is scored as often as it occurs among the names. */
  lemma {:induction false} ScoredListCount(names: seq<string>, providers: map<string, Provider>, health: string -> Health, x: string)
    requires x in providers
    ensures multiset(ScoredList(names, providers, health))[Scored(x, ProviderScore(providers[x], health(x)))] == multiset(names)[x]
  {
    if names != [] {
      var n := |names| - 1;
      var e := Scored(x, ProviderScore(providers[x], health(x)));
      var last := if names[n] in providers then [Scored(names[n], ProviderScore(providers[names[n]], health(names[n])))] else [];
      var prev := ScoredList(names[..n], providers, health);
      ScoredListCount(names[..n], providers, health, x);
      assert ScoredList(names, providers, health) == prev + last;
      assert multiset(ScoredList(names, providers, health)) == multiset(prev) + multiset(last);
      assert multiset(last)[e] == if names[n] == x then 1 else 0;
      SplitLast(names);
    }
  }

  /** Dropping the last element of `a + b`, for a non-empty `b`, drops the last
      element of `b`. */
  lemma AppendFront<T>(a: seq<T>, b: seq<T>)
    requires b != []
    ensures (a + b)[..|a + b| - 1] == a + b[..|b| - 1] && (a + b)[|a + b| - 1] == b[|b| - 1]
  {
    assert (a + b)[..|a + b| - 1] == a + b[..|b| - 1];
  }

  lemma ConcatAssoc<T>(x: seq<T>, y: seq<T>, z: seq<T>)
    ensures (x + y) + z == x + (y + z)
  {
  }

  /** A prefix of a prefix is a prefix, and agrees with the whole below its length. */
  lemma PrefixAgrees<T>(s: seq<T>, n: nat, k: nat)
    requires k < n <= |s|
    ensures s[..n][..k] == s[..k] && s[..n][k] == s[k]
  {
  }

  /** A non-empty list is its front followed by its last element, as a multiset too. */
  lemma SplitLast<T>(s: seq<T>)
    requires s != []
    ensures s == s[..|s| - 1] + [s[|s| - 1]]
    ensures multiset(s) == multiset(s[..|s| - 1]) + multiset([s[|s| - 1]])
  {
    assert s == s[..|s| - 1] + [s[|s| - 1]];
  }

  /** Scoring keeps candidate order: scoring two parts in turn is scoring the whole. */
  lemma {:induction false} ScoredListAppend(a: seq<string>, b: seq<string>, providers: map<string, Provider>, health: string -> Health)
    ensures ScoredList(a + b, providers, health) == ScoredList(a, providers, health) + ScoredList(b, providers, health)
    decreases |b|
  {
    if b == [] {
      assert a + b == a;
    } else {
      var n := |b| - 1;
      var last := if b[n] in providers then [Scored(b[n], ProviderScore(providers[b[n]], health(b[n])))] else [];
      AppendFront(a, b);
      ScoredListAppend(a, b[..n], providers, health);
      assert ScoredList(a + b, providers, health) == ScoredList(a + b[..n], providers, health) + last;
      assert ScoredList(b, providers, health) == ScoredList(b[..n], providers, health) + last;
      ConcatAssoc(ScoredList(a, providers, health), ScoredList(b[..n], providers, health), last);
    }
  }

  /** The `i`-th scored entry comes from some name `names[k]`, and the entries
      before it are exactly those of the names before `k`. */
  lemma {:induction false} ScoredIndex(names: seq<string>, providers: map<string, Provider>, health: string -> Health, i: nat)
    returns (k: nat)
    requires i < |ScoredList(names, providers, health)|
    ensures k < |names| && names[k] == ScoredList(names, providers, health)[i].name
    ensures ScoredList(names[..k], providers, health) == ScoredList(names, providers, health)[..i]
  {
    var n := |names| - 1;
    var prev := ScoredList(names[..n], providers, health);
    var whole := ScoredList(names, providers, health);
    SplitLast(names);
    assert whole[..|prev|] == prev;
    if i < |prev| {
      k := ScoredIndex(names[..n], providers, health, i);
      PrefixAgrees(names, n, k);
      PrefixAgrees(whole, |prev|, i);
    } else {
      k := n;
    }
  }

  /** The comparator `(a, b) => b.score - a.score`: higher scores first. */
  predicate ByScoreDesc(a: Scored, b: Scored) {
    b.score - a.score <= 0
  }

  /** `scored[0] || null` after the sort: the entry with the highest score, the
      earliest among equal scores, or null when nothing was scored. */
  function Best(scored: seq<Scored>): (r: Option<Scored>)
    ensures r.None? <==> scored == []
    ensures r.Some? ==> exists k :: (0 <= k < |scored| && scored[k] == r.value &&
      (forall j :: 0 <= j < |scored| ==> scored[j].score <= r.value.score) &&
      (forall j :: 0 <= j < k ==> scored[j].score < r.value.score))
  {
    if scored == [] then None
    else
      SortHead(scored, ByScoreDesc);
      Some(SortWith(scored, ByScoreDesc)[0])
  }

  /** What `choose(payload)` returns when the probes report `health`. */
  function Chosen(providers: map<string, Provider>, m: RoutingMap, payload: RoutePayload, health: string -> Health): (r: Option<Scored>)
    ensures r.Some? ==> r.value.name in Candidates(m, payload) && r.value.name in providers
  {
    Best(ScoredList(Candidates(m, payload), providers, health))
  }

  /** The chosen provider is a candidate with a provider entry, its score is that
      provider's score and no other such candidate scores higher; nothing is chosen
      only when no candidate has an entry. */
  lemma ChosenIsCandidate(providers: map<string, Provider>, m: RoutingMap, payload: RoutePayload, health: string -> Health)
    ensures var r := Chosen(providers, m, payload, health);
      && (r.Some? ==>
            r.value.name in Candidates(m, payload) && r.value.name in providers &&
            r.value.score == ProviderScore(providers[r.value.name], health(r.value.name)))
      && (r.Some? ==> forall x :: x in Candidates(m, payload) && x in providers ==>
            ProviderScore(providers[x], health(x)) <= r.value.score)
      && (r.None? <==> forall x :: x in Candidates(m, payload) ==> x !in providers)
      && (r.Some? ==> var c := Candidates(m, payload);
            exists k :: (0 <= k < |c| && c[k] == r.value.name &&
              forall j :: 0 <= j < k && c[j] in providers ==> ProviderScore(providers[c[j]], health(c[j])) < r.value.score))
  {
    BestOfScored(Candidates(m, payload), providers, health);
  }

  /** The best scored entry of names `c`: a known name carrying its own score, at
      least the score of every known name and above that of every known name
      before it; none only when no name is known. */
  lemma BestOfScored(c: seq<string>, providers: map<string, Provider>, health: string -> Health)
    ensures var r := Best(ScoredList(c, providers, health));
      && (r.Some? ==>
            r.value.name in c && r.value.name in providers &&
            r.value.score == ProviderScore(providers[r.value.name], health(r.value.name)))
      && (r.Some? ==> forall x :: x in c && x in providers ==> ProviderScore(providers[x], health(x)) <= r.value.score)
      && (r.None? <==> forall x :: x in c ==> x !in providers)
      && (r.Some? ==>
            exists k :: (0 <= k < |c| && c[k] == r.value.name &&
              forall j :: 0 <= j < k && c[j] in providers ==> ProviderScore(providers[c[j]], health(c[j])) < r.value.score))
  {
    var s := ScoredList(c, providers, health);
    var r := Best(s);
    if r.Some? {
      var k :| 0 <= k < |s| && s[k] == r.value &&
        (forall j :: 0 <= j < |s| ==> s[j].score <= r.value.score) &&
        (forall j :: 0 <= j < k ==> s[j].score < r.value.score);
      assert s[k] in s;
      ChosenMaximal(c, providers, health, s, k);
      ChosenEarliest(c, providers, health, s, k);
    } else {
      assert s == [];
    }
  }

  /** An entry no other entry outscores beats every known candidate. */
  lemma ChosenMaximal(c: seq<string>, providers: map<string, Provider>, health: string -> Health, s: seq<Scored>, i: nat)
    requires s == ScoredList(c, providers, health) && i < |s|
    requires forall j :: 0 <= j < |s| ==> s[j].score <= s[i].score
    ensures forall x :: x in c && x in providers ==> ProviderScore(providers[x], health(x)) <= s[i].score
  {
    forall x | x in c && x in providers
      ensures ProviderScore(providers[x], health(x)) <= s[i].score
    {
      var e := Scored(x, ProviderScore(providers[x], health(x)));
      assert e in s;
      var j :| 0 <= j < |s| && s[j] == e;
    }
  }

  /** Ties go to the earliest candidate: when the entry at `i` beats every entry
      before it, every known candidate before its name scores less. */
  lemma ChosenEarliest(c: seq<string>, providers: map<string, Provider>, health: string -> Health, s: seq<Scored>, i: nat)
    requires s == ScoredList(c, providers, health) && i < |s|
    requires forall j :: 0 <= j < i ==> s[j].score < s[i].score
    ensures exists k :: (0 <= k < |c| && c[k] == s[i].name &&
      forall j :: 0 <= j < k && c[j] in providers ==> ProviderScore(providers[c[j]], health(c[j])) < s[i].score)
  {
    var k := ScoredIndex(c, providers, health, i);
    forall j | 0 <= j < k && c[j] in providers
      ensures ProviderScore(providers[c[j]], health(c[j])) < s[i].score
    {
      var e := Scored(c[j], ProviderScore(providers[c[j]], health(c[j])));
      assert c[..k][j] == c[j];
      assert e in ScoredList(c[..k], providers, health);
      var jj :| 0 <= jj < i && s[..i][jj] == e;
    }
  }

  /** Failover's `{ ...payload, risk: 10 }` changes nothing `choose` reads: with the
      same probe results, the second query chooses what the first did. */
  lemma ChosenIgnoresPayloadRisk(providers: map<string, Provider>, m: RoutingMap, payload: RoutePayload, health: string -> Health, risk: Option<int>)
    ensures Chosen(providers, m, payload.(risk := risk), health) == Chosen(providers, m, payload, health)
  {
  }

  class RoutingBrain {
    const providers: map<string, Provider>
    const routingMap: RoutingMap

    constructor (providers: map<string, Provider>, routingMap: RoutingMap)
      ensures this.providers == providers && this.routingMap == routingMap
    {
      this.providers := providers;
      this.routingMap := routingMap;
    }

    /** `choose(payload)`: scores each candidate that has a provider entry, in
        candidate order, sorts the entries by descending score and returns the
        first, or null. */
    method Choose(payload: RoutePayload, health: string -> Health) returns (best: Option<Scored>)
      ensures best == Chosen(providers, routingMap, payload, health)
    {
      var candidates := Candidates(routingMap, payload);
      var scored: seq<Scored> := [];
      for i := 0 to |candidates|
        invariant scored == ScoredList(candidates[..i], providers, health)
      {
        var name := candidates[i];
        assert candidates[..i + 1][..i] == candidates[..i];
        if name !in providers {
          continue;
        }
        var score := ProviderScore(providers[name], health(name));
        scored := scored + [Scored(name, score)];
      }
      assert candidates[..|candidates|] == candidates;
      scored := SortWith(scored, ByScoreDesc);
      best := if |scored| > 0 then Some(scored[0]) else None;
    }
  }

  /** `failover(brain, payload)`: the primary choice, unless it scores below 50, in
      which case a second query with `risk: 10` (probed afresh, as `retryHealth`) is
      taken when it finds anything. `queries` counts the calls of `choose`. */
  method Failover(brain: RoutingBrain, payload: RoutePayload, health: string -> Health, retryHealth: string -> Health)
    returns (r: Option<Scored>, queries: nat)
    ensures var primary := Chosen(brain.providers, brain.routingMap, payload, health);
      var backup := Chosen(brain.providers, brain.routingMap, payload.(risk := Some(10)), retryHealth);
      && (r.None? <==> primary.None?)
      && (primary.Some? && primary.value.score >= 50 ==> r == primary && queries == 1)
      && (primary.Some? && primary.value.score < 50 ==> r == (if backup.Some? then backup else primary) && queries == 2)
      && (primary.None? ==> queries == 1)
  {
    var primary := brain.Choose(payload, health);
    queries := 1;
    if primary.None? {
      return None, queries;
    }
    if primary.value.score < 50 {
      var backup := brain.Choose(payload.(risk := Some(10)), retryHealth);
      queries := 2;
      r := if backup.Some? then backup else primary;
      return;
    }
    r := primary;
  }

  /** With the same probe results both times, failover returns the primary choice. */
  lemma FailoverSameProbe(providers: map<string, Provider>, m: RoutingMap, payload: RoutePayload, health: string -> Health)
    ensures var primary := Chosen(providers, m, payload, health);
      var backup := Chosen(providers, m, payload.(risk := Some(10)), health);
      primary.Some? ==> (if backup.Some? then backup else primary) == primary
  {
    ChosenIgnoresPayloadRisk(providers, m, payload, health, Some(10));
  }
}
