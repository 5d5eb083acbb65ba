/** The lowest-risk provider chooser of the routing CLI (src/cli/cyborg-routing.js).
    The provider list is loaded once into module state; the chooser may re-sort
    that shared list in place. Reading and writing the JSON files is not modelled. */
module RoutingCli {
  import opened Wrappers
  import opened Sorting

  /** A provider record of `providers.json`. */
  datatype CliProvider = CliProvider(id: string, currencies: seq<string>, countries: seq<string>, riskScore: int)

  /** The transaction fields `chooseProvider` destructures. */
  datatype RouteRequest = RouteRequest(amount: int, currency: string, country: string, mcc: string)

  /** The filter `p.currencies.includes(currency) && p.countries.includes(country)`. */
  predicate Serves(p: CliProvider, currency: string, country: string) {
    currency in p.currencies && country in p.countries
  }

  /** The providers serving both the currency and the country, in list order. */
  function Serving(providers: seq<CliProvider>, currency: string, country: string): (r: seq<CliProvider>)
    ensures forall p :: p in r <==> p in providers && Serves(p, currency, country)
    ensures |r| <= |providers|
  {
    if providers == [] then []
    else
      var n := |providers| - 1;
      assert providers == providers[..n] + [providers[n]];
      var p := providers[n];
      Serving(providers[..n], currency, country) + (if Serves(p, currency, country) then [p] else [])
  }

  /** The filter keeps every serving provider as often as the list has it, and no
      other. */
  lemma {:induction false} ServingCount(providers: seq<CliProvider>, currency: string, country: string, p: CliProvider)
    ensures multiset(Serving(providers, currency, country))[p] ==
      if Serves(p, currency, country) then multiset(providers)[p] else 0
  {
    if providers != [] {
      var n := |providers| - 1;
      ServingCount(providers[..n], currency, country, p);
      assert providers == providers[..n] + [providers[n]];
    }
  }

  /** The filter keeps list order: filtering two parts in turn is filtering the
      whole. */
  lemma {:induction false} ServingAppend(a: seq<CliProvider>, b: seq<CliProvider>, currency: string, country: string)
    ensures Serving(a + b, currency, country) == Serving(a, currency, country) + Serving(b, currency, country)
    decreases |b|
  {
    if b == [] {
      assert a + b == a;
    } else {
      var n := |b| - 1;
      assert (a + b)[..|a + b| - 1] == a + b[..n] && (a + b)[|a + b| - 1] == b[n];
      ServingAppend(a, b[..n], currency, country);
    }
  }

  /** The `i`-th serving provider is some `providers[k]`, and the serving providers
      before it are exactly those among the providers before `k`. */
  lemma {:induction false} ServingIndex(providers: seq<CliProvider>, currency: string, country: string, i: nat)
    returns (k: nat)
    requires i < |Serving(providers, currency, country)|
    ensures k < |providers| && providers[k] == Serving(providers, currency, country)[i]
    ensures Serving(providers[..k], currency, country) == Serving(providers, currency, country)[..i]
  {
    var n := |providers| - 1;
    var prev := Serving(providers[..n], currency, country);
    var whole := Serving(providers, currency, country);
    assert providers == providers[..n] + [providers[n]];
    assert whole[..|prev|] == prev;
    if i < |prev| {
      k := ServingIndex(providers[..n], currency, country, i);
      assert providers[..n][..k] == providers[..k];
      assert whole[i] == prev[i];
      assert whole[..i] == prev[..i];
    } else {
      k := n;
    }
  }

  /** The comparator `(a, b) => a.riskScore - b.riskScore`: lower risk first. */
  predicate ByRiskAsc(a: CliProvider, b: CliProvider) {
    a.riskScore - b.riskScore <= 0
  }

  /** The candidates `chooseProvider` sorts: the serving providers, or every
      provider when none serves the request. */
  function CandidatesFor(providers: seq<CliProvider>, req: RouteRequest): (r: seq<CliProvider>)
    ensures r == [] <==> providers == []
    ensures forall p :: p in r ==> p in providers
    ensures (exists p :: p in providers && Serves(p, req.currency, req.country)) ==>
      r == Serving(providers, req.currency, req.country)
    ensures (forall p :: p in providers ==> !Serves(p, req.currency, req.country)) ==> r == providers
  {
    var serving := Serving(providers, req.currency, req.country);
    if serving == [] then providers else assert serving[0] in serving; serving
  }

  /** What `chooseProvider(req)` returns: the candidate with the least risk score,
      the earliest among equals, or null exactly when there are no providers. */
  function ChosenProvider(providers: seq<CliProvider>, req: RouteRequest): (r: Option<CliProvider>)
    ensures r.None? <==> providers == []
    ensures r.Some? ==> r.value in CandidatesFor(providers, req)
    ensures r.Some? ==> forall p :: p in CandidatesFor(providers, req) ==> r.value.riskScore <= p.riskScore
    ensures r.Some? ==> var c := CandidatesFor(providers, req);
      exists k :: 0 <= k < |c| && c[k] == r.value && forall j :: 0 <= j < k ==> c[j].riskScore > r.value.riskScore
  {
    var c := CandidatesFor(providers, req);
    if c == [] then None
    else
      SortHead(c, ByRiskAsc);
      Some(SortWith(c, ByRiskAsc)[0])
  }

  /** Only the currency and the country of the request matter. */
  lemma ChosenIgnoresAmountAndMcc(providers: seq<CliProvider>, a: RouteRequest, b: RouteRequest)
    requires a.currency == b.currency && a.country == b.country
    ensures ChosenProvider(providers, a) == ChosenProvider(providers, b)
  {
  }

  /** When some provider serves the request, the choice is the serving provider of
      least risk, the first such in list order; when none serves, it is the
      provider of least risk, the first such, among all providers. */
  lemma ChosenLeastRisk(providers: seq<CliProvider>, req: RouteRequest)
    ensures var r := ChosenProvider(providers, req);
      (exists p :: p in providers && Serves(p, req.currency, req.country)) ==>
        r.Some? && Serves(r.value, req.currency, req.country) &&
        exists k :: (0 <= k < |providers| && providers[k] == r.value &&
          (forall j :: 0 <= j < |providers| && Serves(providers[j], req.currency, req.country) ==>
             r.value.riskScore <= providers[j].riskScore) &&
          (forall j :: 0 <= j < k && Serves(providers[j], req.currency, req.country) ==>
             providers[j].riskScore > r.value.riskScore))
    ensures var r := ChosenProvider(providers, req);
      (providers != [] && forall p :: p in providers ==> !Serves(p, req.currency, req.country)) ==>
        r.Some? &&
        exists k :: (0 <= k < |providers| && providers[k] == r.value &&
          (forall j :: 0 <= j < |providers| ==> r.value.riskScore <= providers[j].riskScore) &&
          (forall j :: 0 <= j < k ==> providers[j].riskScore > r.value.riskScore))
  {
    if exists p :: p in providers && Serves(p, req.currency, req.country) {
      ChosenServingLeast(providers, req);
    } else if providers != [] {
      assert providers[0] in providers;
    }
  }

  lemma ChosenServingLeast(providers: seq<CliProvider>, req: RouteRequest)
    requires exists p :: p in providers && Serves(p, req.currency, req.country)
    ensures var r := ChosenProvider(providers, req);
      r.Some? && Serves(r.value, req.currency, req.country) &&
      exists k :: (0 <= k < |providers| && providers[k] == r.value &&
        (forall j :: 0 <= j < |providers| && Serves(providers[j], req.currency, req.country) ==>
           r.value.riskScore <= providers[j].riskScore) &&
        (forall j :: 0 <= j < k && Serves(providers[j], req.currency, req.country) ==>
           providers[j].riskScore > r.value.riskScore))
  {
    var r := ChosenProvider(providers, req);
    var s := Serving(providers, req.currency, req.country);
    assert CandidatesFor(providers, req) == s;
    var i :| 0 <= i < |s| && s[i] == r.value && forall j :: 0 <= j < i ==> s[j].riskScore > r.value.riskScore;
    ServingEarliest(providers, req.currency, req.country, i);
    assert forall j :: 0 <= j < |providers| && Serves(providers[j], req.currency, req.country) ==> providers[j] in s;
  }

  /** When the `i`-th serving provider has less risk than every serving provider
      before it, so does it against every serving provider listed before it. */
  lemma ServingEarliest(providers: seq<CliProvider>, currency: string, country: string, i: nat)
    requires i < |Serving(providers, currency, country)|
    requires var s := Serving(providers, currency, country);
      forall j :: 0 <= j < i ==> s[j].riskScore > s[i].riskScore
    ensures var s := Serving(providers, currency, country);
      exists k :: (0 <= k < |providers| && providers[k] == s[i] &&
        forall j :: 0 <= j < k && Serves(providers[j], currency, country) ==> providers[j].riskScore > s[i].riskScore)
  {
    var s := Serving(providers, currency, country);
    var k := ServingIndex(providers, currency, country, i);
    forall j | 0 <= j < k && Serves(providers[j], currency, country)
      ensures providers[j].riskScore > s[i].riskScore
    {
      assert providers[..k][j] == providers[j];
      assert providers[j] in Serving(providers[..k], currency, country);
      var jj :| 0 <= jj < i && s[..i][jj] == providers[j];
    }
  }

  /** A provider serving the request beats every provider that does not. */
  lemma {:induction false} ServingPreferred(providers: seq<CliProvider>, req: RouteRequest, p: CliProvider)
    requires p in providers && req.currency in p.currencies && req.country in p.countries
    ensures var r := ChosenProvider(providers, req);
      r.Some? && req.currency in r.value.currencies && req.country in r.value.countries
  {
    assert p in Serving(providers, req.currency, req.country);
  }

  class RoutingCli {
    var providers: seq<CliProvider>

    constructor (loaded: seq<CliProvider>)
      ensures providers == loaded
    {
      providers := loaded;
    }

    /** `chooseProvider(req)`: filters, falls back to the shared list itself when
        nothing serves the request, sorts the candidates by ascending risk in place
        and returns the first. Only in the fallback case is `providers` reordered,
        and then to its stable sort. */
    method ChooseProvider(req: RouteRequest) returns (r: Option<CliProvider>)
      modifies this
      ensures r == ChosenProvider(old(providers), req)
      ensures providers == (if Serving(old(providers), req.currency, req.country) == []
                            then SortWith(old(providers), ByRiskAsc) else old(providers))
    {
      var candidates := Serving(providers, req.currency, req.country);
      if |candidates| == 0 {
        providers := SortWith(providers, ByRiskAsc);
        candidates := providers;
      } else {
        candidates := SortWith(candidates, ByRiskAsc);
      }
      r := if |candidates| > 0 then Some(candidates[0]) else None;
    }
  }

  /** The fallback sort only reorders the shared list: the same providers, each as
      often as before, and those with equal risk in their old order. */
  lemma FallbackSortPermutes(providers: seq<CliProvider>, c: CliProvider)
    ensures multiset(SortWith(providers, ByRiskAsc)) == multiset(providers)
    ensures ClassOf(SortWith(providers, ByRiskAsc), c, ByRiskAsc) == ClassOf(providers, c, ByRiskAsc)
  {
    SortStable(providers, c, ByRiskAsc);
  }
}
