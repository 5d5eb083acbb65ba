/** Chain settlement: chain selection (src/chain/router/router.js), the bridge
    fallback (src/chain/bridge/fallback.js) and settlement with exactly one retry
    (src/chain/core/multichain-core.js, with the transaction record of
    src/chain/builder/tx-builder.js folded in). The gas probe is the parameter
    `gasOf`, the executor the parameter `execute` (given the transaction and the
    number of the call), and the clock that stamps each nonce the parameter
    `clock` (given the number of the call). */
module Chain {
  /** `policy.rules` of a chain policy. */
  datatype ChainPolicy = ChainPolicy(highRiskCountry: string, lowFeePreferred: string, fallbackChain: string)

  /** The payment fields settlement reads. */
  datatype ChainPayload = ChainPayload(countryRisk: int, source: string, destination: string, amount: int)

  datatype Tx = Tx(chain: string, from: string, to: string, amount: int, nonce: int)

  /** What the executor reports; only `status` is read. */
  datatype SettlementResult = SettlementResult(status: string, details: map<string, string>)

  const Submitted := "submitted"

  /** `chooseChain(payload, registry, policy)`: the high-risk chain above country
      risk 70, else the low-fee chain when its probed gas is below 20, else the
      fallback chain. */
  function ChooseChain(payload: ChainPayload, policy: ChainPolicy, gasOf: string -> int): (r: string)
    ensures r == policy.highRiskCountry || r == policy.lowFeePreferred || r == policy.fallbackChain
    ensures payload.countryRisk > 70 ==> r == policy.highRiskCountry
    ensures payload.countryRisk <= 70 && gasOf(policy.lowFeePreferred) < 20 ==> r == policy.lowFeePreferred
    ensures payload.countryRisk <= 70 && gasOf(policy.lowFeePreferred) >= 20 ==> r == policy.fallbackChain
  {
    if payload.countryRisk > 70 then policy.highRiskCountry
    else
      var preferred := policy.lowFeePreferred;
      if gasOf(preferred) < 20 then preferred else policy.fallbackChain
  }

  /** Above country risk 70 the fee probe does not matter, and only the probe of the
      low-fee chain ever does. */
  lemma ChooseChainProbe(payload: ChainPayload, policy: ChainPolicy, g1: string -> int, g2: string -> int)
    requires payload.countryRisk > 70 || g1(policy.lowFeePreferred) == g2(policy.lowFeePreferred)
    ensures ChooseChain(payload, policy, g1) == ChooseChain(payload, policy, g2)
  {
  }

  /** `bridgeFallback(chain, policy)`: solana bridges to ethereum, whatever the
      policy; every other chain to the policy's fallback chain. */
  function BridgeFallback(chain: string, policy: ChainPolicy): (r: string)
    ensures chain == "solana" ==> r == "ethereum"
    ensures chain != "solana" ==> r == policy.fallbackChain
  {
    if chain == "solana" then "ethereum" else policy.fallbackChain
  }

  /** Bridging settles after one step: a bridged chain other than solana bridges to
      the fallback chain, which bridges to itself, so the fallback may be the chain
      that just failed. */
  lemma BridgeFallbackSettles(chain: string, policy: ChainPolicy)
    requires policy.fallbackChain != "solana"
    ensures BridgeFallback(BridgeFallback(chain, policy), policy) == policy.fallbackChain
    ensures BridgeFallback(policy.fallbackChain, policy) == policy.fallbackChain
  {
  }

  /** `buildTx(chain, payload)` stamped with nonce `nonce`. */
  function BuildTx(chain: string, payload: ChainPayload, nonce: int): Tx {
    Tx(chain, payload.source, payload.destination, payload.amount, nonce)
  }

  class MultiChainSettlement {
    const policy: ChainPolicy

    constructor (policy: ChainPolicy)
      ensures this.policy == policy
    {
      this.policy := policy;
    }

    /** `settle(payload)`: submits on the chosen chain; unless that submission
        reports "submitted", submits once more on the bridge fallback of that
        chain, and returns the last result whatever its status. `sent` lists the
        transactions handed to the executor, in order. */
    method Settle(payload: ChainPayload, gasOf: string -> int, clock: nat -> int,
                  execute: (Tx, nat) -> SettlementResult) returns (result: SettlementResult, sent: seq<Tx>)
      ensures 1 <= |sent| <= 2
      ensures sent[0] == BuildTx(ChooseChain(payload, policy, gasOf), payload, clock(0))
      ensures |sent| == 1 <==> execute(sent[0], 0).status == Submitted
      ensures |sent| == 2 ==> sent[1] == BuildTx(BridgeFallback(sent[0].chain, policy), payload, clock(1))
      ensures result == execute(sent[|sent| - 1], |sent| - 1)
      ensures forall i :: 0 <= i < |sent| ==>
        sent[i].from == payload.source && sent[i].to == payload.destination && sent[i].amount == payload.amount
    {
      var chain := ChooseChain(payload, policy, gasOf);
      var tx := BuildTx(chain, payload, clock(0));
      sent := [tx];
      result := execute(tx, 0);
      if result.status != Submitted {
        chain := BridgeFallback(chain, policy);
        tx := BuildTx(chain, payload, clock(1));
        sent := sent + [tx];
        result := execute(tx, 1);
      }
    }
  }
}
