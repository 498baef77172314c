/** The gateway's configuration records and the checks a snapshot must pass before it is used. */
module Config {
  import opened Common

  datatype ProviderEndpoint = ProviderEndpoint(
    wire: string, vendor: string, url: string, dataResidency: string, trustTier: string, streaming: bool)

  datatype PoolMember = PoolMember(endpointId: string, model: string, weight: int)

  datatype Pool = Pool(members: seq<PoolMember>, maxAttempts: int, timeoutMs: int)

  datatype PoolsConfig = PoolsConfig(endpoints: map<string, ProviderEndpoint>, pools: map<string, Pool>)

  datatype Capabilities = Capabilities(tools: bool, cacheControl: bool, extendedThinking: bool, vision: bool)

  /** Prices are per 1000 tokens, as exact reals. */
  datatype ModelPricing = ModelPricing(
    vendor: string, model: string, currency: string,
    inputPrice: real, outputPrice: real,
    cacheReadPrice: Option<real>, cacheCreatePrice: Option<real>,
    capabilities: Capabilities)

  datatype PricingConfig = PricingConfig(models: seq<ModelPricing>)

  datatype ActionSpec = ActionSpec(action: string, modelPool: string, reasons: seq<string>)

  /** `guard` is the CEL text of the rule's `when`. */
  datatype PolicyRule = PolicyRule(
    id: string, priority: int, guard: string, action: string, modelPool: string, reasons: seq<string>)

  datatype PolicyConfig = PolicyConfig(
    version: string, onNoMatch: ActionSpec, allowedCapabilities: seq<string>, rules: seq<PolicyRule>)

  // ---------------------------------------------------------------------- pools

  predicate MemberValid(m: PoolMember, endpoints: map<string, ProviderEndpoint>) {
    m.endpointId in endpoints && m.weight > 0
  }

  predicate PoolValid(p: Pool, endpoints: map<string, ProviderEndpoint>) {
    && |p.members| > 0
    && (forall i | 0 <= i < |p.members| :: MemberValid(p.members[i], endpoints))
    && p.timeoutMs > 0
    && p.maxAttempts > 0
  }

  predicate PoolsValid(c: PoolsConfig) {
    && |c.endpoints| > 0
    && forall name | name in c.pools :: PoolValid(c.pools[name], c.endpoints)
  }

  // --------------------------------------------------------------------- policy

  predicate P0Action(action: string) { action == "route" || action == "allow" }

  predicate ActionValid(action: string, pool: string) {
    P0Action(action) && !(action == "route" && pool == "")
  }

  predicate Degradable(capability: string) {
    capability == "cache_control" || capability == "extended_thinking"
  }

  predicate RuleValid(r: PolicyRule, compiles: string -> bool) {
    "P-" <= r.id && r.guard != "" && ActionValid(r.action, r.modelPool) && compiles(r.guard)
  }

  predicate PolicyValid(c: PolicyConfig, compiles: string -> bool) {
    && c.version != ""
    && ActionValid(c.onNoMatch.action, c.onNoMatch.modelPool)
    && (forall cap | cap in c.allowedCapabilities :: Degradable(cap))
    && (forall r | r in c.rules :: RuleValid(r, compiles))
  }

  /** The pools a policy names in a route action. */
  ghost predicate References(c: PolicyConfig, pool: string) {
    pool != "" &&
    ((c.onNoMatch.action == "route" && c.onNoMatch.modelPool == pool) ||
     exists r :: r in c.rules && r.action == "route" && r.modelPool == pool)
  }

  /** The cross-file check: collects every referenced pool that is not declared. */
  method MissingPools(policy: PolicyConfig, pools: PoolsConfig) returns (missing: set<string>)
    ensures forall p :: p in missing <==> References(policy, p) && p !in pools.pools
  {
    missing := {};
    if policy.onNoMatch.action == "route" {
      var mp := policy.onNoMatch.modelPool;
      if mp != "" && mp !in pools.pools { missing := missing + {mp}; }
    }
    ghost var base := missing;
    for i := 0 to |policy.rules|
      invariant forall p :: p in missing <==>
                  p in base || (p != "" && p !in pools.pools &&
                                exists k :: 0 <= k < i && policy.rules[k].action == "route" && policy.rules[k].modelPool == p)
    {
      var r := policy.rules[i];
      if r.action == "route" && r.modelPool != "" && r.modelPool !in pools.pools {
        missing := missing + {r.modelPool};
      }
    }
  }

  /** A snapshot the loader accepts: each file valid, and no referenced pool missing. */
  ghost predicate SnapshotValid(policy: PolicyConfig, pools: PoolsConfig, compiles: string -> bool) {
    && PolicyValid(policy, compiles)
    && PoolsValid(pools)
    && forall p :: References(policy, p) ==> p in pools.pools
  }

  // -------------------------------------------------------------------- pricing

  function Lookup(models: seq<ModelPricing>, vendor: string, model: string): (r: Option<ModelPricing>)
    ensures r.Some? ==> r.value in models && r.value.vendor == vendor && r.value.model == model
    ensures r.None? ==> forall m | m in models :: !(m.vendor == vendor && m.model == model)
  {
    if models == [] then None
    else if models[0].vendor == vendor && models[0].model == model then Some(models[0])
    else Lookup(models[1..], vendor, model)
  }

  function PricingKey(m: ModelPricing): string { m.vendor + ":" + m.model }

  predicate NonNegative(price: Option<real>) { price.Some? ==> price.value >= 0.0 }

  predicate RowValid(m: ModelPricing) {
    && m.vendor != "" && m.model != ""
    && m.inputPrice >= 0.0 && m.outputPrice >= 0.0
    && (m.currency == "" || |m.currency| == 3)
    && (m.capabilities.cacheControl ==> m.cacheReadPrice.Some? && m.cacheCreatePrice.Some?)
    && NonNegative(m.cacheReadPrice) && NonNegative(m.cacheCreatePrice)
  }

  predicate KeysDistinctTo(models: seq<ModelPricing>, n: nat)
    requires n <= |models|
  {
    forall i, j | 0 <= i < j < n :: PricingKey(models[i]) != PricingKey(models[j])
  }

  predicate KeysDistinct(models: seq<ModelPricing>) { KeysDistinctTo(models, |models|) }

  lemma {:induction false} KeysDistinctNext(models: seq<ModelPricing>, n: nat, seen: set<string>)
    requires n < |models| && KeysDistinctTo(models, n)
    requires forall k | 0 <= k < n :: PricingKey(models[k]) in seen
    requires PricingKey(models[n]) !in seen
    ensures KeysDistinctTo(models, n + 1)
  {
  }

  predicate PricingValid(c: PricingConfig) {
    && |c.models| > 0
    && (forall i | 0 <= i < |c.models| :: RowValid(c.models[i]))
    && KeysDistinct(c.models)
  }

  /** The loader's pricing check: row by row, remembering the keys already seen. */
  method ValidatePricing(c: PricingConfig) returns (ok: bool)
    ensures ok <==> PricingValid(c)
  {
    if |c.models| == 0 { return false; }
    var seen: set<string> := {};
    for i := 0 to |c.models|
      invariant forall k | 0 <= k < i :: RowValid(c.models[k])
      invariant forall k | 0 <= k < i :: PricingKey(c.models[k]) in seen
      invariant forall s | s in seen :: exists k :: 0 <= k < i && PricingKey(c.models[k]) == s
      invariant KeysDistinctTo(c.models, i)
    {
      var m := c.models[i];
      if !RowValid(m) { return false; }
      if PricingKey(m) in seen {
        ghost var k :| 0 <= k < i && PricingKey(c.models[k]) == PricingKey(m);
        return false;
      }
      KeysDistinctNext(c.models, i, seen);
      seen := seen + {PricingKey(m)};
    }
    return true;
  }

  /** In an accepted table the row a lookup finds is the only row for that vendor and model. */
  lemma {:induction false} LookupUnique(models: seq<ModelPricing>, i: nat)
    requires KeysDistinct(models) && i < |models|
    ensures Lookup(models, models[i].vendor, models[i].model) == Some(models[i])
  {
    if i > 0 {
      assert PricingKey(models[0]) != PricingKey(models[i]);
      assert models[1..][i - 1] == models[i];
      assert KeysDistinct(models[1..]) by {
        forall a, b | 0 <= a < b < |models[1..]| ensures PricingKey(models[1..][a]) != PricingKey(models[1..][b]) {
          assert PricingKey(models[a + 1]) != PricingKey(models[b + 1]);
        }
      }
      LookupUnique(models[1..], i - 1);
    }
  }
}
