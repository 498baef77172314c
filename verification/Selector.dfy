/** The selector itself: chains for live requests, replay of recorded ones, and what validation buys. */
module Selector {
  import opened Common
  import opened Config
  import opened Decisions
  import opened Routing
  import opened Shuffling
  import Engine

  /** `NilDecision` and `EmptySeed` are the two inputs on which the code panics. */
  datatype Outcome = Chain(members: seq<Member>) | PoolNotFound | NoCandidate | NilDecision | EmptySeed

  function Keep(dec: Option<Decision>, pricing: Option<PricingConfig>): Member -> bool {
    (m: Member) => Satisfies(m, dec, pricing)
  }

  ghost function ReplayOf(cfg: PoolsConfig, gen: Generator, pool: string, seed: seq<Byte>): Outcome {
    if pool !in cfg.pools then PoolNotFound
    else
      var ms := Candidates(cfg.pools[pool].members, cfg.endpoints);
      if ms == [] then NoCandidate
      else if seed == [] then EmptySeed
      else Chain(Chained(ms, gen, ExpandedSeed(seed)))
  }

  /** Everything chain building depends on besides the request. */
  datatype Setup = Setup(pools: PoolsConfig, pricing: Option<PricingConfig>, digest: Digest, gen: Generator)
  {
    function Registered(pool: string): seq<Member>
      requires pool in pools.pools
    {
      Candidates(pools.pools[pool].members, pools.endpoints)
    }

    function Qualified(pool: string, dec: Option<Decision>): seq<Member>
      requires pool in pools.pools
    {
      Filter(Registered(pool), Keep(dec, pricing))
    }

    ghost function Built(pool: string, dec: Option<Decision>, traceId: string, attemptNo: int): Outcome {
      if pool !in pools.pools then PoolNotFound
      else if Qualified(pool, dec) == [] then (if dec.None? then NilDecision else NoCandidate)
      else Chain(Chained(Qualified(pool, dec), gen, ExpandedSeed(SeedBytes(digest, traceId, pool, attemptNo))))
    }

    ghost function Replayed(pool: string, seed: seq<Byte>): Outcome { ReplayOf(pools, gen, pool, seed) }
  }

  class RouteSelector {
    var registry: map<string, ProviderEndpoint>
    var pools: map<string, Pool>
    var pricing: Option<PricingConfig>
    const digest: Digest
    const gen: Generator

    constructor (cfg: PoolsConfig, pricing: Option<PricingConfig>, digest: Digest, gen: Generator)
      ensures Now() == Setup(cfg, pricing, digest, gen)
    {
      this.registry, this.pools, this.pricing := cfg.endpoints, cfg.pools, pricing;
      this.digest, this.gen := digest, gen;
    }

    ghost function Now(): Setup
      reads this
    {
      Setup(PoolsConfig(registry, pools), pricing, digest, gen)
    }

    method SetPools(cfg: PoolsConfig)
      modifies this
      ensures Now() == old(Now()).(pools := cfg)
    {
      registry := cfg.endpoints;
      pools := cfg.pools;
    }

    method SetPricing(p: Option<PricingConfig>)
      modifies this
      ensures Now() == old(Now()).(pricing := p)
    {
      pricing := p;
    }

    method BuildChain(poolName: string, dec: Option<Decision>, traceId: string, attemptNo: int) returns (r: Outcome)
      ensures r == Now().Built(poolName, dec, traceId, attemptNo)
    {
      if poolName !in pools { return PoolNotFound; }
      var candidates := CollectCandidates(pools[poolName].members, registry);
      var buf := new Member[|candidates|](i requires 0 <= i < |candidates| => candidates[i]);
      assert buf[..] == candidates;
      var k := Compact(buf, Keep(dec, pricing));
      candidates := buf[..k];
      if |candidates| == 0 {
        return if dec.None? then NilDecision else NoCandidate;
      }
      var seed := ExpandSeed(SeedBytes(digest, traceId, poolName, attemptNo));
      var chain := WeightedChain(candidates, gen, seed);
      return Chain(chain);
    }
  }

  /** Rebuilds a chain from a routing event row, a registry and pools; no constraint filter. */
  method Replay(poolSelected: string, seed: seq<Byte>, cfg: PoolsConfig, gen: Generator) returns (r: Outcome)
    ensures r == ReplayOf(cfg, gen, poolSelected, seed)
  {
    if poolSelected !in cfg.pools { return PoolNotFound; }
    var candidates := CollectCandidates(cfg.pools[poolSelected].members, cfg.endpoints);
    if |candidates| == 0 { return NoCandidate; }
    if seed == [] { return EmptySeed; }
    var full := ExpandSeed(seed);
    var chain := WeightedChain(candidates, gen, full);
    return Chain(chain);
  }

  // ---------------------------------------------------------- what a chain contains

  /** The tiers that are at least as trusted as the one required; an unknown one demands nothing. */
  predicate TrustedEnough(tier: string, required: string) {
    && (required == "private" ==> tier == "private")
    && (required == "partner" ==> tier == "private" || tier == "partner")
    && (required == "vendor" ==> tier == "private" || tier == "partner" || tier == "vendor")
  }

  predicate Flagged(c: Capabilities, capability: string) {
    || (capability == "tools" && c.tools)
    || (capability == "cache_control" && c.cacheControl)
    || (capability == "extended_thinking" && c.extendedThinking)
    || (capability == "vision" && c.vision)
  }

  /** The capability is the endpoint's streaming flag, or the flag of that name in the model's pricing row. */
  ghost predicate Offers(ep: ProviderEndpoint, model: string, capability: string, pricing: Option<PricingConfig>) {
    || (capability == "streaming" && ep.streaming)
    || (pricing.Some? && exists row ::
          Lookup(pricing.value.models, ep.vendor, model) == Some(row) && Flagged(row.capabilities, capability))
  }

  /** Endpoint and model meet the decision's demands on trust, residency and capabilities. */
  ghost predicate Meets(ep: ProviderEndpoint, model: string, dec: Option<Decision>, pricing: Option<PricingConfig>) {
    dec.Some? ==>
      && TrustedEnough(ep.trustTier, dec.value.requiredTrustTier)
      && (dec.value.requiredDataResidency == [] || ep.dataResidency in dec.value.requiredDataResidency)
      && forall cap | cap in dec.value.requiredCapabilities :: Offers(ep, model, cap, pricing)
  }

  /** Pool member pm stands in the pool, is registered and meets the decision's demands. */
  ghost predicate Eligible(s: Setup, pool: string, dec: Option<Decision>, pm: PoolMember) {
    && pool in s.pools.pools && pm in s.pools.pools[pool].members && pm.endpointId in s.pools.endpoints
    && Meets(s.pools.endpoints[pm.endpointId], pm.model, dec, s.pricing)
  }

  /** m names the pool member's endpoint, model and weight; all the rest is the endpoint's own. */
  predicate Describes(m: Member, pm: PoolMember, ep: ProviderEndpoint) {
    && m.endpointId == pm.endpointId && m.model == pm.model && m.weight == pm.weight
    && m.wire == ep.wire && m.vendorId == ep.vendor && m.url == ep.url && m.trustTier == ep.trustTier
    && m.dataResidency == ep.dataResidency && m.streaming == ep.streaming
    && (m.isPrivate <==> ep.trustTier == "private")
  }

  lemma {:induction false} CandidateDescribes(m: Member, pm: PoolMember, ep: ProviderEndpoint)
    ensures m == Candidate(pm, ep) <==> Describes(m, pm, ep)
  {
  }

  lemma {:induction false} SupportsIff(m: Member, pm: PoolMember, ep: ProviderEndpoint, capability: string, pricing: Option<PricingConfig>)
    requires Describes(m, pm, ep)
    ensures Supports(m, capability, pricing) <==> Offers(ep, pm.model, capability, pricing)
  {
    assert capability == "streaming" ==>
             capability != "tools" && capability != "cache_control" && capability != "extended_thinking" && capability != "vision" by {
      assert |"streaming"| == 9;
    }
  }

  lemma {:induction false} SatisfiesIff(m: Member, pm: PoolMember, ep: ProviderEndpoint, dec: Option<Decision>, pricing: Option<PricingConfig>)
    requires Describes(m, pm, ep)
    ensures Satisfies(m, dec, pricing) <==> Meets(ep, pm.model, dec, pricing)
  {
    if dec.Some? {
      forall cap ensures Supports(m, cap, pricing) <==> Offers(ep, pm.model, cap, pricing) {
        SupportsIff(m, pm, ep, cap, pricing);
      }
    }
  }

  lemma {:induction false} CandidateOrigin(members: seq<PoolMember>, registry: map<string, ProviderEndpoint>, m: Member)
    ensures m in Candidates(members, registry) <==>
            exists pm :: pm in members && pm.endpointId in registry && Describes(m, pm, registry[pm.endpointId])
    decreases |members|
  {
    if members != [] {
      var n := |members| - 1;
      CandidateOrigin(members[..n], registry, m);
      forall pm ensures pm in members <==> pm in members[..n] || pm == members[n] { Engine.InInit(members, pm); }
      if members[n].endpointId in registry { CandidateDescribes(m, members[n], registry[members[n].endpointId]); }
    }
  }

  /** m stands for some eligible pool member, with the attributes of its endpoint. */
  ghost predicate FromEligible(s: Setup, pool: string, dec: Option<Decision>, m: Member) {
    exists pm :: Eligible(s, pool, dec, pm) && Describes(m, pm, s.pools.endpoints[pm.endpointId])
  }

  lemma {:induction false} QualifiedOrigin(s: Setup, pool: string, dec: Option<Decision>, m: Member)
    requires pool in s.pools.pools
    ensures m in s.Qualified(pool, dec) <==> FromEligible(s, pool, dec, m)
  {
    CandidateOrigin(s.pools.pools[pool].members, s.pools.endpoints, m);
    FilterMember(s.Registered(pool), Keep(dec, s.pricing), m);
    forall pm: PoolMember | pm.endpointId in s.pools.endpoints && Describes(m, pm, s.pools.endpoints[pm.endpointId])
      ensures Satisfies(m, dec, s.pricing) <==> Meets(s.pools.endpoints[pm.endpointId], pm.model, dec, s.pricing)
    {
      SatisfiesIff(m, pm, s.pools.endpoints[pm.endpointId], dec, s.pricing);
    }
  }

  /**
   Chain correctness for every pool, validated or not. A chain is returned iff some member is
   eligible; it names each endpoint at most once, covers exactly the endpoints of the eligible
   members with positive weight, and every member in it is an eligible pool member with the
   attributes of its endpoint.
   */
  lemma {:induction false} BuiltContents(s: Setup, pool: string, dec: Option<Decision>, traceId: string, attemptNo: int)
    ensures var r := s.Built(pool, dec, traceId, attemptNo);
            && (r == PoolNotFound <==> pool !in s.pools.pools)
            && (r.Chain? <==> exists pm :: Eligible(s, pool, dec, pm))
            && (pool in s.pools.pools && !r.Chain? ==> r == if dec.Some? then NoCandidate else NilDecision)
            && (r.Chain? ==>
                  && EndpointsDistinct(r.members)
                  && (forall m | m in r.members :: m.weight > 0 && FromEligible(s, pool, dec, m))
                  && (forall e :: e in Endpoints(r.members) <==>
                        exists pm :: Eligible(s, pool, dec, pm) && pm.weight > 0 && pm.endpointId == e)
                  && (r.members != [] <==> exists pm :: Eligible(s, pool, dec, pm) && pm.weight > 0))
  {
    hide FromEligible, Eligible, Chained, Describes;
    if pool !in s.pools.pools { NoneEligible(s, pool, dec); return; }
    var q := s.Qualified(pool, dec);
    forall m ensures m in q <==> FromEligible(s, pool, dec, m) { QualifiedOrigin(s, pool, dec, m); }
    NonEmptyOrigin(s, pool, dec, q);
    if q != [] {
      ChainContents(s, pool, dec, q, ExpandedSeed(SeedBytes(s.digest, traceId, pool, attemptNo)));
    }
  }

  lemma {:induction false} NoneEligible(s: Setup, pool: string, dec: Option<Decision>)
    requires pool !in s.pools.pools
    ensures !exists pm :: Eligible(s, pool, dec, pm)
  {
  }

  lemma {:induction false} NonEmptyOrigin(s: Setup, pool: string, dec: Option<Decision>, q: seq<Member>)
    requires forall m :: m in q <==> FromEligible(s, pool, dec, m)
    ensures q != [] <==> exists pm :: Eligible(s, pool, dec, pm)
  {
    if q != [] { assert q[0] in q; }
    if pm :| Eligible(s, pool, dec, pm) {
      CandidateDescribes(Candidate(pm, s.pools.endpoints[pm.endpointId]), pm, s.pools.endpoints[pm.endpointId]);
      assert Candidate(pm, s.pools.endpoints[pm.endpointId]) in q;
    }
  }

  /** Some member of q with positive weight has endpoint e. */
  ghost predicate Weighs(q: seq<Member>, e: string) {
    exists m :: m in q && m.weight > 0 && m.endpointId == e
  }

  lemma {:induction false} ChainContents(s: Setup, pool: string, dec: Option<Decision>, q: seq<Member>, seed: seq<Byte>)
    requires forall m :: m in q <==> FromEligible(s, pool, dec, m)
    ensures var chain := Chained(q, s.gen, seed);
            && EndpointsDistinct(chain)
            && (forall m | m in chain :: m.weight > 0 && FromEligible(s, pool, dec, m))
            && (forall e :: e in Endpoints(chain) <==>
                  exists pm :: Eligible(s, pool, dec, pm) && pm.weight > 0 && pm.endpointId == e)
            && (chain != [] <==> exists pm :: Eligible(s, pool, dec, pm) && pm.weight > 0)
  {
    ChainedContents(q, s.gen, seed);
    var chain := Chained(q, s.gen, seed);
    forall e ensures e in Endpoints(chain) <==>
                     exists pm :: Eligible(s, pool, dec, pm) && pm.weight > 0 && pm.endpointId == e
    {
      WeightedOrigin(s, pool, dec, q, e);
    }
    if chain != [] {
      assert chain[0].endpointId in Endpoints(chain);
    }
    if pm :| Eligible(s, pool, dec, pm) && pm.weight > 0 {
      assert pm.endpointId in Endpoints(chain);
    }
  }

  lemma {:induction false} WeightedOrigin(s: Setup, pool: string, dec: Option<Decision>, q: seq<Member>, e: string)
    requires forall m :: m in q <==> FromEligible(s, pool, dec, m)
    ensures Weighs(q, e) <==>
            (exists pm :: Eligible(s, pool, dec, pm) && pm.weight > 0 && pm.endpointId == e)
  {
    if pm :| Eligible(s, pool, dec, pm) && pm.weight > 0 && pm.endpointId == e {
      CandidateDescribes(Candidate(pm, s.pools.endpoints[pm.endpointId]), pm, s.pools.endpoints[pm.endpointId]);
      assert Candidate(pm, s.pools.endpoints[pm.endpointId]) in q;
    }
  }

  /** Every member of a chain has each capability its decision requires, by its own flag or its pricing row. */
  lemma {:induction false} ChainOffers(s: Setup, pool: string, dec: Decision, traceId: string, attemptNo: int, m: Member, cap: string)
    requires s.Built(pool, Some(dec), traceId, attemptNo).Chain? && m in s.Built(pool, Some(dec), traceId, attemptNo).members
    requires cap in dec.requiredCapabilities
    ensures (cap == "streaming" && m.streaming) ||
            (s.pricing.Some? && exists row ::
               Lookup(s.pricing.value.models, m.vendorId, m.model) == Some(row) && Flagged(row.capabilities, cap))
  {
    BuiltContents(s, pool, Some(dec), traceId, attemptNo);
    assert FromEligible(s, pool, Some(dec), m);
    hide Flagged, Lookup;
    var pm :| Eligible(s, pool, Some(dec), pm) && Describes(m, pm, s.pools.endpoints[pm.endpointId]);
    assert Offers(s.pools.endpoints[pm.endpointId], pm.model, cap, s.pricing);
  }

  /** m stands for some member of the pool whose endpoint is registered, with that endpoint's attributes. */
  ghost predicate FromPool(cfg: PoolsConfig, pool: string, m: Member)
    requires pool in cfg.pools
  {
    exists pm :: pm in cfg.pools[pool].members && pm.endpointId in cfg.endpoints && Describes(m, pm, cfg.endpoints[pm.endpointId])
  }

  /** What a replay returns: each error exactly when its cause is there, else a chain over the registered members. */
  lemma {:induction false} ReplayedContents(cfg: PoolsConfig, gen: Generator, pool: string, seed: seq<Byte>)
    ensures var r := ReplayOf(cfg, gen, pool, seed);
            && (r == PoolNotFound <==> pool !in cfg.pools)
            && (pool in cfg.pools ==>
                  && (r == NoCandidate <==> !exists m :: FromPool(cfg, pool, m))
                  && (r == EmptySeed <==> (exists m :: FromPool(cfg, pool, m)) && seed == [])
                  && (r.Chain? <==> (exists m :: FromPool(cfg, pool, m)) && seed != [])
                  && (r.Chain? ==>
                        && EndpointsDistinct(r.members)
                        && (forall m | m in r.members :: m.weight > 0 && FromPool(cfg, pool, m))
                        && (forall m | FromPool(cfg, pool, m) && m.weight > 0 :: m.endpointId in Endpoints(r.members))))
  {
    if pool !in cfg.pools { return; }
    var ms := Candidates(cfg.pools[pool].members, cfg.endpoints);
    forall m ensures m in ms <==> FromPool(cfg, pool, m) { CandidateOrigin(cfg.pools[pool].members, cfg.endpoints, m); }
    if ms != [] {
      assert FromPool(cfg, pool, ms[0]);
      if seed != [] { ChainedContents(ms, gen, ExpandedSeed(seed)); }
    }
  }

  /** What a pool's configuration gives an endpoint: the positive weights of its registered members. */
  function PoolWeight(members: seq<PoolMember>, registry: map<string, ProviderEndpoint>, e: string): nat {
    if members == [] || e !in registry then 0
    else (if members[0].endpointId == e && members[0].weight > 0 then members[0].weight else 0)
         + PoolWeight(members[1..], registry, e)
  }

  lemma {:induction false} PoolWeightLast(members: seq<PoolMember>, registry: map<string, ProviderEndpoint>, e: string)
    requires members != [] && e in registry
    ensures var n := |members| - 1;
            PoolWeight(members, registry, e) == PoolWeight(members[..n], registry, e)
            + (if members[n].endpointId == e && members[n].weight > 0 then members[n].weight else 0)
    decreases |members|
  {
    var n := |members| - 1;
    if n > 0 {
      PoolWeightLast(members[1..], registry, e);
      assert members[1..][..n - 1] == members[..n][1..];
    }
  }

  /** A pool's candidates carry exactly the weights its configuration gives to registered endpoints. */
  lemma {:induction false} CandidateWeight(members: seq<PoolMember>, registry: map<string, ProviderEndpoint>, e: string)
    ensures WeightOf(Candidates(members, registry), e) == PoolWeight(members, registry, e)
    decreases |members|
  {
    if members != [] {
      var n := |members| - 1;
      CandidateWeight(members[..n], registry, e);
      if members[n].endpointId in registry {
        WeightLast(Candidates(members[..n], registry), Candidate(members[n], registry[members[n].endpointId]), e);
      }
      if e in registry { PoolWeightLast(members, registry, e); }
    }
  }

  lemma {:induction false} WeightLast(ms: seq<Member>, m: Member, e: string)
    ensures WeightOf(ms + [m], e) == WeightOf(ms, e) + (if m.endpointId == e && m.weight > 0 then m.weight else 0)
  {
    assert (ms + [m])[..|ms|] == ms;
  }

  /** In a validated pool every failure means that no member meets the constraints. */
  lemma {:induction false} ValidatedPool(s: Setup, pool: string, dec: Option<Decision>, traceId: string, attemptNo: int)
    requires PoolsValid(s.pools) && pool in s.pools.pools
    ensures var r := s.Built(pool, dec, traceId, attemptNo);
            && (r.Chain? ==> r.members != [])
            && (r.Chain? <==> exists pm :: pm in s.pools.pools[pool].members && Eligible(s, pool, dec, pm))
            && (r.Chain? ==> forall e :: e in Endpoints(r.members) <==>
                               exists pm :: Eligible(s, pool, dec, pm) && pm.endpointId == e)
  {
    BuiltContents(s, pool, dec, traceId, attemptNo);
    forall pm | Eligible(s, pool, dec, pm) ensures pm.weight > 0 {
      var i :| 0 <= i < |s.pools.pools[pool].members| && s.pools.pools[pool].members[i] == pm;
      assert MemberValid(s.pools.pools[pool].members[i], s.pools.endpoints);
    }
  }

  // ------------------------------------------------------------------------ replay

  /** A generator that draws exactly these choices. */
  ghost function Scripted(c: seq<nat>): Generator
    requires IsChoice(c)
  {
    (s: seq<Byte>, h: seq<nat>) => if |h| > 0 && 0 < h[|h| - 1] <= |c| then c[h[|h| - 1] - 1] else 0
  }

  lemma {:induction false} ScriptedDraws(c: seq<nat>, seed: seq<Byte>)
    requires IsChoice(c)
    ensures Drawn(Scripted(c), seed, |c|) == c
  {
    forall i | 0 <= i < |c| ensures Drawn(Scripted(c), seed, |c|)[i] == c[i] {
      if i > 0 {
        var h := Bounds(|c|, i);
        assert h[|h| - 1] == i + 1;
      }
    }
  }

  /** Some choice vector puts any given element first. */
  lemma {:induction false} ChoiceThatLeads(w: seq<Member>, j: nat) returns (c: seq<nat>)
    requires j < |w|
    ensures |c| == |w| && IsChoice(c) && Shuffled(w, c)[0] == w[j]
  {
    var good := (x: Member) => x == w[j];
    PositionCount(w, 0, good);
    CountRest(w, j, good);
    AtLeastOne(Count(w, good), Factorial(|w| - 1));
    c :| c in Favourable(w, 0, good);
  }

  lemma {:induction false} AtLeastOne(a: nat, b: nat)
    requires a > 0 && b > 0
    ensures a * b > 0
  {
  }

  /** A member with positive weight leads the chain under some generator. */
  lemma {:induction false} CanLead(ms: seq<Member>, m: Member, seed: seq<Byte>) returns (gen: Generator)
    requires m in ms && m.weight > 0
    ensures m in Chained(ms, gen, seed)
  {
    var w := Expand(ms);
    ExpandMember(ms, m);
    var j :| 0 <= j < |w| && w[j] == m;
    var c := ChoiceThatLeads(w, j);
    gen := Scripted(c);
    ScriptedDraws(c, seed);
    DedupContents(Shuffled(w, c));
  }

  lemma {:induction false} FilteredWeights(ms: seq<Member>, keep: Member -> bool)
    requires forall m | m in ms && m.weight > 0 :: keep(m)
    ensures Expand(Filter(ms, keep)) == Expand(ms)
    decreases |ms|
  {
    if ms != [] {
      var n := |ms| - 1;
      FilteredWeights(ms[..n], keep);
      assert ms[n] in ms;
      if keep(ms[n]) {
        ExpandLast(Filter(ms[..n], keep), ms[n]);
      } else {
        assert Expand(ms[..n]) + [] == Expand(ms[..n]) && Filter(ms[..n], keep) + [] == Filter(ms[..n], keep);
      }
    }
  }

  lemma {:induction false} ExpandLast(ms: seq<Member>, m: Member)
    ensures Expand(ms + [m]) == Expand(ms) + Repeat(m, m.weight)
  {
    assert (ms + [m])[..|ms|] == ms;
  }

  ghost predicate Faithful(s: Setup, gen: Generator, pool: string, dec: Option<Decision>, traceId: string, attemptNo: int) {
    var t := s.(gen := gen);
    t.Replayed(pool, SeedBytes(t.digest, traceId, pool, attemptNo)) == t.Built(pool, dec, traceId, attemptNo)
  }

  /** Nothing that could have been chosen was dropped, and something was kept. */
  ghost predicate NothingLost(s: Setup, pool: string, dec: Option<Decision>)
    requires pool in s.pools.pools
  {
    && s.Qualified(pool, dec) != []
    && forall m | m in s.Registered(pool) && m.weight > 0 :: Satisfies(m, dec, s.pricing)
  }

  lemma {:induction false} FaithfulWhen(s: Setup, gen: Generator, pool: string, dec: Option<Decision>, traceId: string, attemptNo: int)
    requires pool in s.pools.pools && NothingLost(s, pool, dec)
    ensures Faithful(s, gen, pool, dec, traceId, attemptNo)
  {
    FilteredWeights(s.Registered(pool), Keep(dec, s.pricing));
  }

  lemma {:induction false} Unfaithful(s: Setup, pool: string, dec: Option<Decision>, traceId: string, attemptNo: int, m: Member)
    returns (gen: Generator)
    requires pool in s.pools.pools && m in s.Registered(pool) && m.weight > 0 && !Satisfies(m, dec, s.pricing)
    ensures !Faithful(s, gen, pool, dec, traceId, attemptNo)
  {
    var seed := ExpandedSeed(SeedBytes(s.digest, traceId, pool, attemptNo));
    gen := CanLead(s.Registered(pool), m, seed);
    ChainedContents(s.Qualified(pool, dec), gen, seed);
    FilterMember(s.Registered(pool), Keep(dec, s.pricing), m);
  }

  /** Replay agrees with what was built: the pool is missing, or both fail, or nothing was lost. */
  ghost predicate ReplayAgrees(s: Setup, pool: string, dec: Option<Decision>) {
    || pool !in s.pools.pools
    || (s.Registered(pool) == [] && dec.Some?)
    || NothingLost(s, pool, dec)
  }

  /** With one member per endpoint this decides it for every single seed and generator. */
  lemma {:induction false} ReplayFaithfulIff(s: Setup, pool: string, dec: Option<Decision>, traceId: string, attemptNo: int)
    requires pool in s.pools.pools ==> EndpointsDistinct(s.Registered(pool))
    ensures Faithful(s, s.gen, pool, dec, traceId, attemptNo) <==> ReplayAgrees(s, pool, dec)
  {
    if pool !in s.pools.pools { return; }
    if NothingLost(s, pool, dec) {
      FaithfulWhen(s, s.gen, pool, dec, traceId, attemptNo);
    } else if s.Qualified(pool, dec) == [] {
      KeptNone(s, pool, dec, traceId, attemptNo);
    } else {
      var m :| m in s.Registered(pool) && m.weight > 0 && !Satisfies(m, dec, s.pricing);
      DroppedIsMissing(s, pool, dec, m, ExpandedSeed(SeedBytes(s.digest, traceId, pool, attemptNo)));
    }
  }

  lemma {:induction false} SameEndpoint(ms: seq<Member>, x: Member, y: Member)
    requires EndpointsDistinct(ms) && x in ms && y in ms
    ensures x.endpointId == y.endpointId ==> x == y
  {
    var i :| 0 <= i < |ms| && ms[i] == x;
    var j :| 0 <= j < |ms| && ms[j] == y;
  }

  lemma {:induction false} DroppedIsMissing(s: Setup, pool: string, dec: Option<Decision>, m: Member, seed: seq<Byte>)
    requires pool in s.pools.pools && EndpointsDistinct(s.Registered(pool))
    requires m in s.Registered(pool) && m.weight > 0 && !Satisfies(m, dec, s.pricing)
    ensures Chained(s.Registered(pool), s.gen, seed) != Chained(s.Qualified(pool, dec), s.gen, seed)
  {
    var ms, q := s.Registered(pool), s.Qualified(pool, dec);
    ChainedContents(ms, s.gen, seed);
    ChainedContents(q, s.gen, seed);
    assert m.endpointId in Endpoints(Chained(ms, s.gen, seed));
    forall x | x in q ensures x.endpointId != m.endpointId {
      FilterMember(ms, Keep(dec, s.pricing), x);
      SameEndpoint(ms, x, m);
    }
    assert m.endpointId !in Endpoints(Chained(q, s.gen, seed));
  }

  /**
   Replay reproduces the recorded chain whatever the generator draws iff the pool is missing, or
   nothing in it is registered and there was a decision, or no member that can be chosen was
   dropped by the constraints and some member was kept. Holds for every pool, validated or not.
   */
  lemma {:induction false} ReplayAlwaysFaithfulIff(s: Setup, pool: string, dec: Option<Decision>, traceId: string, attemptNo: int)
    ensures (forall gen: Generator :: Faithful(s, gen, pool, dec, traceId, attemptNo)) <==> ReplayAgrees(s, pool, dec)
  {
    if pool !in s.pools.pools {
      forall gen: Generator ensures Faithful(s, gen, pool, dec, traceId, attemptNo) {
        assert pool !in s.(gen := gen).pools.pools;
      }
    } else if NothingLost(s, pool, dec) {
      forall gen: Generator ensures Faithful(s, gen, pool, dec, traceId, attemptNo) {
        FaithfulWhen(s, gen, pool, dec, traceId, attemptNo);
      }
    } else if s.Qualified(pool, dec) == [] {
      KeptNone(s, pool, dec, traceId, attemptNo);
      assert Faithful(s, s.gen, pool, dec, traceId, attemptNo) <==> s.Registered(pool) == [] && dec.Some?;
    } else {
      var m :| m in s.Registered(pool) && m.weight > 0 && !Satisfies(m, dec, s.pricing);
      var gen := Unfaithful(s, pool, dec, traceId, attemptNo, m);
    }
  }

  lemma {:induction false} KeptNone(s: Setup, pool: string, dec: Option<Decision>, traceId: string, attemptNo: int)
    requires pool in s.pools.pools && s.Qualified(pool, dec) == []
    ensures forall gen: Generator ::
              Faithful(s, gen, pool, dec, traceId, attemptNo) <==> s.Registered(pool) == [] && dec.Some?
  {
    forall gen: Generator
      ensures Faithful(s, gen, pool, dec, traceId, attemptNo) <==> s.Registered(pool) == [] && dec.Some?
    {
      var t := s.(gen := gen);
      assert t.Registered(pool) == s.Registered(pool) && t.Qualified(pool, dec) == s.Qualified(pool, dec);
    }
  }

  // ------------------------------------------------------------------ servability

  /** The pool a request goes to: the decision's, else the default pool. */
  function PoolFor(d: Decision): string { if d.modelPool == "" then "standard" else d.modelPool }

  /** A decision taken under a valid policy routes iff it names a pool, and then a declared one. */
  lemma {:induction false} DecisionNamesPool(policy: PolicyConfig, pools: PoolsConfig, compiles: string -> bool,
                          rules: seq<PolicyRule>, matches: PolicyRule -> bool)
    requires SnapshotValid(policy, pools, compiles) && Engine.SortOf(policy.rules, rules)
    ensures var d := Engine.Decided(rules, policy.onNoMatch, matches);
            && (d.primary == "route" <==> d.modelPool != "")
            && (d.modelPool != "" ==> d.modelPool in pools.pools)
            && d.requiredTrustTier == "" && d.requiredDataResidency == [] && d.requiredCapabilities == []
  {
    Engine.SameRules(policy.rules, rules);
    Engine.FoldedContents(rules, matches);
    if Engine.AnyRoutes(rules, matches) {
      var r :| r in rules && Engine.Routes(r, matches);
      assert RuleValid(r, compiles) && Engine.SetsPool(r, matches);
      var k := Engine.FindLast(rules, matches);
      Engine.LastPoolAt(rules, matches, k);
      assert rules[k] in policy.rules && References(policy, rules[k].modelPool);
    } else {
      Engine.NoPool(rules, matches);
      if policy.onNoMatch.action == "route" { assert References(policy, policy.onNoMatch.modelPool); }
    }
  }

  /** A valid snapshot with one pool, not named standard, and no rules: the default allow finds no pool. */
  lemma {:induction false} NoStandardPool(s: Setup, compiles: string -> bool, matches: PolicyRule -> bool, ep: ProviderEndpoint)
    requires s.pools == PoolsConfig(map["e" := ep], map["strong" := Pool([PoolMember("e", "m", 1)], 1, 1)])
    ensures var policy := PolicyConfig("1", ActionSpec("allow", "", []), [], []);
            var d := Engine.Decided([], policy.onNoMatch, matches);
            SnapshotValid(policy, s.pools, compiles) && s.Built(PoolFor(d), Some(d), "trace", 1) == PoolNotFound
  {
    assert |"strong"| != |"standard"|;
    assert "e" in s.pools.endpoints && |s.pools.endpoints| > 0;
  }

  /**
   Under a validated snapshot, whatever rules match, an unconstrained request gets a non-empty
   chain iff its decision routes or the default pool is declared; otherwise the pool is missing.
   With no matching rule the chain is of the pool on_no_match routes to.
   */
  lemma {:induction false} ValidatedSnapshotServes(s: Setup, policy: PolicyConfig, compiles: string -> bool, rules: seq<PolicyRule>,
                                matches: PolicyRule -> bool, traceId: string, attemptNo: int)
    requires SnapshotValid(policy, s.pools, compiles) && Engine.SortOf(policy.rules, rules)
    ensures var d := Engine.Decided(rules, policy.onNoMatch, matches);
            var r := s.Built(PoolFor(d), Some(d), traceId, attemptNo);
            && (r.Chain? && r.members != [] <==> d.primary == "route" || "standard" in s.pools.pools)
            && (!r.Chain? ==> r == PoolNotFound && d.primary == "allow")
            && (d.primary == "route" <==>
                  if Engine.AnyMatches(rules, matches) then Engine.AnyRoutes(rules, matches) else policy.onNoMatch.action == "route")
            && PoolFor(d) == (if d.primary != "route" then "standard"
                              else if Engine.AnyMatches(rules, matches) then Engine.LastPool(rules, matches)
                              else policy.onNoMatch.modelPool)
  {
    var d := Engine.Decided(rules, policy.onNoMatch, matches);
    var pool := PoolFor(d);
    DecisionNamesPool(policy, s.pools, compiles, rules, matches);
    Engine.DecidedAnswers(rules, policy.onNoMatch, matches);
    Engine.FoldedContents(rules, matches);
    if pool in s.pools.pools {
      var members := s.pools.pools[pool].members;
      assert PoolValid(s.pools.pools[pool], s.pools.endpoints);
      assert MemberValid(members[0], s.pools.endpoints);
      assert Eligible(s, pool, Some(d), members[0]);
      ValidatedPool(s, pool, Some(d), traceId, attemptNo);
    }
  }
}
