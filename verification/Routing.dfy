/** Weighted routing: the candidate chain the selector builds for a request, and its replay. */
module Routing {
  import opened Common
  import opened Config
  import opened Decisions
  import opened Shuffling

  datatype Member = Member(
    endpointId: string, wire: string, vendorId: string, model: string, url: string, trustTier: string,
    dataResidency: string, streaming: bool, isPrivate: bool, weight: int)

  // ------------------------------------------------------------------ candidates

  function Candidate(m: PoolMember, ep: ProviderEndpoint): Member {
    Member(m.endpointId, ep.wire, ep.vendor, m.model, ep.url, ep.trustTier,
           ep.dataResidency, ep.streaming, ep.trustTier == "private", m.weight)
  }

  /** The pool's members whose endpoint is registered, in pool order. */
  function Candidates(members: seq<PoolMember>, registry: map<string, ProviderEndpoint>): seq<Member> {
    if members == [] then []
    else
      var n := |members| - 1;
      var before := Candidates(members[..n], registry);
      var m := members[n];
      if m.endpointId in registry then before + [Candidate(m, registry[m.endpointId])] else before
  }

  method CollectCandidates(members: seq<PoolMember>, registry: map<string, ProviderEndpoint>)
    returns (candidates: seq<Member>)
    ensures candidates == Candidates(members, registry)
  {
    candidates := [];
    for i := 0 to |members|
      invariant candidates == Candidates(members[..i], registry)
    {
      var m := members[i];
      assert members[..i + 1][..i] == members[..i];
      if m.endpointId in registry {
        candidates := candidates + [Candidate(m, registry[m.endpointId])];
      }
    }
    assert members[..|members|] == members;
  }

  // ----------------------------------------------------------------- constraints

  function TrustTierRank(tier: string): nat {
    if tier == "private" then 3 else if tier == "partner" then 2 else if tier == "vendor" then 1 else 0
  }

  /** Streaming comes from the endpoint, the rest from the pricing row; a missing row supports nothing. */
  predicate Supports(m: Member, capability: string, pricing: Option<PricingConfig>) {
    if capability == "streaming" then m.streaming
    else
      var row := if pricing.None? then None else Lookup(pricing.value.models, m.vendorId, m.model);
      row.Some? &&
      ((capability == "tools" && row.value.capabilities.tools) ||
       (capability == "cache_control" && row.value.capabilities.cacheControl) ||
       (capability == "extended_thinking" && row.value.capabilities.extendedThinking) ||
       (capability == "vision" && row.value.capabilities.vision))
  }

  predicate Satisfies(m: Member, dec: Option<Decision>, pricing: Option<PricingConfig>) {
    dec.Some? ==>
      && (dec.value.requiredTrustTier != "" ==>
            TrustTierRank(m.trustTier) >= TrustTierRank(dec.value.requiredTrustTier))
      && (dec.value.requiredDataResidency != [] ==> m.dataResidency in dec.value.requiredDataResidency)
      && forall cap | cap in dec.value.requiredCapabilities :: Supports(m, cap, pricing)
  }

  function Filter(ms: seq<Member>, keep: Member -> bool): seq<Member> {
    if ms == [] then []
    else
      var n := |ms| - 1;
      Filter(ms[..n], keep) + (if keep(ms[n]) then [ms[n]] else [])
  }

  /** Compaction in place: survivors move to the front, in order, over the array being read. */
  method Compact(a: array<Member>, keep: Member -> bool) returns (k: nat)
    modifies a
    ensures k <= a.Length
    ensures a[..k] == Filter(old(a[..]), keep)
  {
    k := 0;
    ghost var was := a[..];
    for i := 0 to a.Length
      invariant k <= i
      invariant a[..k] == Filter(was[..i], keep)
      invariant forall j | i <= j < a.Length :: a[j] == was[j]
    {
      assert was[..i + 1][..i] == was[..i];
      if keep(a[i]) {
        a[k] := a[i];
        k := k + 1;
      }
    }
    assert was[..a.Length] == was;
  }

  lemma {:induction false} FilterMember(ms: seq<Member>, keep: Member -> bool, m: Member)
    ensures m in Filter(ms, keep) <==> m in ms && keep(m)
    decreases |ms|
  {
    if ms != [] {
      var n := |ms| - 1;
      FilterMember(ms[..n], keep, m);
      assert ms == ms[..n] + [ms[n]];
    }
  }

  lemma {:induction false} FilterAll(ms: seq<Member>, keep: Member -> bool)
    ensures Filter(ms, keep) == ms <==> forall m | m in ms :: keep(m)
    decreases |ms|
  {
    if ms != [] {
      var n := |ms| - 1;
      FilterAll(ms[..n], keep);
      FilterShorter(ms[..n], keep);
      assert ms == ms[..n] + [ms[n]];
    }
  }

  lemma {:induction false} FilterShorter(ms: seq<Member>, keep: Member -> bool)
    ensures |Filter(ms, keep)| <= |ms|
    decreases |ms|
  {
    if ms != [] { FilterShorter(ms[..|ms| - 1], keep); }
  }

  // ------------------------------------------------------------------- expansion

  function Repeat(m: Member, k: int): seq<Member> {
    if k <= 0 then [] else Repeat(m, k - 1) + [m]
  }

  /** Each candidate as often as its weight says. */
  function Expand(ms: seq<Member>): seq<Member> {
    if ms == [] then []
    else var n := |ms| - 1; Expand(ms[..n]) + Repeat(ms[n], ms[n].weight)
  }

  method ExpandByWeight(ms: seq<Member>) returns (weighted: seq<Member>)
    ensures weighted == Expand(ms)
  {
    weighted := [];
    for i := 0 to |ms|
      invariant weighted == Expand(ms[..i])
    {
      assert ms[..i + 1][..i] == ms[..i];
      ghost var before := weighted;
      var j := 0;
      while j < ms[i].weight
        invariant 0 <= j && (j > 0 ==> j <= ms[i].weight)
        invariant weighted == before + Repeat(ms[i], j)
      {
        weighted := weighted + [ms[i]];
        j := j + 1;
      }
    }
    assert ms[..|ms|] == ms;
  }

  function WeightOf(ms: seq<Member>, e: string): nat {
    if ms == [] then 0
    else
      var n := |ms| - 1;
      WeightOf(ms[..n], e) + (if ms[n].endpointId == e && ms[n].weight > 0 then ms[n].weight else 0)
  }

  ghost function Named(e: string): Member -> bool { (m: Member) => m.endpointId == e }

  lemma {:induction false} CountConcat<T>(a: seq<T>, b: seq<T>, good: T -> bool)
    ensures Count(a + b, good) == Count(a, good) + Count(b, good)
    decreases |b|
  {
    if b == [] {
      assert a + b == a;
    } else {
      var n := |b| - 1;
      CountConcat(a, b[..n], good);
      assert (a + b)[..|a + b| - 1] == a + b[..n];
    }
  }

  lemma {:induction false} CountRepeat(m: Member, k: int, good: Member -> bool)
    ensures Count(Repeat(m, k), good) == (if good(m) && k > 0 then k else 0)
    ensures forall x | x in Repeat(m, k) :: x == m
    ensures |Repeat(m, k)| == (if k > 0 then k else 0)
    decreases k
  {
    if k > 0 {
      CountRepeat(m, k - 1, good);
      assert Repeat(m, k)[..|Repeat(m, k)| - 1] == Repeat(m, k - 1);
    }
  }

  lemma {:induction false} CountExpand(ms: seq<Member>, e: string)
    ensures Count(Expand(ms), Named(e)) == WeightOf(ms, e)
    decreases |ms|
  {
    if ms != [] {
      var n := |ms| - 1;
      CountExpand(ms[..n], e);
      CountConcat(Expand(ms[..n]), Repeat(ms[n], ms[n].weight), Named(e));
      CountRepeat(ms[n], ms[n].weight, Named(e));
    }
  }

  lemma {:induction false} ExpandMember(ms: seq<Member>, m: Member)
    ensures m in Expand(ms) <==> m in ms && m.weight > 0
    decreases |ms|
  {
    if ms != [] {
      var n := |ms| - 1;
      ExpandMember(ms[..n], m);
      RepeatMember(ms[n], ms[n].weight, m);
      assert ms == ms[..n] + [ms[n]];
      assert m in Expand(ms) <==> m in Expand(ms[..n]) || m in Repeat(ms[n], ms[n].weight);
    }
  }

  lemma {:induction false} RepeatMember(m: Member, k: int, x: Member)
    ensures x in Repeat(m, k) <==> x == m && k > 0
    decreases k
  {
    if k > 1 { RepeatMember(m, k - 1, x); }
  }

  // --------------------------------------------------------------- deduplication

  ghost function Endpoints(ms: seq<Member>): set<string> { set m | m in ms :: m.endpointId }

  /** Keeps the first member of each endpoint. */
  ghost function Dedup(ms: seq<Member>): seq<Member> {
    if ms == [] then []
    else
      var n := |ms| - 1;
      var before := Dedup(ms[..n]);
      if ms[n].endpointId in Endpoints(ms[..n]) then before else before + [ms[n]]
  }

  method DedupByEndpoint(ms: seq<Member>) returns (chain: seq<Member>)
    ensures chain == Dedup(ms)
  {
    chain := [];
    var seen: set<string> := {};
    for i := 0 to |ms|
      invariant seen == Endpoints(ms[..i])
      invariant chain == Dedup(ms[..i])
    {
      assert ms[..i + 1] == ms[..i] + [ms[i]];
      assert Endpoints(ms[..i + 1]) == Endpoints(ms[..i]) + {ms[i].endpointId};
      if ms[i].endpointId in seen { continue; }
      seen := seen + {ms[i].endpointId};
      chain := chain + [ms[i]];
    }
    assert ms[..|ms|] == ms;
  }

  ghost predicate EndpointsDistinct(ms: seq<Member>) {
    forall i, j | 0 <= i < j < |ms| :: ms[i].endpointId != ms[j].endpointId
  }

  lemma {:induction false} DedupContents(ms: seq<Member>)
    ensures EndpointsDistinct(Dedup(ms))
    ensures Endpoints(Dedup(ms)) == Endpoints(ms)
    ensures forall m | m in Dedup(ms) :: m in ms
    ensures ms != [] ==> Dedup(ms) != [] && Dedup(ms)[0] == ms[0]
    decreases |ms|
  {
    if ms != [] {
      var n := |ms| - 1;
      DedupContents(ms[..n]);
      var before := Dedup(ms[..n]);
      assert ms == ms[..n] + [ms[n]];
      assert Endpoints(ms) == Endpoints(ms[..n]) + {ms[n].endpointId};
      if ms[n].endpointId !in Endpoints(ms[..n]) {
        assert Endpoints(before + [ms[n]]) == Endpoints(before) + {ms[n].endpointId};
        forall i | 0 <= i < |before| ensures before[i].endpointId != ms[n].endpointId {
          assert before[i].endpointId in Endpoints(before);
        }
      }
    }
  }

  // --------------------------------------------------------------- seeded drawing

  type Byte = bv8

  /** 32 bytes of hash over trace id, pool name and attempt number. */
  type Digest = f: (string, string, int) -> seq<Byte> | forall t, p, n :: |f(t, p, n)| == 32
    witness (t, p, n) => seq(32, i => 0)

  /** The generator's next number in [0, n), given its seed and the bounds of all draws so far, n last. */
  type Generator = f: (seq<Byte>, seq<nat>) -> nat |
      forall s, h :: |h| > 0 && h[|h| - 1] > 0 ==> f(s, h) < h[|h| - 1]
    witness (s, h) => 0

  function SeedBytes(digest: Digest, traceId: string, pool: string, attemptNo: int): (r: seq<Byte>)
    ensures |r| == 16 && r <= digest(traceId, pool, attemptNo)
  {
    digest(traceId, pool, attemptNo)[..16]
  }

  function ExpandedSeed(stored: seq<Byte>): (seed: seq<Byte>)
    requires stored != []
    ensures |seed| == 32
    ensures |stored| == 16 ==> seed == stored + stored
  {
    seq(32, i requires 0 <= i => stored[i % |stored|])
  }

  lemma {:induction false} ModFacts(i: nat, n: nat)
    requires n > 0
    ensures i % n < n && (i % n) % n == i % n && (i < n ==> i % n == i)
  {
  }

  /** Fills 32 bytes from a stored seed, repeating it; 16 stored bytes appear twice. */
  method ExpandSeed(stored: seq<Byte>) returns (seed: seq<Byte>)
    requires stored != []
    ensures seed == ExpandedSeed(stored)
  {
    ghost var full := ExpandedSeed(stored);
    var a := new Byte[32](i => 0);
    var copied := if |stored| < 32 then |stored| else 32;
    for i := 0 to copied
      invariant forall k | 0 <= k < i :: a[k] == full[k]
    {
      ModFacts(i, |stored|);
      a[i] := stored[i];
    }
    var i := |stored|;
    while i < 32
      invariant |stored| <= i
      invariant forall k | 0 <= k < 32 && k < i :: a[k] == full[k]
    {
      ModFacts(i, |stored|);
      var source := i % |stored|;
      assert full[source] == full[i];
      a[i] := a[source];
      i := i + 1;
    }
    assert a[..] == full;
    seed := a[..];
  }

  /** The bounds asked for, from n down to and including i + 1. */
  function Bounds(n: nat, i: nat): (r: seq<nat>)
    requires i <= n
    ensures |r| == n - i
    decreases n - i
  {
    if i == n then [] else Bounds(n, i + 1) + [i + 1]
  }

  function DrawAt(gen: Generator, seed: seq<Byte>, n: nat, i: nat): (j: nat)
    requires i < n
    ensures j <= i
  {
    if i == 0 then 0
    else
      var h := Bounds(n, i);
      assert h[|h| - 1] == i + 1;
      gen(seed, h)
  }

  /** The index choices the shuffle of n entries makes with this seed. */
  function Drawn(gen: Generator, seed: seq<Byte>, n: nat): (c: seq<nat>)
    ensures |c| == n && IsChoice(c)
  {
    seq(n, i requires 0 <= i < n => DrawAt(gen, seed, n, i))
  }

  class ChaCha8 {
    const gen: Generator
    const seed: seq<Byte>
    var asked: seq<nat>

    constructor (gen: Generator, seed: seq<Byte>)
      ensures this.gen == gen && this.seed == seed && asked == []
    {
      this.gen := gen;
      this.seed := seed;
      this.asked := [];
    }

    method IntN(n: int) returns (j: nat)
      modifies this
      ensures n <= 0 ==> j == 0 && asked == old(asked)
      ensures n > 0 ==> asked == old(asked) + [n as nat] && j == gen(seed, asked) && j < n
    {
      if n <= 0 { return 0; }
      asked := asked + [n];
      j := gen(seed, asked);
      assert asked[|asked| - 1] == n;
    }
  }

  /** One draw and swap: settles position i. */
  method SwapStep(a: array<Member>, rng: ChaCha8, i: nat, ghost c: seq<nat>)
    requires 0 < i < a.Length && c == Drawn(rng.gen, rng.seed, a.Length)
    requires rng.asked == Bounds(a.Length, i + 1)
    modifies a, rng
    ensures rng.asked == Bounds(a.Length, i)
    ensures Settling(a[..], c, i - 1) == old(Settling(a[..], c, i))
  {
    ghost var w := a[..];
    var j := rng.IntN(i + 1);
    assert j == DrawAt(rng.gen, rng.seed, a.Length, i) == c[i];
    a[i], a[j] := a[j], a[i];
    SettleOne(w, c, i, a[..]);
  }

  /** The shuffle in place, walking down from the last index and drawing as it goes. */
  method SeededShuffle(a: array<Member>, rng: ChaCha8)
    requires rng.asked == []
    modifies a, rng
    ensures a[..] == Shuffled(old(a[..]), Drawn(rng.gen, rng.seed, a.Length))
  {
    if a.Length == 0 { return; }
    ghost var c := Drawn(rng.gen, rng.seed, a.Length);
    var i := a.Length - 1;
    assert a[..i + 1] == a[..] && c[..i + 1] == c && a[i + 1..] == [];
    while i > 0
      invariant 0 <= i < a.Length
      invariant rng.asked == Bounds(a.Length, i + 1)
      invariant Settling(a[..], c, i) == Shuffled(old(a[..]), c)
    {
      SwapStep(a, rng, i, c);
      i := i - 1;
    }
    SettledAll(a[..], c);
  }

  /** Expand, shuffle, deduplicate: the steps selection and replay share. */
  ghost function Chained(ms: seq<Member>, gen: Generator, seed: seq<Byte>): seq<Member> {
    Dedup(Shuffled(Expand(ms), Drawn(gen, seed, |Expand(ms)|)))
  }

  method WeightedChain(ms: seq<Member>, gen: Generator, seed: seq<Byte>) returns (chain: seq<Member>)
    ensures chain == Chained(ms, gen, seed)
  {
    var rng := new ChaCha8(gen, seed);
    var weighted := ExpandByWeight(ms);
    var a := new Member[|weighted|](i requires 0 <= i < |weighted| => weighted[i]);
    assert a[..] == weighted;
    SeededShuffle(a, rng);
    chain := DedupByEndpoint(a[..]);
  }

  lemma {:induction false} ShuffledEndpoints(w: seq<Member>, c: seq<nat>)
    requires |c| == |w| && IsChoice(c)
    ensures forall m :: m in Shuffled(w, c) <==> m in w
    ensures Endpoints(Shuffled(w, c)) == Endpoints(w)
  {
    var s := Shuffled(w, c);
    ShuffledIsPermutation(w, c);
    forall m ensures m in s <==> m in w {
      assert m in s <==> m in multiset(s);
      assert m in w <==> m in multiset(w);
    }
  }

  /** For every seed, the chain holds each endpoint of a positively weighted member exactly once. */
  lemma {:induction false} ChainedContents(ms: seq<Member>, gen: Generator, seed: seq<Byte>)
    ensures var chain := Chained(ms, gen, seed);
            && EndpointsDistinct(chain)
            && (forall m | m in chain :: m in ms && m.weight > 0)
            && (forall e :: e in Endpoints(chain) <==> exists m :: m in ms && m.weight > 0 && m.endpointId == e)
            && (chain == [] <==> forall m | m in ms :: m.weight <= 0)
  {
    var w := Expand(ms);
    var s := Shuffled(w, Drawn(gen, seed, |w|));
    DedupContents(s);
    ShuffledEndpoints(w, Drawn(gen, seed, |w|));
    forall m ensures m in s <==> m in ms && m.weight > 0 { ExpandMember(ms, m); }
    if s == [] {
      forall m | m in ms ensures m.weight <= 0 { assert m !in s; }
    } else {
      assert s[0] in s;
    }
  }

  /**
   Exact weighted fairness: of the W! choice vectors the shuffle of these candidates can draw,
   exactly weight(e) * (W - 1)! put endpoint e first in the chain.
   */
  lemma {:induction false} WeightedFairness(ms: seq<Member>, e: string)
    requires Expand(ms) != []
    ensures var w := Expand(ms);
            && |Choices(|w|)| == Factorial(|w|)
            && |FirstChoices(ms, e)| == WeightOf(ms, e) * Factorial(|w| - 1)
  {
    var w := Expand(ms);
    ChoiceCount(|w|);
    PositionCount(w, 0, Named(e));
    CountExpand(ms, e);
    forall c | |c| == |w| && IsChoice(c)
      ensures Dedup(Shuffled(w, c)) != [] && Dedup(Shuffled(w, c))[0] == Shuffled(w, c)[0]
    {
      DedupContents(Shuffled(w, c));
    }
    assert FirstChoices(ms, e) == Favourable(w, 0, Named(e));
  }

  ghost predicate HeadIs(chain: seq<Member>, e: string) { chain != [] && chain[0].endpointId == e }

  ghost function FirstChoices(ms: seq<Member>, e: string): set<seq<nat>> {
    var w := Expand(ms);
    set c | c in Choices(|w|) && |c| == |w| && IsChoice(c) && HeadIs(Dedup(Shuffled(w, c)), e)
  }
}
