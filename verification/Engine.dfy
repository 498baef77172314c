/** The policy engine: rules in priority order, folded into one decision per request. */
module Engine {
  import opened Common
  import opened Config
  import opened Decisions

  /** The decision a rule or default action stands for; unknown actions allow. */
  function ActionDecision(action: string, pool: string, reasons: seq<string>): Decision {
    if action == "route" then RouteDecision(pool, reasons) else AllowDecision(reasons)
  }

  function RuleDecision(r: PolicyRule): Decision { ActionDecision(r.action, r.modelPool, r.reasons) }

  /** The merged decision of the matching rules, or None when no rule matches. */
  ghost function Folded(rules: seq<PolicyRule>, matches: PolicyRule -> bool): Option<Decision> {
    if rules == [] then None
    else
      var n := |rules| - 1;
      var before := Folded(rules[..n], matches);
      if matches(rules[n]) then Merge(before, Some(RuleDecision(rules[n]))) else before
  }

  ghost function Decided(rules: seq<PolicyRule>, default: ActionSpec, matches: PolicyRule -> bool): Decision {
    var d := Folded(rules, matches);
    if d.Some? then d.value else ActionDecision(default.action, default.modelPool, default.reasons)
  }

  predicate Sorted(rules: seq<PolicyRule>) {
    forall i, j | 0 <= i < j < |rules| :: rules[i].priority >= rules[j].priority
  }

  /** What an unstable sort by descending priority may return. */
  ghost predicate SortOf(rules: seq<PolicyRule>, sorted: seq<PolicyRule>) {
    multiset(sorted) == multiset(rules) && Sorted(sorted)
  }

  class PolicyEngine {
    var compiledRules: seq<PolicyRule>
    var defaultAction: ActionSpec

    constructor (cfg: PolicyConfig, sorted: seq<PolicyRule>)
      requires SortOf(cfg.rules, sorted)
      ensures compiledRules == sorted && defaultAction == cfg.onNoMatch
    {
      compiledRules := sorted;
      defaultAction := cfg.onNoMatch;
    }

    /** Swaps in a new policy, or changes nothing when some guard does not compile. */
    method SetPolicy(cfg: PolicyConfig, sorted: seq<PolicyRule>, compiles: string -> bool) returns (ok: bool)
      requires SortOf(cfg.rules, sorted)
      modifies this
      ensures ok <==> forall i | 0 <= i < |cfg.rules| :: compiles(cfg.rules[i].guard)
      ensures ok ==> compiledRules == sorted && defaultAction == cfg.onNoMatch
      ensures !ok ==> compiledRules == old(compiledRules) && defaultAction == old(defaultAction)
    {
      for i := 0 to |cfg.rules|
        invariant forall k | 0 <= k < i :: compiles(cfg.rules[k].guard)
        invariant compiledRules == old(compiledRules) && defaultAction == old(defaultAction)
      {
        if !compiles(cfg.rules[i].guard) { return false; }
      }
      compiledRules := sorted;
      defaultAction := cfg.onNoMatch;
      return true;
    }

    method Decide(matches: PolicyRule -> bool) returns (d: Decision)
      ensures d == Decided(compiledRules, defaultAction, matches)
      ensures Answers(d, compiledRules, defaultAction, matches)
    {
      DecidedAnswers(compiledRules, defaultAction, matches);
      var final: Option<Decision> := None;
      for i := 0 to |compiledRules|
        invariant final == Folded(compiledRules[..i], matches)
      {
        var rule := compiledRules[i];
        assert compiledRules[..i + 1][..i] == compiledRules[..i];
        if matches(rule) {
          final := MergeDecisions(final, Some(RuleDecision(rule)));
        }
      }
      assert compiledRules[..|compiledRules|] == compiledRules;
      if final.None? {
        return ActionDecision(defaultAction.action, defaultAction.modelPool, defaultAction.reasons);
      }
      return final.value;
    }
  }

  // ------------------------------------------------------ what a decision contains

  predicate Routes(r: PolicyRule, matches: PolicyRule -> bool) {
    matches(r) && r.action == "route"
  }

  /** A matching rule that sets the pool: a route rule that names one. */
  predicate SetsPool(r: PolicyRule, matches: PolicyRule -> bool) {
    Routes(r, matches) && r.modelPool != ""
  }

  /** The pool of the last rule that sets one. */
  ghost function LastPool(rules: seq<PolicyRule>, matches: PolicyRule -> bool): string {
    if rules == [] then ""
    else
      var n := |rules| - 1;
      if SetsPool(rules[n], matches) then rules[n].modelPool else LastPool(rules[..n], matches)
  }

  /** The reasons of the matching rules, in rule order. */
  ghost function MatchedReasons(rules: seq<PolicyRule>, matches: PolicyRule -> bool): seq<string> {
    if rules == [] then []
    else
      var n := |rules| - 1;
      MatchedReasons(rules[..n], matches) + (if matches(rules[n]) then rules[n].reasons else [])
  }

  ghost predicate AnyMatches(rules: seq<PolicyRule>, matches: PolicyRule -> bool) {
    exists r :: r in rules && matches(r)
  }

  ghost predicate AnyRoutes(rules: seq<PolicyRule>, matches: PolicyRule -> bool) {
    exists r :: r in rules && Routes(r, matches)
  }

  lemma {:induction false} InInit<T>(s: seq<T>, x: T)
    requires s != []
    ensures x in s <==> x in s[..|s| - 1] || x == s[|s| - 1]
  {
    assert s == s[..|s| - 1] + [s[|s| - 1]];
  }

  lemma {:induction false} AnySplit(rules: seq<PolicyRule>, matches: PolicyRule -> bool)
    requires rules != []
    ensures var n := |rules| - 1;
            && (AnyMatches(rules, matches) <==> AnyMatches(rules[..n], matches) || matches(rules[n]))
            && (AnyRoutes(rules, matches) <==> AnyRoutes(rules[..n], matches) || Routes(rules[n], matches))
  {
    forall r ensures r in rules <==> r in rules[..|rules| - 1] || r == rules[|rules| - 1] { InInit(rules, r); }
  }

  /**
   A fold exists iff a rule matches; it routes iff a route rule matches, takes the pool of
   the last rule that sets one, and asks for nothing else.
   */
  lemma {:induction false} FoldedContents(rules: seq<PolicyRule>, matches: PolicyRule -> bool)
    ensures Folded(rules, matches).Some? <==> AnyMatches(rules, matches)
    ensures Folded(rules, matches).Some? ==>
              Says(Folded(rules, matches).value, AnyRoutes(rules, matches), LastPool(rules, matches))
    ensures !AnyMatches(rules, matches) ==> LastPool(rules, matches) == "" && !AnyRoutes(rules, matches)
    decreases |rules|
  {
    if rules != [] {
      var n := |rules| - 1;
      FoldedContents(rules[..n], matches);
      AnySplit(rules, matches);
      if matches(rules[n]) {
        MergeSays(Folded(rules[..n], matches), rules[n], AnyRoutes(rules[..n], matches), LastPool(rules[..n], matches));
      }
    }
  }

  /** The decision routes or allows, names this pool, and asks for nothing else. */
  predicate Says(d: Decision, routes: bool, pool: string) {
    && d.primary == (if routes then "route" else "allow")
    && d.modelPool == pool && d.shadowPool == ""
    && d.modifiers == [] && d.sideEffects == [] && d.redactions == [] && d.degradedFeatures == []
    && d.requiredTrustTier == "" && d.requiredDataResidency == [] && d.requiredCapabilities == []
  }

  /**
   What the engine answers: with a matching rule, the action, last pool and reasons of the matching
   rules; with none, the configured default action with its pool and reasons.
   */
  ghost predicate Answers(d: Decision, rules: seq<PolicyRule>, default: ActionSpec, matches: PolicyRule -> bool) {
    if exists r :: r in rules && matches(r) then
      && Says(d, exists r :: r in rules && matches(r) && r.action == "route", LastPool(rules, matches))
      && Fresh({}, d.reasons) == Fresh({}, MatchedReasons(rules, matches))
    else
      && Says(d, default.action == "route", if default.action == "route" then default.modelPool else "")
      && d.reasons == default.reasons
  }

  lemma {:induction false} DecidedAnswers(rules: seq<PolicyRule>, default: ActionSpec, matches: PolicyRule -> bool)
    ensures Answers(Decided(rules, default, matches), rules, default, matches)
  {
    FoldedContents(rules, matches);
    assert AnyRoutes(rules, matches) <==> exists r :: r in rules && matches(r) && r.action == "route" by {
      assert forall r :: Routes(r, matches) <==> matches(r) && r.action == "route";
    }
    if Folded(rules, matches).Some? { FoldedReasons(rules, matches); }
  }

  lemma {:induction false} MergeSays(before: Option<Decision>, r: PolicyRule, routes: bool, pool: string)
    requires if before.Some? then Says(before.value, routes, pool) else !routes && pool == ""
    ensures Says(Merge(before, Some(RuleDecision(r))).value, routes || r.action == "route",
                 if r.action == "route" && r.modelPool != "" then r.modelPool else pool)
  {
  }

  /** The reasons are the ordered union: nothing invented, nothing lost, first mention first. */
  lemma {:induction false} FoldedReasons(rules: seq<PolicyRule>, matches: PolicyRule -> bool)
    requires Folded(rules, matches).Some?
    ensures var r := Folded(rules, matches).value.reasons;
            && Elements(r) == Elements(MatchedReasons(rules, matches))
            && Fresh({}, r) == Fresh({}, MatchedReasons(rules, matches))
    decreases |rules|
  {
    var n := |rules| - 1;
    var before := Folded(rules[..n], matches);
    var prior, next := MatchedReasons(rules[..n], matches), rules[n].reasons;
    if before.None? {
      FoldedContents(rules[..n], matches);
      NoMatchNoReasons(rules[..n], matches);
      assert [] + next == next;
    } else {
      FoldedReasons(rules[..n], matches);
      if matches(rules[n]) {
        ReasonsStep(before.value.reasons, prior, next);
      } else {
        assert prior + [] == prior;
      }
    }
  }

  lemma {:induction false} NoMatchNoReasons(rules: seq<PolicyRule>, matches: PolicyRule -> bool)
    requires !AnyMatches(rules, matches)
    ensures MatchedReasons(rules, matches) == []
    decreases |rules|
  {
    if rules != [] {
      AnySplit(rules, matches);
      NoMatchNoReasons(rules[..|rules| - 1], matches);
    }
  }

  lemma {:induction false} ReasonsStep(r: seq<string>, prior: seq<string>, next: seq<string>)
    requires Elements(r) == Elements(prior) && Fresh({}, r) == Fresh({}, prior)
    ensures Elements(Union(r, next)) == Elements(prior + next)
    ensures Fresh({}, Union(r, next)) == Fresh({}, prior + next)
  {
    UnionElements(r, next);
    assert Elements(prior + next) == Elements(prior) + Elements(next);
    FreshConcat({}, r, Fresh(Elements(r), next));
    FreshConcat({}, prior, next);
    FreshTwice({} + Elements(r), Elements(r), next);
    assert {} + Elements(r) + Elements(r) == {} + Elements(prior);
  }

  // ---------------------------------------------------------- sort order and ties

  lemma {:induction false} SameRules(p: seq<PolicyRule>, q: seq<PolicyRule>)
    requires multiset(p) == multiset(q)
    ensures forall r :: r in p <==> r in q
  {
    forall r ensures r in p <==> r in q {
      assert r in p <==> r in multiset(p);
      assert r in q <==> r in multiset(q);
    }
  }

  lemma {:induction false} ReasonOrigin(rules: seq<PolicyRule>, matches: PolicyRule -> bool, x: string)
    ensures x in MatchedReasons(rules, matches) <==> exists r :: r in rules && matches(r) && x in r.reasons
    decreases |rules|
  {
    if rules != [] {
      var n := |rules| - 1;
      ReasonOrigin(rules[..n], matches, x);
      forall r ensures r in rules <==> r in rules[..n] || r == rules[n] { InInit(rules, r); }
    }
  }

  /** However the sort orders equal priorities, the action and the set of reasons are the same. */
  lemma {:induction false} ActionAndReasonsOrderFree(p: seq<PolicyRule>, q: seq<PolicyRule>, default: ActionSpec, matches: PolicyRule -> bool)
    requires multiset(p) == multiset(q)
    ensures Decided(p, default, matches).primary == Decided(q, default, matches).primary
    ensures Elements(Decided(p, default, matches).reasons) == Elements(Decided(q, default, matches).reasons)
  {
    hide Folded, MatchedReasons, LastPool;
    SameRules(p, q);
    FoldedContents(p, matches);
    FoldedContents(q, matches);
    if Folded(p, matches).Some? {
      FoldedReasons(p, matches);
      FoldedReasons(q, matches);
      forall x ensures x in MatchedReasons(p, matches) <==> x in MatchedReasons(q, matches) {
        ReasonOrigin(p, matches, x);
        ReasonOrigin(q, matches, x);
      }
      assert Elements(MatchedReasons(p, matches)) == Elements(MatchedReasons(q, matches));
    }
  }

  /** r sets the pool and no pool-setting rule has a lower priority. */
  ghost predicate Bottom(rules: seq<PolicyRule>, matches: PolicyRule -> bool, r: PolicyRule) {
    r in rules && SetsPool(r, matches) &&
    forall s | s in rules && SetsPool(s, matches) :: r.priority <= s.priority
  }

  ghost predicate OnePoolAtBottom(rules: seq<PolicyRule>, matches: PolicyRule -> bool) {
    forall r, s | Bottom(rules, matches, r) && Bottom(rules, matches, s) :: r.modelPool == s.modelPool
  }

  ghost predicate LastAt(rules: seq<PolicyRule>, matches: PolicyRule -> bool, k: nat) {
    k < |rules| && SetsPool(rules[k], matches) &&
    forall j | k < j < |rules| :: !SetsPool(rules[j], matches)
  }

  lemma {:induction false} LastPoolAt(rules: seq<PolicyRule>, matches: PolicyRule -> bool, k: nat)
    requires LastAt(rules, matches, k)
    ensures LastPool(rules, matches) == rules[k].modelPool
    decreases |rules|
  {
    var n := |rules| - 1;
    if k < n { LastPoolAt(rules[..n], matches, k); }
  }

  lemma {:induction false} FindLast(rules: seq<PolicyRule>, matches: PolicyRule -> bool) returns (k: nat)
    requires exists r :: r in rules && SetsPool(r, matches)
    ensures LastAt(rules, matches, k)
    decreases |rules|
  {
    var n := |rules| - 1;
    if SetsPool(rules[n], matches) {
      k := n;
    } else {
      var r :| r in rules && SetsPool(r, matches);
      InInit(rules, r);
      k := FindLast(rules[..n], matches);
    }
  }

  /** In priority order the last pool-setting rule is one of the lowest priority: the lowest wins. */
  lemma {:induction false} LastIsBottom(rules: seq<PolicyRule>, matches: PolicyRule -> bool, k: nat)
    requires Sorted(rules) && LastAt(rules, matches, k)
    ensures Bottom(rules, matches, rules[k])
    ensures LastPool(rules, matches) == rules[k].modelPool
  {
    LastPoolAt(rules, matches, k);
    forall s | s in rules && SetsPool(s, matches) ensures rules[k].priority <= s.priority {
      var i :| 0 <= i < |rules| && rules[i] == s;
      assert i <= k;
    }
  }

  lemma {:induction false} NoPool(rules: seq<PolicyRule>, matches: PolicyRule -> bool)
    requires forall r | r in rules :: !SetsPool(r, matches)
    ensures LastPool(rules, matches) == ""
    decreases |rules|
  {
    if rules != [] { NoPool(rules[..|rules| - 1], matches); }
  }

  lemma {:induction false} BottomSame(p: seq<PolicyRule>, q: seq<PolicyRule>, matches: PolicyRule -> bool)
    requires multiset(p) == multiset(q)
    ensures forall r :: Bottom(p, matches, r) <==> Bottom(q, matches, r)
  {
    SameRules(p, q);
  }

  lemma {:induction false} OnePoolSuffices(p: seq<PolicyRule>, q: seq<PolicyRule>, matches: PolicyRule -> bool)
    requires Sorted(p) && SortOf(p, q) && OnePoolAtBottom(p, matches)
    ensures LastPool(p, matches) == LastPool(q, matches)
  {
    SameRules(p, q);
    if exists r :: r in p && SetsPool(r, matches) {
      var r :| r in p && SetsPool(r, matches);
      assert r in q;
      var i := FindLast(p, matches);
      var k := FindLast(q, matches);
      LastIsBottom(p, matches, i);
      LastIsBottom(q, matches, k);
      BottomSame(p, q, matches);
    } else {
      NoPool(p, matches);
      NoPool(q, matches);
    }
  }

  /** Exchanging two rules of equal priority gives another order the sort may return. */
  lemma {:induction false} ExchangeTie(p: seq<PolicyRule>, i: nat, k: nat) returns (q: seq<PolicyRule>)
    requires Sorted(p) && i < k < |p| && p[i].priority == p[k].priority
    ensures q == p[i := p[k]][k := p[i]] && SortOf(p, q)
  {
    q := p[i := p[k]][k := p[i]];
    forall a, b | 0 <= a < b < |q| ensures q[a].priority >= q[b].priority {
      assert q[a].priority == p[a].priority && q[b].priority == p[b].priority;
    }
  }

  lemma {:induction false} TwoPoolsDiffer(p: seq<PolicyRule>, matches: PolicyRule -> bool) returns (q: seq<PolicyRule>)
    requires Sorted(p) && !OnePoolAtBottom(p, matches)
    ensures SortOf(p, q) && LastPool(q, matches) != LastPool(p, matches)
  {
    var r, s :| Bottom(p, matches, r) && Bottom(p, matches, s) && r.modelPool != s.modelPool;
    var k := FindLast(p, matches);
    LastIsBottom(p, matches, k);
    var other := if r.modelPool != p[k].modelPool then r else s;
    var i :| 0 <= i < |p| && p[i] == other;
    assert i < k;
    q := ExchangeTie(p, i, k);
    assert LastAt(q, matches, k);
    LastPoolAt(q, matches, k);
  }

  /**
   The pool does depend on how the sort breaks ties, unless every matching pool-setting rule
   of the lowest such priority names the same pool.
   */
  lemma {:induction false} PoolOrderFreeIff(p: seq<PolicyRule>, matches: PolicyRule -> bool)
    requires Sorted(p)
    ensures (forall q :: SortOf(p, q) ==> LastPool(q, matches) == LastPool(p, matches))
            <==> OnePoolAtBottom(p, matches)
  {
    if OnePoolAtBottom(p, matches) {
      forall q | SortOf(p, q) ensures LastPool(q, matches) == LastPool(p, matches) {
        OnePoolSuffices(p, q, matches);
      }
    } else {
      var q := TwoPoolsDiffer(p, matches);
    }
  }

  /** r sets the pool and no pool-setting rule has a higher priority. */
  ghost predicate Top(rules: seq<PolicyRule>, matches: PolicyRule -> bool, r: PolicyRule) {
    r in rules && SetsPool(r, matches) &&
    forall s | s in rules && SetsPool(s, matches) :: s.priority <= r.priority
  }

  lemma {:induction false} LastAgrees(p: seq<PolicyRule>, matches: PolicyRule -> bool, pool: string)
    requires Sorted(p) && exists r :: r in p && SetsPool(r, matches)
    requires forall b | Bottom(p, matches, b) :: b.modelPool == pool
    ensures LastPool(p, matches) == pool
  {
    var k := FindLast(p, matches);
    LastIsBottom(p, matches, k);
  }

  /**
   The documented rule, a higher priority overrides a lower one, holds however the sort breaks
   ties iff every matching pool-setting rule of the lowest such priority names the same pool as
   the rule of the highest priority.
   */
  lemma {:induction false} HighestWinsIff(p: seq<PolicyRule>, matches: PolicyRule -> bool, r: PolicyRule)
    requires Sorted(p) && Top(p, matches, r)
    ensures (forall q :: SortOf(p, q) ==> LastPool(q, matches) == r.modelPool)
            <==> forall b | Bottom(p, matches, b) :: b.modelPool == r.modelPool
  {
    PoolOrderFreeIff(p, matches);
    if forall b | Bottom(p, matches, b) :: b.modelPool == r.modelPool {
      LastAgrees(p, matches, r.modelPool);
    } else {
      assert SortOf(p, p);
      var k := FindLast(p, matches);
      LastIsBottom(p, matches, k);
    }
  }

  /** r matches and no matching rule has a higher priority. */
  ghost predicate Highest(rules: seq<PolicyRule>, matches: PolicyRule -> bool, r: PolicyRule) {
    r in rules && matches(r) && forall s | s in rules && matches(s) :: s.priority <= r.priority
  }

  /** The decision has the action and the pool of rule r. */
  ghost predicate DecidedBy(rules: seq<PolicyRule>, matches: PolicyRule -> bool, r: PolicyRule) {
    var f, d := Folded(rules, matches), RuleDecision(r);
    f.Some? && f.value.primary == d.primary && f.value.modelPool == d.modelPool
  }

  /** Nothing of lower priority overrides r. */
  ghost predicate Unopposed(rules: seq<PolicyRule>, matches: PolicyRule -> bool, r: PolicyRule) {
    if SetsPool(r, matches) then forall b | Bottom(rules, matches, b) :: b.modelPool == r.modelPool
    else if r.action == "route" then forall s | s in rules :: !SetsPool(s, matches)
    else !AnyRoutes(rules, matches)
  }

  lemma {:induction false} DecidedByIff(q: seq<PolicyRule>, matches: PolicyRule -> bool, r: PolicyRule)
    requires r in q && matches(r)
    ensures DecidedBy(q, matches, r) <==>
            if r.action == "route" then LastPool(q, matches) == r.modelPool else !AnyRoutes(q, matches)
  {
    FoldedContents(q, matches);
    if r.action == "route" {
      assert Routes(r, matches);
    } else if !AnyRoutes(q, matches) {
      forall s | s in q ensures !SetsPool(s, matches) { assert !Routes(s, matches); }
      NoPool(q, matches);
    }
  }

  lemma {:induction false} NoPoolIff(q: seq<PolicyRule>, matches: PolicyRule -> bool)
    ensures LastPool(q, matches) == "" <==> forall s | s in q :: !SetsPool(s, matches)
  {
    if forall s | s in q :: !SetsPool(s, matches) {
      NoPool(q, matches);
    } else {
      var k := FindLast(q, matches);
      LastPoolAt(q, matches, k);
    }
  }

  /**
   The designed rule, the highest-priority matching route or allow rule gives action and pool,
   holds however the sort breaks ties iff nothing of lower priority overrides it: every matching
   pool-setting rule of the lowest priority names its pool, or, if it allows, no rule routes.
   */
  lemma {:induction false} HighestDecidesIff(p: seq<PolicyRule>, matches: PolicyRule -> bool, r: PolicyRule)
    requires Sorted(p) && Highest(p, matches, r)
    ensures (forall q :: SortOf(p, q) ==> DecidedBy(q, matches, r)) <==> Unopposed(p, matches, r)
  {
    assert SortOf(p, p);
    forall q | SortOf(p, q)
      ensures r in q && (DecidedBy(q, matches, r) <==>
              if r.action == "route" then LastPool(q, matches) == r.modelPool else !AnyRoutes(q, matches))
    {
      SameRules(p, q);
      DecidedByIff(q, matches, r);
    }
    if SetsPool(r, matches) {
      HighestWinsIff(p, matches, r);
    } else if r.action == "route" {
      forall q | SortOf(p, q) ensures LastPool(q, matches) == "" <==> forall s | s in p :: !SetsPool(s, matches) {
        SameRules(p, q);
        NoPoolIff(q, matches);
      }
    } else {
      forall q | SortOf(p, q) ensures AnyRoutes(q, matches) <==> AnyRoutes(p, matches) { SameRules(p, q); }
    }
  }

  /** A matching allow rule at 600 above a matching route rule at 500: the request is routed. */
  lemma {:induction false} AllowIsOverridden(allow: PolicyRule, route: PolicyRule, matches: PolicyRule -> bool)
    requires allow.priority == 600 && allow.action == "allow" && matches(allow)
    requires route.priority == 500 && SetsPool(route, matches)
    ensures var p := [allow, route];
            && Sorted(p) && Highest(p, matches, allow)
            && Folded(p, matches).Some? && Folded(p, matches).value.primary == "route"
            && Folded(p, matches).value.modelPool == route.modelPool
  {
    var p := [allow, route];
    LastPoolAt(p, matches, 1);
    FoldedContents(p, matches);
    assert p[1] == route && Routes(route, matches);
  }

  /** Two matching route rules, the one meant to override at 550: the rule at 500 decides. */
  lemma {:induction false} OverrideIsOverridden(base: PolicyRule, override: PolicyRule, matches: PolicyRule -> bool)
    requires base.priority == 500 && base.modelPool == "standard" && SetsPool(base, matches)
    requires override.priority == 550 && override.modelPool == "cheap" && SetsPool(override, matches)
    ensures SortOf([base, override], [override, base]) && Top([override, base], matches, override)
    ensures Folded([override, base], matches).Some?
    ensures Folded([override, base], matches).value.modelPool == "standard" != override.modelPool
  {
    var p := [override, base];
    assert multiset(p) == multiset([base, override]);
    LastPoolAt(p, matches, 1);
    FoldedContents(p, matches);
    assert "standard" != "cheap" by { assert |"standard"| != |"cheap"|; }
  }
}
