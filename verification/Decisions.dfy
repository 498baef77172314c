/** Policy decisions and the merge that combines the decisions of several matching rules. */
module Decisions {
  import opened Common

  datatype Decision = Decision(
    primary: string, modifiers: seq<string>, sideEffects: seq<string>,
    modelPool: string, shadowPool: string, redactions: seq<string>, reasons: seq<string>,
    requiredTrustTier: string, requiredDataResidency: seq<string>,
    requiredCapabilities: seq<string>, degradedFeatures: seq<string>)

  function Plain(primary: string, pool: string, reasons: seq<string>): Decision {
    Decision(primary, [], [], pool, "", [], reasons, "", [], [], [])
  }

  function AllowDecision(reasons: seq<string>): Decision { Plain("allow", "", reasons) }

  function RouteDecision(pool: string, reasons: seq<string>): Decision { Plain("route", pool, reasons) }

  // --------------------------------------------------------------- ordered union

  ghost function Elements<T>(s: seq<T>): set<T> { set x | x in s }

  /** The items outside `seen`, each once, in order of first occurrence. */
  ghost function Fresh<T>(seen: set<T>, items: seq<T>): seq<T>
    decreases |items|
  {
    if items == [] then []
    else if items[0] in seen then Fresh(seen, items[1..])
    else [items[0]] + Fresh(seen + {items[0]}, items[1..])
  }

  ghost function Union<T>(slice: seq<T>, items: seq<T>): seq<T> {
    slice + Fresh(Elements(slice), items)
  }

  lemma {:induction false} FreshElements<T>(seen: set<T>, items: seq<T>)
    ensures Elements(Fresh(seen, items)) == Elements(items) - seen
    decreases |items|
  {
    if items != [] {
      var x, rest := items[0], items[1..];
      assert Elements(items) == {x} + Elements(rest);
      if x in seen {
        FreshElements(seen, rest);
      } else {
        FreshElements(seen + {x}, rest);
        assert Elements(Fresh(seen, items)) == {x} + Elements(Fresh(seen + {x}, rest));
      }
    }
  }

  lemma {:induction false} FreshConcat<T>(seen: set<T>, b: seq<T>, c: seq<T>)
    ensures Fresh(seen, b + c) == Fresh(seen, b) + Fresh(seen + Elements(b), c)
    decreases |b|
  {
    if b == [] {
      assert b + c == c && seen + Elements(b) == seen;
    } else {
      var x, rest := b[0], b[1..];
      assert (b + c)[1..] == rest + c;
      var seen' := if x in seen then seen else seen + {x};
      FreshConcat(seen', rest, c);
      assert seen' + Elements(rest) == seen + Elements(b);
    }
  }

  lemma {:induction false} FreshTwice<T>(s: set<T>, r: set<T>, c: seq<T>)
    ensures Fresh(s, Fresh(r, c)) == Fresh(s + r, c)
    decreases |c|
  {
    if c != [] {
      var x, rest := c[0], c[1..];
      if x in r {
        FreshTwice(s, r, rest);
      } else {
        var tail := Fresh(r + {x}, rest);
        assert Fresh(r, c) == [x] + tail;
        assert ([x] + tail)[1..] == tail;
        if x in s {
          FreshTwice(s, r + {x}, rest);
          assert s + (r + {x}) == s + r;
        } else {
          FreshTwice(s + {x}, r + {x}, rest);
          assert (s + {x}) + (r + {x}) == s + r + {x};
        }
      }
    }
  }

  lemma {:induction false} UnionElements<T>(a: seq<T>, b: seq<T>)
    ensures Elements(Union(a, b)) == Elements(a) + Elements(b)
  {
    FreshElements(Elements(a), b);
    var more := Fresh(Elements(a), b);
    assert Elements(a + more) == Elements(a) + Elements(more);
  }

  lemma {:induction false} UnionAssociative<T>(a: seq<T>, b: seq<T>, c: seq<T>)
    ensures Union(Union(a, b), c) == Union(a, Union(b, c))
  {
    var A, B := Elements(a), Elements(b);
    UnionElements(a, b);
    FreshConcat(A, b, Fresh(B, c));
    FreshTwice(A + B, B, c);
    assert A + B + B == A + B;
  }

  /** The loop behind every append-unique helper: a `seen` set and a growing slice. */
  method AppendUnique<T(==)>(slice: seq<T>, items: seq<T>) returns (out: seq<T>)
    ensures out == Union(slice, items)
  {
    out := slice;
    var seen := {};
    for i := 0 to |slice|
      invariant seen == Elements(slice[..i])
    {
      seen := seen + {slice[i]};
    }
    assert slice[..|slice|] == slice;
    for i := 0 to |items|
      invariant Union(slice, items) == out + Fresh(seen, items[i..])
    {
      assert items[i..][1..] == items[i + 1..];
      if items[i] !in seen {
        out := out + [items[i]];
        seen := seen + {items[i]};
      }
    }
  }

  // ---------------------------------------------------------------------- merge

  /** block > require_approval > route > allow > unset; anything else ranks below unset. */
  function Rank(action: string): nat {
    if action == "block" then 5
    else if action == "require_approval" then 4
    else if action == "route" then 3
    else if action == "allow" then 2
    else if action == "" then 1
    else 0
  }

  function MergePrimary(a: string, b: string): string { if Rank(a) >= Rank(b) then a else b }

  function LastSet(a: string, b: string): string { if b != "" then b else a }

  ghost function Merge(a: Option<Decision>, b: Option<Decision>): Option<Decision> {
    if a.None? then b
    else if b.None? then a
    else Some(MergeBoth(a.value, b.value))
  }

  ghost function MergeBoth(a: Decision, b: Decision): Decision {
    Decision(
      MergePrimary(a.primary, b.primary),
      Union(a.modifiers, b.modifiers), Union(a.sideEffects, b.sideEffects),
      LastSet(a.modelPool, b.modelPool), LastSet(a.shadowPool, b.shadowPool),
      Union(a.redactions, b.redactions), Union(a.reasons, b.reasons),
      LastSet(a.requiredTrustTier, b.requiredTrustTier),
      Union(a.requiredDataResidency, b.requiredDataResidency),
      Union(a.requiredCapabilities, b.requiredCapabilities),
      Union(a.degradedFeatures, b.degradedFeatures))
  }

  /** The merge as the engine runs it: a copy of a, updated field by field. */
  method MergeDecisions(a: Option<Decision>, b: Option<Decision>) returns (out: Option<Decision>)
    ensures out == Merge(a, b)
  {
    if a.None? { return b; }
    if b.None? { return a; }
    var x, y := a.value, b.value;
    var d := x.(primary := MergePrimary(x.primary, y.primary));
    var modifiers := AppendUnique(d.modifiers, y.modifiers);
    var sideEffects := AppendUnique(d.sideEffects, y.sideEffects);
    var reasons := AppendUnique(d.reasons, y.reasons);
    d := d.(modifiers := modifiers, sideEffects := sideEffects, reasons := reasons);
    if y.modelPool != "" { d := d.(modelPool := y.modelPool); }
    if y.shadowPool != "" { d := d.(shadowPool := y.shadowPool); }
    var redactions := AppendUnique(d.redactions, y.redactions);
    var degraded := AppendUnique(d.degradedFeatures, y.degradedFeatures);
    d := d.(redactions := redactions, degradedFeatures := degraded);
    if y.requiredTrustTier != "" { d := d.(requiredTrustTier := y.requiredTrustTier); }
    if |y.requiredDataResidency| > 0 {
      var residency := AppendUnique(d.requiredDataResidency, y.requiredDataResidency);
      d := d.(requiredDataResidency := residency);
    }
    if |y.requiredCapabilities| > 0 {
      var capabilities := AppendUnique(d.requiredCapabilities, y.requiredCapabilities);
      d := d.(requiredCapabilities := capabilities);
    }
    assert x.requiredDataResidency + [] == x.requiredDataResidency;
    assert x.requiredCapabilities + [] == x.requiredCapabilities;
    return Some(d);
  }

  /** Merge is a monoid: the absent decision is its identity and grouping does not matter. */
  lemma {:induction false} MergeAssociative(a: Option<Decision>, b: Option<Decision>, c: Option<Decision>)
    ensures Merge(None, a) == a == Merge(a, None)
    ensures Merge(Merge(a, b), c) == Merge(a, Merge(b, c))
  {
    if a.Some? && b.Some? && c.Some? {
      UnionAssociative(a.value.modifiers, b.value.modifiers, c.value.modifiers);
      UnionAssociative(a.value.sideEffects, b.value.sideEffects, c.value.sideEffects);
      UnionAssociative(a.value.redactions, b.value.redactions, c.value.redactions);
      UnionAssociative(a.value.reasons, b.value.reasons, c.value.reasons);
      UnionAssociative(a.value.requiredDataResidency, b.value.requiredDataResidency, c.value.requiredDataResidency);
      UnionAssociative(a.value.requiredCapabilities, b.value.requiredCapabilities, c.value.requiredCapabilities);
      UnionAssociative(a.value.degradedFeatures, b.value.degradedFeatures, c.value.degradedFeatures);
    }
  }

  // ------------------------------------------------------------- merging many decisions

  ghost function MergeAll(ds: seq<Decision>): Option<Decision> {
    if ds == [] then None else Merge(MergeAll(ds[..|ds| - 1]), Some(ds[|ds| - 1]))
  }

  ghost predicate AnyActs(ds: seq<Decision>, action: string) { exists d :: d in ds && d.primary == action }

  predicate Ranked(action: string) {
    action == "block" || action == "require_approval" || action == "route" || action == "allow"
  }

  lemma {:induction false} LastOrBefore<T>(ds: seq<T>, d: T)
    requires ds != []
    ensures d in ds <==> d in ds[..|ds| - 1] || d == ds[|ds| - 1]
  {
    assert ds == ds[..|ds| - 1] + [ds[|ds| - 1]];
  }

  /**
   Deny overrides: the merge of any decisions blocks iff one does, else asks for approval iff one
   does, and so on; if all actions are unset or unknown it is unset, or the first when none is.
   */
  lemma {:induction false} StrongestWins(ds: seq<Decision>)
    ensures MergeAll(ds).Some? <==> ds != []
    ensures ds != [] ==>
              var p := MergeAll(ds).value.primary;
              && AnyActs(ds, p)
              && (p == "block" <==> AnyActs(ds, "block"))
              && (p == "require_approval" <==> AnyActs(ds, "require_approval") && !AnyActs(ds, "block"))
              && (p == "route" <==> AnyActs(ds, "route") && !AnyActs(ds, "require_approval") && !AnyActs(ds, "block"))
              && (p == "allow" <==>
                    AnyActs(ds, "allow") && !AnyActs(ds, "route") && !AnyActs(ds, "require_approval") && !AnyActs(ds, "block"))
              && ((forall d | d in ds :: !Ranked(d.primary)) ==> p == if AnyActs(ds, "") then "" else ds[0].primary)
    decreases |ds|
  {
    if ds != [] {
      StrongestWins(ds[..|ds| - 1]);
      forall a ensures AnyActs(ds, a) <==> AnyActs(ds[..|ds| - 1], a) || ds[|ds| - 1].primary == a { OneMore(ds, a); }
    }
  }

  lemma {:induction false} OneMore(ds: seq<Decision>, a: string)
    requires ds != []
    ensures AnyActs(ds, a) <==> AnyActs(ds[..|ds| - 1], a) || ds[|ds| - 1].primary == a
  {
    forall d ensures d in ds <==> d in ds[..|ds| - 1] || d == ds[|ds| - 1] { LastOrBefore(ds, d); }
  }

  datatype ListSlot = Modifiers | SideEffects | Redactions | Reasons | Residency | Capabilities | Degraded
  datatype TextSlot = ModelPool | ShadowPool | TrustTier

  function ListIn(d: Decision, slot: ListSlot): seq<string> {
    match slot
    case Modifiers => d.modifiers
    case SideEffects => d.sideEffects
    case Redactions => d.redactions
    case Reasons => d.reasons
    case Residency => d.requiredDataResidency
    case Capabilities => d.requiredCapabilities
    case Degraded => d.degradedFeatures
  }

  function TextIn(d: Decision, slot: TextSlot): string {
    match slot
    case ModelPool => d.modelPool
    case ShadowPool => d.shadowPool
    case TrustTier => d.requiredTrustTier
  }

  /** Every list of the merge holds exactly what that list of some decision holds. */
  lemma {:induction false} ListsUnite(ds: seq<Decision>, slot: ListSlot, x: string)
    requires MergeAll(ds).Some?
    ensures x in ListIn(MergeAll(ds).value, slot) <==> exists d :: d in ds && x in ListIn(d, slot)
    decreases |ds|
  {
    var before, d := MergeAll(ds[..|ds| - 1]), ds[|ds| - 1];
    forall e ensures e in ds <==> e in ds[..|ds| - 1] || e == d { LastOrBefore(ds, e); }
    if before.Some? {
      ListsUnite(ds[..|ds| - 1], slot, x);
      MergedList(before.value, d, slot, x);
    } else {
      StrongestWins(ds[..|ds| - 1]);
    }
  }

  lemma {:induction false} MergedList(a: Decision, b: Decision, slot: ListSlot, x: string)
    ensures x in ListIn(MergeBoth(a, b), slot) <==> x in ListIn(a, slot) || x in ListIn(b, slot)
  {
    UnionElements(ListIn(a, slot), ListIn(b, slot));
    assert x in Elements(Union(ListIn(a, slot), ListIn(b, slot))) <==> x in Union(ListIn(a, slot), ListIn(b, slot));
    assert ListIn(MergeBoth(a, b), slot) == Union(ListIn(a, slot), ListIn(b, slot));
    assert x in Elements(ListIn(a, slot)) <==> x in ListIn(a, slot);
    assert x in Elements(ListIn(b, slot)) <==> x in ListIn(b, slot);
  }

  /** Pools and trust tier are those of the last decision that sets them. */
  lemma {:induction false} LastTextWins(ds: seq<Decision>, slot: TextSlot, k: nat)
    requires k < |ds| && TextIn(ds[k], slot) != "" && forall i | k < i < |ds| :: TextIn(ds[i], slot) == ""
    ensures MergeAll(ds).Some? && TextIn(MergeAll(ds).value, slot) == TextIn(ds[k], slot)
    decreases |ds|
  {
    hide MergeAll, MergeBoth, TextIn;
    var n := |ds| - 1;
    MergedLast(ds, slot);
    if k < n { LastTextWins(ds[..n], slot, k); }
  }

  lemma {:induction false} MergedLast(ds: seq<Decision>, slot: TextSlot)
    requires ds != []
    ensures var before, last := MergeAll(ds[..|ds| - 1]), TextIn(ds[|ds| - 1], slot);
            && MergeAll(ds).Some?
            && TextIn(MergeAll(ds).value, slot) == if last != "" || before.None? then last else TextIn(before.value, slot)
  {
  }
}
