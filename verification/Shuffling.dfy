/**
 The Fisher-Yates shuffle that the routing selector runs over its weight-expanded
 candidate list, and how often each outcome occurs among all the index choices the
 random generator can make.
 */
module Shuffling {

  /** `c[i]` is the index drawn for position i; the generator draws it below i + 1. */
  predicate IsChoice(c: seq<nat>) {
    forall i | 0 <= i < |c| :: c[i] <= i
  }

  /** What is left to shuffle once element j has been swapped to the end. */
  function Rest<T>(w: seq<T>, j: nat): (r: seq<T>)
    requires j < |w|
    ensures |r| == |w| - 1
  {
    var n := |w| - 1;
    if j == n then w[..n] else w[..n][j := w[n]]
  }

  /** The order the shuffle leaves, positions settled from the last to the first. */
  function Shuffled<T>(w: seq<T>, c: seq<nat>): (r: seq<T>)
    requires |c| == |w| && IsChoice(c)
    ensures |r| == |w|
    decreases |w|
  {
    if |w| == 0 then []
    else
      var n := |w| - 1;
      Shuffled(Rest(w, c[n]), c[..n]) + [w[c[n]]]
  }

  /** The final order, when positions above i are already settled in w. */
  ghost function Settling<T>(w: seq<T>, c: seq<nat>, i: nat): (r: seq<T>)
    requires |c| == |w| && IsChoice(c) && i < |w|
  {
    Shuffled(w[..i + 1], c[..i + 1]) + w[i + 1..]
  }

  lemma {:induction false} SettleOne<T>(w: seq<T>, c: seq<nat>, i: nat, v: seq<T>)
    requires |c| == |w| && IsChoice(c) && 0 < i < |w|
    requires v == w[i := w[c[i]]][c[i] := w[i]]
    ensures Settling(w, c, i) == Settling(v, c, i - 1)
  {
    var j := c[i];
    assert Rest(w[..i + 1], j) == v[..i];
    assert c[..i + 1][..i] == c[..i];
    assert [w[j]] + w[i + 1..] == v[i..];
  }

  lemma {:induction false} SettledAll<T>(w: seq<T>, c: seq<nat>)
    requires |c| == |w| > 0 && IsChoice(c)
    ensures Settling(w, c, 0) == w
  {
    assert w[..1] == [w[0]] && w == w[..1] + w[1..];
  }

  // ---------------------------------------------------------------- permutation

  lemma {:induction false} ShuffledSplit<T>(w: seq<T>, c: seq<nat>)
    requires |c| == |w| > 0 && IsChoice(c)
    ensures var n := |w| - 1;
            && IsChoice(c[..n])
            && Shuffled(w, c)[n] == w[c[n]]
            && Shuffled(w, c)[..n] == Shuffled(Rest(w, c[n]), c[..n])
  {
  }

  lemma {:induction false} RestMultiset<T>(w: seq<T>, j: nat)
    requires j < |w|
    ensures multiset(Rest(w, j)) + multiset{w[j]} == multiset(w)
  {
    var n := |w| - 1;
    assert w == w[..n] + [w[n]];
  }

  lemma {:induction false} ShuffledIsPermutation<T>(w: seq<T>, c: seq<nat>)
    requires |c| == |w| && IsChoice(c)
    ensures multiset(Shuffled(w, c)) == multiset(w)
    decreases |w|
  {
    if |w| > 0 {
      var n := |w| - 1;
      ShuffledIsPermutation(Rest(w, c[n]), c[..n]);
      RestMultiset(w, c[n]);
    }
  }

  ghost predicate Distinct<T(!new)>(w: seq<T>) {
    forall i, j | 0 <= i < j < |w| :: w[i] != w[j]
  }

  /**
   Two different choice vectors never give the same order. With `ChoiceCount` this
   makes the shuffle a bijection between the n! choice vectors and the n! orders.
   */
  lemma {:induction false} DistinctChoicesDistinctOrders<T(!new)>(w: seq<T>, c: seq<nat>, d: seq<nat>)
    requires |c| == |d| == |w| && IsChoice(c) && IsChoice(d)
    requires Distinct(w)
    requires Shuffled(w, c) == Shuffled(w, d)
    ensures c == d
    decreases |w|
  {
    if |w| == 0 { return; }
    var n := |w| - 1;
    ShuffledSplit(w, c);
    ShuffledSplit(w, d);
    var j := c[n];
    assert d[n] == j by { SameElement(w, j, d[n]); }
    RestDistinct(w, j);
    DistinctChoicesDistinctOrders(Rest(w, j), c[..n], d[..n]);
    SameSplit(c, d, n);
  }

  lemma {:induction false} SameElement<T(!new)>(w: seq<T>, i: nat, j: nat)
    requires Distinct(w) && i < |w| && j < |w| && w[i] == w[j]
    ensures i == j
  {
  }

  lemma {:induction false} SameSplit(c: seq<nat>, d: seq<nat>, n: nat)
    requires |c| == |d| == n + 1 && c[..n] == d[..n] && c[n] == d[n]
    ensures c == d
  {
    assert c == c[..n] + [c[n]] && d == d[..n] + [d[n]];
  }

  lemma {:induction false} RestDistinct<T(!new)>(w: seq<T>, j: nat)
    requires j < |w| && Distinct(w)
    ensures Distinct(Rest(w, j))
  {
  }

  // ------------------------------------------------------------------- counting

  function Factorial(n: nat): (r: nat)
    ensures r > 0
  {
    if n == 0 then 1 else n * Factorial(n - 1)
  }

  /** Every choice vector of length n. */
  ghost function Choices(n: nat): (r: set<seq<nat>>) {
    if n == 0 then {[]} else set c, j: nat | c in Choices(n - 1) && j < n :: c + [j]
  }

  lemma {:induction false} InChoices(c: seq<nat>, n: nat)
    ensures c in Choices(n) <==> |c| == n && IsChoice(c)
    decreases n
  {
    if n > 0 {
      if c in Choices(n) {
        var d, j: nat :| d in Choices(n - 1) && j < n && c == d + [j];
        InChoices(d, n - 1);
      }
      if |c| == n && IsChoice(c) {
        InChoices(c[..n - 1], n - 1);
        assert c == c[..n - 1] + [c[n - 1]];
      }
    }
  }

  /** How many elements of w satisfy good. */
  ghost function Count<T>(w: seq<T>, good: T -> bool): (r: nat)
    ensures r <= |w|
  {
    if |w| == 0 then 0
    else Count(w[..|w| - 1], good) + Bit(good(w[|w| - 1]))
  }

  function Bit(b: bool): nat { if b then 1 else 0 }

  lemma {:induction false} CountUpdate<T>(w: seq<T>, i: nat, x: T, good: T -> bool)
    requires i < |w|
    ensures Count(w[i := x], good) == Count(w, good) - Bit(good(w[i])) + Bit(good(x))
  {
    var n := |w| - 1;
    if i < n {
      CountUpdate(w[..n], i, x, good);
      assert w[i := x][..n] == w[..n][i := x];
    } else {
      assert w[i := x][..n] == w[..n];
    }
  }

  lemma {:induction false} CountSplit<T>(w: seq<T>, good: T -> bool)
    requires w != []
    ensures Count(w, good) == Count(w[..|w| - 1], good) + Bit(good(w[|w| - 1]))
  {
  }

  lemma {:induction false} CountRest<T>(w: seq<T>, j: nat, good: T -> bool)
    requires j < |w|
    ensures Count(Rest(w, j), good) == Count(w, good) - Bit(good(w[j]))
  {
    var n := |w| - 1;
    var init := w[..n];
    CountSplit(w, good);
    if j < n {
      assert init[j] == w[j];
      CountUpdate(init, j, w[n], good);
    }
  }

  lemma {:induction false} CountAll<T>(w: seq<T>, good: T -> bool)
    requires forall x | x in w :: good(x)
    ensures Count(w, good) == |w|
  {
    if |w| > 0 { CountAll(w[..|w| - 1], good); }
  }

  /** c is a choice vector for w and puts a good element at position p. */
  ghost predicate Lands<T>(w: seq<T>, c: seq<nat>, p: nat, good: T -> bool) {
    |c| == |w| && IsChoice(c) && p < |w| && good(Shuffled(w, c)[p])
  }

  /** A choice that lands at an earlier position lands there in what is left. */
  lemma {:induction false} LandsEarlier<T>(w: seq<T>, d: seq<nat>, j: nat, p: nat, good: T -> bool)
    requires p < |w| - 1 && j < |w|
    ensures Lands(w, d + [j], p, good) <==> Lands(Rest(w, j), d, p, good)
  {
    var c := d + [j];
    if |c| == |w| {
      var n := |w| - 1;
      assert c[..n] == d && c[n] == j;
      if IsChoice(d) { assert IsChoice(c); }
      if IsChoice(c) {
        ShuffledSplit(w, c);
        assert Shuffled(w, c)[..n][p] == Shuffled(w, c)[p];
      }
    }
  }

  /** At the last position the drawn element decides. */
  lemma {:induction false} LandsLast<T>(w: seq<T>, d: seq<nat>, j: nat, good: T -> bool)
    requires j < |w|
    ensures Lands(w, d + [j], |w| - 1, good) <==> |d| == |w| - 1 && IsChoice(d) && good(w[j])
  {
    var c := d + [j];
    if |c| == |w| {
      var n := |w| - 1;
      assert c[..n] == d && c[n] == j;
      if IsChoice(d) { assert IsChoice(c); }
      if IsChoice(c) { ShuffledSplit(w, c); }
    }
  }

  /** The choice vectors that put a good element at position p. */
  ghost function Favourable<T>(w: seq<T>, p: nat, good: T -> bool): (r: set<seq<nat>>) {
    set c | c in Choices(|w|) && Lands(w, c, p, good)
  }

  /** ... of which these draw below m for the last position, */
  ghost function FavourableBelow<T>(w: seq<T>, p: nat, good: T -> bool, m: nat): (r: set<seq<nat>>) {
    set c | c in Favourable(w, p, good) && |c| > 0 && c[|c| - 1] < m
  }

  /** ... and these draw exactly j. */
  ghost function FavourableAt<T>(w: seq<T>, p: nat, good: T -> bool, j: nat): (r: set<seq<nat>>) {
    set c | c in Favourable(w, p, good) && |c| > 0 && c[|c| - 1] == j
  }

  ghost function Extend(s: set<seq<nat>>, j: nat): set<seq<nat>> {
    set c | c in s :: c + [j]
  }

  lemma {:induction false} ExtendSize(s: set<seq<nat>>, j: nat)
    ensures |Extend(s, j)| == |s|
  {
    if s == {} {
      assert Extend(s, j) == {};
    } else {
      var c :| c in s;
      ExtendSize(s - {c}, j);
      assert Extend(s, j) == Extend(s - {c}, j) + {c + [j]};
      forall d | d in s - {c} ensures d + [j] != c + [j] {
        assert (d + [j])[..|d|] == d && (c + [j])[..|c|] == c;
      }
    }
  }

  lemma {:induction false} SliceEarlier<T>(w: seq<T>, p: nat, good: T -> bool, j: nat)
    requires p < |w| - 1 && j < |w|
    ensures FavourableAt(w, p, good, j) == Extend(Favourable(Rest(w, j), p, good), j)
  {
    var s, t := FavourableAt(w, p, good, j), Favourable(Rest(w, j), p, good);
    forall c | c in s ensures c in Extend(t, j) {
      var d := c[..|c| - 1];
      assert c == d + [j];
      LandsEarlier(w, d, j, p, good);
      InChoices(d, |w| - 1);
      assert d in t;
    }
    forall d | d in t ensures d + [j] in s {
      LandsEarlier(w, d, j, p, good);
      InChoices(d + [j], |w|);
    }
  }

  lemma {:induction false} SliceLast<T>(w: seq<T>, good: T -> bool, j: nat)
    requires j < |w|
    ensures FavourableAt(w, |w| - 1, good, j) ==
            if good(w[j]) then Extend(Choices(|w| - 1), j) else {}
  {
    var s, t := FavourableAt(w, |w| - 1, good, j), Choices(|w| - 1);
    forall c | c in s ensures c in Extend(t, j) && good(w[j]) {
      var d := c[..|c| - 1];
      assert c == d + [j];
      LandsLast(w, d, j, good);
      InChoices(d, |w| - 1);
      assert d in t;
    }
    forall d | d in t && good(w[j]) ensures d + [j] in s {
      InChoices(d, |w| - 1);
      LandsLast(w, d, j, good);
      InChoices(d + [j], |w|);
    }
  }

  lemma {:induction false} BelowAll<T>(w: seq<T>, p: nat, good: T -> bool)
    requires |w| > 0
    ensures FavourableBelow(w, p, good, |w|) == Favourable(w, p, good)
  {
  }

  function Sum(sizes: seq<nat>): nat {
    if sizes == [] then 0 else Sum(sizes[..|sizes| - 1]) + sizes[|sizes| - 1]
  }

  /** The vectors that draw below m split by what exactly they draw. */
  lemma {:induction false} BelowIsSum<T>(w: seq<T>, p: nat, good: T -> bool, sizes: seq<nat>)
    requires forall j | 0 <= j < |sizes| :: sizes[j] == |FavourableAt(w, p, good, j)|
    ensures |FavourableBelow(w, p, good, |sizes|)| == Sum(sizes)
    decreases |sizes|
  {
    if sizes == [] {
      assert FavourableBelow(w, p, good, 0) == {};
    } else {
      var m := |sizes| - 1;
      BelowIsSum(w, p, good, sizes[..m]);
      BelowStep(w, p, good, m);
    }
  }

  lemma {:induction false} BelowStep<T>(w: seq<T>, p: nat, good: T -> bool, m: nat)
    ensures |FavourableBelow(w, p, good, m + 1)| ==
            |FavourableBelow(w, p, good, m)| + |FavourableAt(w, p, good, m)|
  {
    var a, b := FavourableBelow(w, p, good, m), FavourableAt(w, p, good, m);
    assert FavourableBelow(w, p, good, m + 1) == a + b;
    assert a !! b;
  }

  /** How many favourable vectors draw each index for the last position. */
  ghost function Sizes<T>(w: seq<T>, p: nat, good: T -> bool): (r: seq<nat>)
    ensures |r| == |w| && forall j | 0 <= j < |w| :: r[j] == |FavourableAt(w, p, good, j)|
  {
    seq(|w|, j requires 0 <= j => |FavourableAt(w, p, good, j)|)
  }

  lemma {:induction false} FavourableIsSum<T>(w: seq<T>, p: nat, good: T -> bool)
    requires w != []
    ensures |Favourable(w, p, good)| == Sum(Sizes(w, p, good))
  {
    BelowIsSum(w, p, good, Sizes(w, p, good));
    BelowAll(w, p, good);
  }

  lemma {:induction false} SumLast<T>(w: seq<T>, good: T -> bool, sizes: seq<nat>, f: nat)
    requires |sizes| <= |w|
    requires forall j | 0 <= j < |sizes| :: sizes[j] == Times(Bit(good(w[j])), f)
    ensures Sum(sizes) == Times(Count(w[..|sizes|], good), f)
    decreases |sizes|
  {
    if sizes != [] {
      var m := |sizes| - 1;
      SumLast(w, good, sizes[..m], f);
      CountPrefix(w, m + 1, good);
      TimesAdd(Count(w[..m], good), Bit(good(w[m])), f);
    }
  }

  lemma {:induction false} SumEarlier<T>(w: seq<T>, good: T -> bool, sizes: seq<nat>, k: nat, f: nat)
    requires |sizes| <= |w|
    requires forall j | 0 <= j < |sizes| :: Bit(good(w[j])) <= k && sizes[j] == Times(k - Bit(good(w[j])), f)
    ensures Count(w[..|sizes|], good) <= Times(|sizes|, k)
    ensures Sum(sizes) == Times(Times(|sizes|, k) - Count(w[..|sizes|], good), f)
    decreases |sizes|
  {
    if sizes != [] {
      var m := |sizes| - 1;
      SumEarlier(w, good, sizes[..m], k, f);
      CountPrefix(w, m + 1, good);
      TimesStep(m + 1, k, Count(w[..m], good), Bit(good(w[m])), Count(w[..m + 1], good), f);
    }
  }

  /** k copies of f added up; the proofs below count with it and leave products to `TimesIs`. */
  ghost function Times(k: nat, f: nat): (r: nat)
    decreases k
  {
    if k == 0 then 0 else f + Times(k - 1, f)
  }

  lemma {:induction false} TimesIs(k: nat, f: nat)
    ensures Times(k, f) == k * f
    decreases k
  {
    if k > 0 {
      TimesIs(k - 1, f);
      assert k * f == (k - 1) * f + f;
    }
  }

  lemma {:induction false} TimesAdd(a: nat, b: nat, f: nat)
    ensures Times(a + b, f) == Times(a, f) + Times(b, f)
    decreases a
  {
    if a > 0 { TimesAdd(a - 1, b, f); }
  }

  lemma {:induction false} SliceLastSize<T>(w: seq<T>, good: T -> bool, j: nat)
    requires j < |w|
    ensures |FavourableAt(w, |w| - 1, good, j)| == Times(Bit(good(w[j])), |Choices(|w| - 1)|)
  {
    SliceLast(w, good, j);
    ExtendSize(Choices(|w| - 1), j);
    assert Times(1, |Choices(|w| - 1)|) == |Choices(|w| - 1)|;
  }

  lemma {:induction false} CountPrefix<T>(w: seq<T>, m: nat, good: T -> bool)
    requires 0 < m <= |w|
    ensures Count(w[..m], good) == Count(w[..m - 1], good) + Bit(good(w[m - 1]))
  {
    CountSplit(w[..m], good);
    assert w[..m][..m - 1] == w[..m - 1];
  }

  lemma {:induction false} CountLast<T>(w: seq<T>, good: T -> bool)
    requires w != []
    ensures |Favourable(w, |w| - 1, good)| == Times(Count(w, good), |Choices(|w| - 1)|)
  {
    var sizes := Sizes(w, |w| - 1, good);
    FavourableIsSum(w, |w| - 1, good);
    forall j | 0 <= j < |w| ensures sizes[j] == Times(Bit(good(w[j])), |Choices(|w| - 1)|) {
      SliceLastSize(w, good, j);
    }
    SumLast(w, good, sizes, |Choices(|w| - 1)|);
    assert w[..|w|] == w;
  }

  lemma {:induction false} ChoiceStep(n: nat)
    requires n > 0
    ensures |Choices(n)| == Times(n, |Choices(n - 1)|)
  {
    var w, all := seq(n, i => 0), (x: int) => true;
    CountLast(w, all);
    CountAll(w, all);
    forall c | c in Choices(n) ensures Lands(w, c, n - 1, all) { InChoices(c, n); }
    assert Favourable(w, n - 1, all) == Choices(n);
  }

  /** There are n! choice vectors of length n. */
  lemma {:induction false} ChoiceCount(n: nat)
    ensures |Choices(n)| == Factorial(n)
  {
    if n == 0 {
      assert Choices(0) == {[]};
    } else {
      ChoiceCount(n - 1);
      ChoiceStep(n);
      TimesIs(n, Factorial(n - 1));
    }
  }

  lemma {:induction false} SliceEarlierSize<T>(w: seq<T>, p: nat, good: T -> bool, j: nat, k: nat, f: nat)
    requires p < |w| - 1 && j < |w| && k == Count(w, good) && f == |Choices(|w| - 2)|
    ensures Bit(good(w[j])) <= k
    ensures |FavourableAt(w, p, good, j)| == Times(k - Bit(good(w[j])), f)
    decreases |w|, 0
  {
    hide *;
    SliceEarlier(w, p, good, j);
    ExtendSize(Favourable(Rest(w, j), p, good), j);
    PositionTimes(Rest(w, j), p, good);
    CountRest(w, j, good);
  }

  lemma {:induction false} TimesStep(m: nat, k: nat, before: nat, bit: nat, now: nat, f: nat)
    requires m > 0 && bit <= k && before <= Times(m - 1, k) && now == before + bit
    ensures now <= Times(m, k)
    ensures Times(Times(m - 1, k) - before, f) + Times(k - bit, f) == Times(Times(m, k) - now, f)
  {
    TimesAdd(Times(m - 1, k) - before, k - bit, f);
  }

  lemma {:induction false} TimesTimes(a: nat, b: nat, f: nat)
    ensures Times(Times(a, b), f) == Times(b, Times(a, f))
    decreases b
  {
    TimesIs(a, b);
    TimesIs(a, f);
    TimesIs(Times(a, b), f);
    TimesIs(b, Times(a, f));
    Reorder(a, b, f);
  }

  lemma {:induction false} Reorder(a: nat, b: nat, f: nat)
    ensures (a * b) * f == b * (a * f)
  {
  }

  lemma {:induction false} SumAllEarlier<T>(w: seq<T>, good: T -> bool, sizes: seq<nat>, k: nat, f: nat)
    requires |sizes| == |w| && k == Count(w, good)
    requires forall j | 0 <= j < |w| :: Bit(good(w[j])) <= k && sizes[j] == Times(k - Bit(good(w[j])), f)
    ensures k <= Times(|w|, k)
    ensures Sum(sizes) == Times(Times(|w|, k) - k, f)
  {
    SumEarlier(w, good, sizes, k, f);
    assert w[..|w|] == w;
  }

  lemma {:induction false} SizesEarlier<T>(w: seq<T>, p: nat, good: T -> bool, k: nat, f: nat)
    requires p < |w| - 1 && k == Count(w, good) && f == |Choices(|w| - 2)|
    ensures forall j | 0 <= j < |w| ::
              Bit(good(w[j])) <= k && Sizes(w, p, good)[j] == Times(k - Bit(good(w[j])), f)
    decreases |w|, 1
  {
    forall j | 0 <= j < |w|
      ensures Bit(good(w[j])) <= k && Sizes(w, p, good)[j] == Times(k - Bit(good(w[j])), f)
    {
      SliceEarlierSize(w, p, good, j, k, f);
    }
  }

  lemma {:induction false} CountEarlier<T>(w: seq<T>, p: nat, good: T -> bool, k: nat, f: nat)
    requires p < |w| - 1 && k == Count(w, good) && f == |Choices(|w| - 2)|
    ensures k <= Times(|w|, k)
    ensures |Favourable(w, p, good)| == Times(Times(|w|, k) - k, f)
    decreases |w|, 2
  {
    FavourableIsSum(w, p, good);
    SizesEarlier(w, p, good, k, f);
    SumAllEarlier(w, good, Sizes(w, p, good), k, f);
  }

  lemma {:induction false} PositionTimes<T>(w: seq<T>, p: nat, good: T -> bool)
    requires p < |w|
    ensures |Favourable(w, p, good)| == Times(Count(w, good), |Choices(|w| - 1)|)
    decreases |w|, 3
  {
    if p == |w| - 1 {
      CountLast(w, good);
    } else {
      CountEarlier(w, p, good, Count(w, good), |Choices(|w| - 2)|);
      TimesTimes(|w| - 1, Count(w, good), |Choices(|w| - 2)|);
      ChoiceStep(|w| - 1);
    }
  }

  /**
   The shuffle is exactly fair: for every list, every position and every property, the
   number of choice vectors that put an element with the property at the position is
   the number of such elements times (n - 1)!, out of n! choice vectors in all.
   */
  lemma {:induction false} PositionCount<T>(w: seq<T>, p: nat, good: T -> bool)
    requires p < |w|
    ensures |Favourable(w, p, good)| == Count(w, good) * Factorial(|w| - 1)
  {
    PositionTimes(w, p, good);
    ChoiceCount(|w| - 1);
    TimesIs(Count(w, good), Factorial(|w| - 1));
  }
}
