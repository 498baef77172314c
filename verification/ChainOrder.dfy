/**
 How often the seeded shuffle gives each whole fallback order: the distribution of the chain, not
 only of its head. Lists are endpoint names here; the last section carries the result to members.
 */
module ChainOrder {
  import opened Common
  import opened Shuffling
  import opened Routing

  /** The names in order of their first occurrence. */
  ghost function Firsts(s: seq<string>): seq<string> {
    if s == [] then []
    else
      var n := |s| - 1;
      Firsts(s[..n]) + (if s[n] in s[..n] then [] else [s[n]])
  }

  lemma {:induction false} FirstsAppend(s: seq<string>, x: string)
    ensures Firsts(s + [x]) == Firsts(s) + (if x in s then [] else [x])
  {
    assert (s + [x])[..|s|] == s;
  }

  /** The choice vectors whose shuffle of w first mentions the names in this order. */
  ghost function Orderings(w: seq<string>, order: seq<string>): set<seq<nat>> {
    set c | c in Choices(|w|) && Gives(w, c, order)
  }

  ghost predicate Gives(w: seq<string>, c: seq<nat>, order: seq<string>) {
    |c| == |w| && IsChoice(c) && Firsts(Shuffled(w, c)) == order
  }

  // ------------------------------------------------------------- slicing by the last draw

  ghost function Ending(s: set<seq<nat>>, j: nat): set<seq<nat>> {
    set c | c in s && |c| > 0 && c[|c| - 1] == j
  }

  ghost function EndingBelow(s: set<seq<nat>>, m: nat): set<seq<nat>> {
    set c | c in s && |c| > 0 && c[|c| - 1] < m
  }

  lemma {:induction false} EndingStep(s: set<seq<nat>>, m: nat)
    ensures |EndingBelow(s, m + 1)| == |EndingBelow(s, m)| + |Ending(s, m)|
  {
    assert EndingBelow(s, m + 1) == EndingBelow(s, m) + Ending(s, m);
    assert EndingBelow(s, m) !! Ending(s, m);
  }

  lemma {:induction false} EndingAll(w: seq<string>, order: seq<string>)
    requires w != []
    ensures EndingBelow(Orderings(w, order), |w|) == Orderings(w, order)
  {
  }

  /** The order the rest has to give when j is drawn for the last position, if any can. */
  ghost function Before(w: seq<string>, order: seq<string>, j: nat): set<seq<nat>>
    requires j < |w|
  {
    var rest := Rest(w, j);
    if w[j] in rest then Orderings(rest, order)
    else if order != [] && order[|order| - 1] == w[j] then Orderings(rest, order[..|order| - 1])
    else {}
  }

  lemma {:induction false} ShuffledHas(w: seq<string>, c: seq<nat>, x: string)
    requires |c| == |w| && IsChoice(c)
    ensures x in Shuffled(w, c) <==> x in w
  {
    ShuffledIsPermutation(w, c);
    assert x in Shuffled(w, c) <==> x in multiset(Shuffled(w, c));
    assert x in w <==> x in multiset(w);
  }

  lemma {:induction false} SnocIs(a: seq<string>, x: string, order: seq<string>)
    ensures a + [x] == order <==> order != [] && order[|order| - 1] == x && a == order[..|order| - 1]
  {
    if order != [] { assert order == order[..|order| - 1] + [order[|order| - 1]]; }
    assert (a + [x])[..|a|] == a && (a + [x])[|a|] == x;
  }

  lemma {:induction false} GivesLast(w: seq<string>, d: seq<nat>, j: nat, order: seq<string>)
    requires j < |w|
    ensures Gives(w, d + [j], order) <==>
            if w[j] in Rest(w, j) then Gives(Rest(w, j), d, order)
            else order != [] && order[|order| - 1] == w[j] && Gives(Rest(w, j), d, order[..|order| - 1])
  {
    var c, rest := d + [j], Rest(w, j);
    if |d| == |rest| && IsChoice(d) {
      assert c[..|d|] == d && c[|d|] == j && IsChoice(c);
      ShuffledSnoc(w, d, j);
      ShuffledHas(rest, d, w[j]);
      FirstsAppend(Shuffled(rest, d), w[j]);
      assert Firsts(Shuffled(rest, d)) + [] == Firsts(Shuffled(rest, d));
      SnocIs(Firsts(Shuffled(rest, d)), w[j], order);
    } else if |c| == |w| && IsChoice(c) {
      assert forall i | 0 <= i < |d| :: d[i] == c[i];
      assert false;
    }
  }

  lemma {:induction false} ShuffledSnoc(w: seq<string>, d: seq<nat>, j: nat)
    requires j < |w| && |d| == |w| - 1 && IsChoice(d) && IsChoice(d + [j])
    ensures Shuffled(w, d + [j]) == Shuffled(Rest(w, j), d) + [w[j]]
  {
    var c := d + [j];
    assert c[..|d|] == d && c[|d|] == j;
    ShuffledSplit(w, c);
  }

  lemma {:induction false} SliceIs(w: seq<string>, order: seq<string>, j: nat)
    requires j < |w|
    ensures Ending(Orderings(w, order), j) == Extend(Before(w, order, j), j)
  {
    var s, t := Orderings(w, order), Before(w, order, j);
    forall c | c in Ending(s, j) ensures c in Extend(t, j) {
      var d := c[..|c| - 1];
      assert c == d + [j];
      GivesLast(w, d, j, order);
      InChoices(d, |w| - 1);
      assert d in t;
    }
    forall d | d in t ensures d + [j] in Ending(s, j) {
      InChoices(d, |w| - 1);
      GivesLast(w, d, j, order);
      InChoices(d + [j], |w|);
    }
  }

  // ------------------------------------------------------------------------- numbers

  function TotalFrom(ks: seq<nat>, q: nat := 0): nat
    requires q <= |ks|
    decreases |ks| - q
  {
    if q == |ks| then 0 else ks[q] + TotalFrom(ks, q + 1)
  }

  function Share(k: nat, total: nat): real
    requires total > 0
  {
    k as real / total as real
  }

  /** The chance of drawing the names from q on in this order, each time among those not drawn yet. */
  function Odds(ks: seq<nat>, q: nat := 0): real
    requires q <= |ks|
    decreases |ks| - q
  {
    if q == |ks| || TotalFrom(ks, q) == 0 then 1.0 else Share(ks[q], TotalFrom(ks, q)) * Odds(ks, q + 1)
  }

  predicate Positive(ks: seq<nat>) { forall i | 0 <= i < |ks| :: ks[i] > 0 }

  /** One entry fewer of name p. */
  function Less(ks: seq<nat>, p: nat): (r: seq<nat>)
    requires p < |ks| && ks[p] > 0
    ensures |r| == |ks|
  {
    ks[p := ks[p] - 1]
  }

  lemma {:induction false} TotalLess(ks: seq<nat>, p: nat, q: nat)
    requires p < |ks| && ks[p] > 0 && q <= |ks|
    ensures TotalFrom(ks, q) == TotalFrom(Less(ks, p), q) + (if q <= p then 1 else 0)
    decreases |ks| - q
  {
    if q < |ks| { TotalLess(ks, p, q + 1); }
  }

  lemma {:induction false} OddsBehind(ks: seq<nat>, p: nat, q: nat)
    requires p < |ks| && ks[p] > 0 && p < q <= |ks|
    ensures Odds(Less(ks, p), q) == Odds(ks, q)
    decreases |ks| - q
  {
    TotalLess(ks, p, q);
    if q < |ks| { OddsBehind(ks, p, q + 1); }
  }

  lemma {:induction false} TotalPositive(ks: seq<nat>, q: nat)
    requires Positive(ks) && q < |ks|
    ensures TotalFrom(ks, q) > 0 && (q + 1 < |ks| ==> TotalFrom(ks, q) > 1)
    decreases |ks| - q
  {
    if q + 1 < |ks| { TotalPositive(ks, q + 1); }
  }

  /** Entry i of os is the odds from q on with one entry fewer of name i. */
  ghost predicate AreOddsLess(ks: seq<nat>, q: nat, os: seq<real>)
    requires Positive(ks) && q <= |ks|
  {
    |os| == |ks| && forall i | 0 <= i < |ks| :: os[i] == Odds(Less(ks, i), q)
  }

  lemma {:induction false} OddsLessOf(ks: seq<nat>, q: nat) returns (os: seq<real>)
    requires Positive(ks) && q <= |ks|
    ensures AreOddsLess(ks, q, os)
  {
    os := seq(|ks|, i requires 0 <= i < |ks| => Odds(Less(ks, i), q));
  }

  function Dot(ks: seq<nat>, xs: seq<real>, q: nat := 0): real
    requires |ks| == |xs| && q <= |ks|
    decreases |ks| - q
  {
    if q == |ks| then 0.0 else ks[q] as real * xs[q] + Dot(ks, xs, q + 1)
  }

  lemma {:induction false} DotScale(ks: seq<nat>, xs: seq<real>, x: real, ys: seq<real>, q: nat)
    requires |ks| == |xs| == |ys| && q <= |ks| && forall i | q <= i < |ks| :: ys[i] == x * xs[i]
    ensures Dot(ks, ys, q) == x * Dot(ks, xs, q)
    decreases |ks| - q
  {
    if q < |ks| {
      DotScale(ks, xs, x, ys, q + 1);
      Distribute(x, ks[q] as real, xs[q], Dot(ks, xs, q + 1));
    }
  }

  lemma {:induction false} Distribute(x: real, k: real, y: real, rest: real)
    ensures k * (x * y) + x * rest == x * (k * y + rest)
  {
  }

  /** Behind q, one entry fewer scales the odds from q on by the same factor. */
  lemma {:induction false} OddsAhead(ks: seq<nat>, p: nat, q: nat, x: real)
    requires Positive(ks) && q < p < |ks| && TotalFrom(ks, q) > 1 && x == Share(ks[q], TotalFrom(ks, q) - 1)
    ensures Odds(Less(ks, p), q) == x * Odds(Less(ks, p), q + 1)
  {
    TotalLess(ks, p, q);
  }

  lemma {:induction false} OddsHere(ks: seq<nat>, q: nat)
    requires Positive(ks) && q < |ks| && TotalFrom(ks, q) > 1
    ensures Odds(Less(ks, q), q) == Share(ks[q] - 1, TotalFrom(ks, q) - 1) * Odds(ks, q + 1)
  {
    TotalLess(ks, q, q);
    OddsBehind(ks, q, q + 1);
  }

  lemma {:induction false} MixArithmetic(a: nat, t: nat, rest: nat, o: real)
    requires t > 1 && 0 < a && rest + a == t
    ensures a as real * (Share(a - 1, t - 1) * o) + Share(a, t - 1) * (rest as real * o) == t as real * (Share(a, t) * o)
  {
    var x, b, c := Share(a, t - 1), a as real, (t - 1) as real;
    assert x * c == b;
    assert t as real * Share(a, t) == b;
    ShareProduct(a, t - 1);
    Reassociate(b, Share(a - 1, t - 1), o);
    Reassociate(t as real, Share(a, t), o);
    Reassociate(x, rest as real, o);
    Gather(x, b, rest as real, c, o);
  }

  lemma {:induction false} ShareProduct(a: nat, n: nat)
    requires n > 0 && a > 0
    ensures a as real * Share(a - 1, n) == Share(a, n) * (a - 1) as real
  {
    Quotients(a as real, (a - 1) as real, n as real);
  }

  lemma {:induction false} Quotients(a: real, b: real, n: real)
    requires n > 0.0
    ensures a * (b / n) == a / n * b
  {
    var x, y := a / n, b / n;
    assert x * n == a && y * n == b;
    assert (x * n) * y == x * (y * n);
  }

  lemma {:induction false} Reassociate(a: real, b: real, c: real)
    ensures a * (b * c) == (a * b) * c
  {
  }

  lemma {:induction false} Gather(x: real, b: real, tail: real, c: real, o: real)
    requires x * c == b && c == b - 1.0 + tail
    ensures x * (b - 1.0) * o + x * tail * o == b * o
  {
    assert x * (b - 1.0) + x * tail == x * c;
    assert (x * (b - 1.0)) * o + (x * tail) * o == (x * (b - 1.0) + x * tail) * o;
  }

  /** Averaging the odds over which entry is drawn last gives the odds again. */
  lemma {:induction false} Mix(ks: seq<nat>, q: nat, os: seq<real>)
    requires Positive(ks) && q < |ks| && AreOddsLess(ks, q, os)
    ensures Dot(ks, os, q) == TotalFrom(ks, q) as real * Odds(ks, q)
    decreases |ks| - q
  {
    hide Odds, Dot, Share, TotalFrom;
    TotalPositive(ks, q);
    if q + 1 == |ks| {
      MixLast(ks, os);
    } else {
      var next := OddsLessOf(ks, q + 1);
      Mix(ks, q + 1, next);
      MixTail(ks, q, os, next, Share(ks[q], TotalFrom(ks, q) - 1));
      MixJoin(ks, q, os);
    }
  }

  lemma {:induction false} MixTail(ks: seq<nat>, q: nat, os: seq<real>, next: seq<real>, x: real)
    requires Positive(ks) && q + 1 < |ks| && AreOddsLess(ks, q, os) && AreOddsLess(ks, q + 1, next)
    requires TotalFrom(ks, q) > 1 && x == Share(ks[q], TotalFrom(ks, q) - 1)
    ensures Dot(ks, os, q + 1) == x * Dot(ks, next, q + 1)
  {
    hide Odds, Dot, Share, TotalFrom;
    AllAhead(ks, q, os, next, x);
    DotScale(ks, next, x, os, q + 1);
  }

  lemma {:induction false} AllAhead(ks: seq<nat>, q: nat, os: seq<real>, next: seq<real>, x: real)
    requires Positive(ks) && q + 1 < |ks| && AreOddsLess(ks, q, os) && AreOddsLess(ks, q + 1, next)
    requires TotalFrom(ks, q) > 1 && x == Share(ks[q], TotalFrom(ks, q) - 1)
    ensures forall i | q < i < |ks| :: os[i] == x * next[i]
  {
    hide Odds, Share, TotalFrom;
    forall i | q < i < |ks| ensures os[i] == x * next[i] { OddsAhead(ks, i, q, x); }
  }

  lemma {:induction false} MixJoin(ks: seq<nat>, q: nat, os: seq<real>)
    requires Positive(ks) && q + 1 < |ks| && AreOddsLess(ks, q, os) && TotalFrom(ks, q) > 1
    requires Dot(ks, os, q + 1) == Share(ks[q], TotalFrom(ks, q) - 1) * (TotalFrom(ks, q + 1) as real * Odds(ks, q + 1))
    ensures Dot(ks, os, q) == TotalFrom(ks, q) as real * Odds(ks, q)
  {
    hide Odds, Dot, Share, TotalFrom;
    OddsHere(ks, q);
    assert os[q] == Odds(Less(ks, q), q);
    DotHead(ks, os, q);
    OddsHead(ks, q);
    MixStep(ks[q], TotalFrom(ks, q), TotalFrom(ks, q + 1), Odds(ks, q + 1), os[q], Dot(ks, os, q + 1), Dot(ks, os, q), Odds(ks, q));
  }

  lemma {:induction false} DotHead(ks: seq<nat>, xs: seq<real>, q: nat)
    requires |ks| == |xs| && q < |ks|
    ensures Dot(ks, xs, q) == ks[q] as real * xs[q] + Dot(ks, xs, q + 1)
  {
  }

  lemma {:induction false} OddsHead(ks: seq<nat>, q: nat)
    requires q < |ks| && TotalFrom(ks, q) > 0
    ensures Odds(ks, q) == Share(ks[q], TotalFrom(ks, q)) * Odds(ks, q + 1)
    ensures TotalFrom(ks, q + 1) + ks[q] == TotalFrom(ks, q)
  {
  }

  lemma {:induction false} MixStep(a: nat, t: nat, rest: nat, o: real, head: real, tail: real, dot: real, odds: real)
    requires t > 1 && 0 < a && rest + a == t
    requires head == Share(a - 1, t - 1) * o && tail == Share(a, t - 1) * (rest as real * o)
    requires dot == a as real * head + tail && odds == Share(a, t) * o
    ensures dot == t as real * odds
  {
    MixArithmetic(a, t, rest, o);
  }

  lemma {:induction false} MixLast(ks: seq<nat>, os: seq<real>)
    requires Positive(ks) && ks != [] && AreOddsLess(ks, |ks| - 1, os)
    ensures Dot(ks, os, |ks| - 1) == TotalFrom(ks, |ks| - 1) as real * Odds(ks, |ks| - 1)
  {
    var q := |ks| - 1;
    OddsLast(ks);
    OddsLast(Less(ks, q));
    assert os[q] == 1.0;
  }

  lemma {:induction false} OddsLast(ks: seq<nat>)
    requires ks != []
    ensures TotalFrom(ks, |ks| - 1) == ks[|ks| - 1] && Odds(ks, |ks| - 1) == 1.0
  {
    var k := ks[|ks| - 1];
    assert TotalFrom(ks, |ks|) == 0;
    if k > 0 { WholeShare(k); }
  }

  lemma {:induction false} WholeShare(k: nat)
    requires k > 0
    ensures Share(k, k) == 1.0
  {
    OverItself(k as real);
  }

  lemma {:induction false} OverItself(x: real)
    requires x > 0.0
    ensures x / x == 1.0
  {
  }

  // ---------------------------------------------------------------- names and their counts

  /** order lists the names of w, each once. */
  ghost predicate Lists(order: seq<string>, w: seq<string>) {
    Distinct(order) && forall x :: x in w <==> x in order
  }

  ghost function Counts(w: seq<string>, order: seq<string>): (ks: seq<nat>)
    ensures |ks| == |order| && forall i | 0 <= i < |order| :: ks[i] == multiset(w)[order[i]]
  {
    seq(|order|, i requires 0 <= i < |order| => multiset(w)[order[i]])
  }

  lemma {:induction false} CountsPositive(w: seq<string>, order: seq<string>)
    requires Lists(order, w)
    ensures Positive(Counts(w, order))
  {
    forall i | 0 <= i < |order| ensures Counts(w, order)[i] > 0 {
      assert order[i] in order && order[i] in w && order[i] in multiset(w);
    }
  }

  /** One more entry of name i. */
  lemma {:induction false} CountsMore(w: seq<string>, v: seq<string>, order: seq<string>, i: nat)
    requires Distinct(order) && i < |order| && multiset(w) == multiset(v) + multiset{order[i]}
    ensures Counts(w, order) == Counts(v, order)[i := Counts(v, order)[i] + 1]
  {
  }

  lemma {:induction false} TotalMore(ks: seq<nat>, i: nat, q: nat)
    requires q <= i < |ks|
    ensures TotalFrom(ks[i := ks[i] + 1], q) == TotalFrom(ks, q) + 1
    decreases |ks| - q
  {
    TotalLess(ks[i := ks[i] + 1], i, q);
    assert Less(ks[i := ks[i] + 1], i) == ks;
  }

  lemma {:induction false} DotMore(ks: seq<nat>, i: nat, xs: seq<real>, q: nat)
    requires i < |ks| == |xs| && q <= |ks|
    ensures Dot(ks[i := ks[i] + 1], xs, q) == Dot(ks, xs, q) + (if q <= i then xs[i] else 0.0)
    decreases |ks| - q
  {
    if q < |ks| {
      DotMore(ks, i, xs, q + 1);
      OneMore(ks[q] as real, xs[q]);
    }
  }

  lemma {:induction false} OneMore(k: real, x: real)
    ensures (k + 1.0) * x == k * x + x
  {
  }

  lemma {:induction false} Take(w: seq<string>, m: nat)
    requires m < |w|
    ensures multiset(w[..m + 1]) == multiset(w[..m]) + multiset{w[m]}
  {
    assert w[..m + 1] == w[..m] + [w[m]];
  }

  lemma {:induction false} Find(order: seq<string>, x: string) returns (i: nat)
    requires x in order
    ensures i < |order| && order[i] == x
  {
    i :| 0 <= i < |order| && order[i] == x;
  }

  lemma {:induction false} CountsNone(order: seq<string>, xs: seq<real>, q: nat)
    requires q <= |order| == |xs|
    ensures TotalFrom(Counts([], order), q) == 0 && Dot(Counts([], order), xs, q) == 0.0
    decreases |order| - q
  {
    if q < |order| {
      CountsNone(order, xs, q + 1);
      assert Counts([], order)[q] == 0;
    }
  }

  /** The counts of a list add up to its length. */
  lemma {:induction false} CountsTotal(w: seq<string>, order: seq<string>, m: nat)
    requires Lists(order, w) && m <= |w|
    ensures TotalFrom(Counts(w[..m], order)) == m
  {
    if m == 0 {
      CountsNone(order, seq(|order|, i => 0.0), 0);
      assert w[..0] == [];
    } else {
      CountsTotal(w, order, m - 1);
      Take(w, m - 1);
      assert w[m - 1] in w;
      var i := Find(order, w[m - 1]);
      CountsMore(w[..m], w[..m - 1], order, i);
      TotalMore(Counts(w[..m - 1], order), i, 0);
    }
  }

  lemma {:induction false} OddsZero(ks: seq<nat>, i: nat, q: nat)
    requires q <= i < |ks| && ks[i] == 0 && TotalFrom(ks, i) > 0
    ensures TotalFrom(ks, q) > 0 && Odds(ks, q) == 0.0
    decreases i - q
  {
    if q < i {
      OddsZero(ks, i, q + 1);
      OddsHead(ks, q);
    } else {
      OddsHead(ks, q);
      ShareNone(TotalFrom(ks, q), Odds(ks, q + 1));
    }
  }

  lemma {:induction false} ShareNone(total: nat, o: real)
    requires total > 0
    ensures Share(0, total) * o == 0.0
  {
  }

  lemma {:induction false} OddsPad(ks: seq<nat>, q: nat)
    requires q <= |ks|
    ensures TotalFrom(ks + [0], q) == TotalFrom(ks, q) && Odds(ks + [0], q) == Odds(ks, q)
    decreases |ks| - q
  {
    if q == |ks| {
      assert TotalFrom(ks + [0], q + 1) == 0;
    } else {
      OddsPad(ks, q + 1);
      assert (ks + [0])[q] == ks[q];
    }
  }

  // ------------------------------------------------------------------------ the count

  lemma {:induction false} InRest(w: seq<string>, j: nat, x: string)
    requires j < |w|
    ensures x in w <==> x in Rest(w, j) || x == w[j]
    ensures multiset(w) == multiset(Rest(w, j)) + multiset{w[j]}
  {
    RestMultiset(w, j);
    assert x in w <==> x in multiset(w);
    assert x in Rest(w, j) <==> x in multiset(Rest(w, j));
  }

  lemma {:induction false} ListsRest(w: seq<string>, order: seq<string>, j: nat, i: nat)
    requires Lists(order, w) && j < |w| && i < |order| && order[i] == w[j]
    ensures w[j] in Rest(w, j) ==> Lists(order, Rest(w, j))
    ensures w[j] !in Rest(w, j) && i == |order| - 1 ==> Lists(order[..i], Rest(w, j))
    ensures w[j] !in Rest(w, j) && i < |order| - 1 ==> order[i + 1] in Rest(w, j)
  {
    forall x ensures x in w <==> x in Rest(w, j) || x == w[j] { InRest(w, j, x); }
    forall x ensures x in order[..i] ==> x in order && x != order[i] {
      if x in order[..i] { var k := Find(order[..i], x); }
    }
    if i == |order| - 1 { assert order == order[..i] + [order[i]]; }
    if i < |order| - 1 { assert order[i + 1] in order; }
  }

  lemma {:induction false} CountsRest(w: seq<string>, order: seq<string>, j: nat, i: nat)
    requires Lists(order, w) && j < |w| && i < |order| && order[i] == w[j]
    ensures Counts(w, order)[i] > 0 && Counts(Rest(w, j), order) == Less(Counts(w, order), i)
  {
    InRest(w, j, w[j]);
    CountsMore(w, Rest(w, j), order, i);
  }

  lemma {:induction false} CountsPad(v: seq<string>, order: seq<string>)
    requires order != [] && order[|order| - 1] !in v
    ensures Counts(v, order) == Counts(v, order[..|order| - 1]) + [0]
  {
    assert order[|order| - 1] !in multiset(v);
  }

  lemma {:induction false} TotalAt(ks: seq<nat>, i: nat, q: nat)
    requires q <= i < |ks|
    ensures ks[i] <= TotalFrom(ks, q)
    decreases i - q
  {
    if q < i { TotalAt(ks, i, q + 1); }
  }

  /** What drawing j for the last position contributes. */
  lemma {:induction false} SliceCount(w: seq<string>, order: seq<string>, j: nat, i: nat)
    requires Lists(order, w) && j < |w| && i < |order| && order[i] == w[j]
    ensures |Before(w, order, j)| as real == Factorial(|w| - 1) as real * Odds(Counts(Rest(w, j), order))
    decreases |w|, 0
  {
    hide *;
    var rest := Rest(w, j);
    ListsRest(w, order, j, i);
    BeforeIs(w, order, j, i);
    if w[j] in rest {
      OrderCount(rest, order);
    } else if i == |order| - 1 {
      OrderCount(rest, order[..i]);
      CountsPad(rest, order);
      OddsPad(Counts(rest, order[..i]), 0);
    } else {
      SliceNone(w, order, j, i);
    }
  }

  lemma {:induction false} BeforeIs(w: seq<string>, order: seq<string>, j: nat, i: nat)
    requires Lists(order, w) && j < |w| && i < |order| && order[i] == w[j]
    ensures w[j] in Rest(w, j) ==> Before(w, order, j) == Orderings(Rest(w, j), order)
    ensures w[j] !in Rest(w, j) && i == |order| - 1 ==> Before(w, order, j) == Orderings(Rest(w, j), order[..i])
  {
  }

  lemma {:induction false} SliceNone(w: seq<string>, order: seq<string>, j: nat, i: nat)
    requires Lists(order, w) && j < |w| && i < |order| - 1 && order[i] == w[j]
    requires w[j] !in Rest(w, j) && order[i + 1] in Rest(w, j)
    ensures Before(w, order, j) == {} && Odds(Counts(Rest(w, j), order)) == 0.0
  {
    var ks := Counts(Rest(w, j), order);
    assert w[j] !in multiset(Rest(w, j)) && order[i + 1] in multiset(Rest(w, j));
    TotalAt(ks, i + 1, i);
    OddsZero(ks, i, 0);
    assert order[|order| - 1] != order[i];
  }

  lemma {:induction false} SlicesCount(w: seq<string>, order: seq<string>, m: nat, os: seq<real>)
    requires Lists(order, w) && w != [] && m <= |w|
    requires |os| == |order| && forall j, i | 0 <= j < |w| && 0 <= i < |order| && order[i] == w[j] ::
                                  os[i] == Odds(Counts(Rest(w, j), order))
    ensures |EndingBelow(Orderings(w, order), m)| as real == Factorial(|w| - 1) as real * Dot(Counts(w[..m], order), os)
    decreases |w|, 2, m
  {
    hide *;
    if m == 0 {
      CountsNone(order, os, 0);
      EndingNone(Orderings(w, order));
      assert w[..0] == [];
    } else {
      SlicesCount(w, order, m - 1, os);
      EndingStep(Orderings(w, order), m - 1);
      var i := NameOf(w, order, m - 1);
      EndingCount(w, order, m - 1, i);
      DotStep(w, order, m - 1, i, os);
      AddUp(Factorial(|w| - 1) as real, Dot(Counts(w[..m - 1], order), os), os[i]);
    }
  }

  lemma {:induction false} EndingNone(s: set<seq<nat>>)
    ensures |EndingBelow(s, 0)| == 0
  {
    assert EndingBelow(s, 0) == {};
  }

  lemma {:induction false} NameOf(w: seq<string>, order: seq<string>, j: nat) returns (i: nat)
    requires Lists(order, w) && j < |w|
    ensures i < |order| && order[i] == w[j]
  {
    assert w[j] in w;
    i := Find(order, w[j]);
  }

  lemma {:induction false} EndingCount(w: seq<string>, order: seq<string>, j: nat, i: nat)
    requires Lists(order, w) && j < |w| && i < |order| && order[i] == w[j]
    ensures |Ending(Orderings(w, order), j)| as real == Factorial(|w| - 1) as real * Odds(Counts(Rest(w, j), order))
    decreases |w|, 1, 0
  {
    hide *;
    SliceCount(w, order, j, i);
    SliceIs(w, order, j);
    ExtendSize(Before(w, order, j), j);
  }

  lemma {:induction false} DotStep(w: seq<string>, order: seq<string>, j: nat, i: nat, os: seq<real>)
    requires Lists(order, w) && j < |w| && i < |order| == |os| && order[i] == w[j]
    ensures Dot(Counts(w[..j + 1], order), os) == Dot(Counts(w[..j], order), os) + os[i]
  {
    hide Dot;
    Take(w, j);
    CountsMore(w[..j + 1], w[..j], order, i);
    DotMore(Counts(w[..j], order), i, os, 0);
  }

  lemma {:induction false} AddUp(f: real, dot: real, x: real)
    ensures f * (dot + x) == f * dot + f * x
  {
  }

  /**
   Of the n! choice vectors for a list of n names exactly n! times the product of k(i) over what is
   left from name i on give the names in this order, where k(i) counts the entries of name i.
   */
  lemma {:induction false} OrderCount(w: seq<string>, order: seq<string>)
    requires Lists(order, w)
    ensures |Orderings(w, order)| as real == Factorial(|w|) as real * Odds(Counts(w, order))
    decreases |w|, 3
  {
    hide *;
    if w == [] {
      OrderCountNone(w, order);
    } else {
      CountsPositive(w, order);
      var os := OddsLessOf(Counts(w, order), 0);
      OddsAtRest(w, order, os);
      SlicesCount(w, order, |w|, os);
      EndingAll(w, order);
      assert w[..|w|] == w;
      var i := NameOf(w, order, 0);
      Mix(Counts(w, order), 0, os);
      CountsTotal(w, order, |w|);
      FactorialStep(|w|);
      Regroup(Factorial(|w| - 1), |w|, Odds(Counts(w, order)));
    }
  }

  lemma {:induction false} OddsAtRest(w: seq<string>, order: seq<string>, os: seq<real>)
    requires Lists(order, w) && Positive(Counts(w, order)) && AreOddsLess(Counts(w, order), 0, os)
    ensures |os| == |order|
    ensures forall j, i | 0 <= j < |w| && 0 <= i < |order| && order[i] == w[j] :: os[i] == Odds(Counts(Rest(w, j), order))
  {
    hide Odds;
    forall j, i | 0 <= j < |w| && 0 <= i < |order| && order[i] == w[j] ensures os[i] == Odds(Counts(Rest(w, j), order)) {
      CountsRest(w, order, j, i);
    }
  }

  lemma {:induction false} FactorialStep(n: nat)
    requires n > 0
    ensures Factorial(n) == n * Factorial(n - 1)
  {
  }

  lemma {:induction false} Regroup(f: nat, n: nat, o: real)
    ensures f as real * (n as real * o) == (n * f) as real * o
  {
    assert (n * f) as real == n as real * f as real;
    Reassociate(f as real, n as real, o);
  }

  lemma {:induction false} ListsSome(order: seq<string>, w: seq<string>)
    requires Lists(order, w)
    ensures order != [] ==> w != []
  {
    if order != [] { assert order[0] in order && order[0] in w; }
  }

  lemma {:induction false} OrderCountNone(w: seq<string>, order: seq<string>)
    requires w == [] && Lists(order, w)
    ensures |Orderings(w, order)| as real == Factorial(|w|) as real * Odds(Counts(w, order))
  {
    ListsSome(order, w);
    var none: seq<nat> := [];
    assert Gives(w, none, order);
    forall c | c in Orderings(w, order) ensures c == none { InChoices(c, 0); }
    assert Choices(0) == {none};
    assert Orderings(w, order) == {none};
    assert Odds(Counts(w, order)) == 1.0;
  }

  /** Any other order is given by no choice vector. */
  lemma {:induction false} OrderImpossible(w: seq<string>, order: seq<string>)
    requires !Lists(order, w)
    ensures Orderings(w, order) == {}
  {
    forall c | c in Orderings(w, order) ensures false {
      FirstsLists(Shuffled(w, c));
      forall x ensures x in Shuffled(w, c) <==> x in w { ShuffledHas(w, c, x); }
      assert Lists(order, w);
    }
  }

  lemma {:induction false} FirstsLists(s: seq<string>)
    ensures Lists(Firsts(s), s)
    decreases |s|
  {
    if s != [] {
      var n := |s| - 1;
      FirstsLists(s[..n]);
      assert s == s[..n] + [s[n]];
    }
  }

  // --------------------------------------------------------------------------- chains

  ghost function Names(ms: seq<Member>): (r: seq<string>)
    ensures |r| == |ms| && forall i | 0 <= i < |ms| :: r[i] == ms[i].endpointId
  {
    seq(|ms|, i requires 0 <= i < |ms| => ms[i].endpointId)
  }

  lemma {:induction false} NamesRest(ms: seq<Member>, j: nat)
    requires j < |ms|
    ensures Names(Rest(ms, j)) == Rest(Names(ms), j)
  {
  }

  lemma {:induction false} NamesShuffled(ms: seq<Member>, c: seq<nat>)
    requires |c| == |ms| && IsChoice(c)
    ensures Names(Shuffled(ms, c)) == Shuffled(Names(ms), c)
    decreases |ms|
  {
    if ms == [] {
      assert c == [];
    } else {
      hide *;
      var n := |ms| - 1;
      ShuffledStep(ms, c);
      ShuffledStep(Names(ms), c);
      NamesRest(ms, c[n]);
      NamesShuffled(Rest(ms, c[n]), c[..n]);
      NamesSnoc(Shuffled(Rest(ms, c[n]), c[..n]), ms[c[n]]);
    }
  }

  lemma {:induction false} ShuffledStep<T>(w: seq<T>, c: seq<nat>)
    requires |c| == |w| > 0 && IsChoice(c)
    ensures var n := |w| - 1;
            c[n] <= n && IsChoice(c[..n]) && Shuffled(w, c) == Shuffled(Rest(w, c[n]), c[..n]) + [w[c[n]]]
  {
  }

  lemma {:induction false} NamesSnoc(ms: seq<Member>, m: Member)
    ensures Names(ms + [m]) == Names(ms) + [m.endpointId]
  {
  }

  lemma {:induction false} NamesDedup(ms: seq<Member>)
    ensures Names(Dedup(ms)) == Firsts(Names(ms))
    decreases |ms|
  {
    if ms != [] {
      var n := |ms| - 1;
      NamesDedup(ms[..n]);
      assert Names(ms)[..n] == Names(ms[..n]);
      NamedIn(ms[..n], ms[n].endpointId);
    }
  }

  lemma {:induction false} NamedIn(ms: seq<Member>, e: string)
    ensures e in Endpoints(ms) <==> e in Names(ms)
  {
    if e in Names(ms) {
      var i :| 0 <= i < |ms| && Names(ms)[i] == e;
      assert ms[i] in ms;
    }
  }

  /** The choice vectors with which the chain of these candidates names the endpoints in this order. */
  ghost function ChainOrders(ms: seq<Member>, order: seq<string>): set<seq<nat>> {
    var w := Expand(ms);
    set c | c in Choices(|w|) && ChainGives(w, c, order)
  }

  ghost predicate ChainGives(w: seq<Member>, c: seq<nat>, order: seq<string>) {
    |c| == |w| && IsChoice(c) && Names(Dedup(Shuffled(w, c))) == order
  }

  lemma {:induction false} ChainOrdersAre(ms: seq<Member>, order: seq<string>)
    ensures ChainOrders(ms, order) == Orderings(Names(Expand(ms)), order)
  {
    var w := Expand(ms);
    forall c | |c| == |w| && IsChoice(c) ensures Names(Dedup(Shuffled(w, c))) == Firsts(Shuffled(Names(w), c)) {
      NamesDedup(Shuffled(w, c));
      NamesShuffled(w, c);
    }
  }

  /** How often each endpoint stands in the weighted list. */
  ghost function Weights(ms: seq<Member>, order: seq<string>): (ks: seq<nat>)
    ensures |ks| == |order| && forall i | 0 <= i < |order| :: ks[i] == WeightOf(ms, order[i])
  {
    seq(|order|, i requires 0 <= i < |order| => WeightOf(ms, order[i]))
  }

  lemma {:induction false} NamesCount(ms: seq<Member>, e: string)
    ensures multiset(Names(ms))[e] == Count(ms, Named(e))
    decreases |ms|
  {
    if ms != [] {
      var n := |ms| - 1;
      NamesCount(ms[..n], e);
      NamesSnoc(ms[..n], ms[n]);
      assert ms == ms[..n] + [ms[n]];
    }
  }

  lemma {:induction false} WeightsAre(ms: seq<Member>, order: seq<string>)
    ensures Counts(Names(Expand(ms)), order) == Weights(ms, order)
  {
    forall i | 0 <= i < |order| ensures Counts(Names(Expand(ms)), order)[i] == WeightOf(ms, order[i]) {
      NamesCount(Expand(ms), order[i]);
      CountExpand(ms, order[i]);
    }
  }

  /** order lists the endpoints that have a positively weighted candidate, each once. */
  ghost predicate ListsChoosable(order: seq<string>, ms: seq<Member>) {
    Distinct(order) && forall e :: e in order <==> exists m :: m in ms && m.weight > 0 && m.endpointId == e
  }

  lemma {:induction false} ListsAre(ms: seq<Member>, order: seq<string>)
    ensures Lists(order, Names(Expand(ms))) <==> ListsChoosable(order, ms)
  {
    forall e ensures e in Names(Expand(ms)) <==> exists m :: m in ms && m.weight > 0 && m.endpointId == e {
      NamedExpand(ms, e);
    }
  }

  lemma {:induction false} NamedExpand(ms: seq<Member>, e: string)
    ensures e in Names(Expand(ms)) <==> exists m :: m in ms && m.weight > 0 && m.endpointId == e
  {
    NamedIn(Expand(ms), e);
    forall m ensures m in Expand(ms) <==> m in ms && m.weight > 0 { ExpandMember(ms, m); }
  }

  /**
   The distribution of the whole chain: of the W! choice vectors, an order of the endpoints that can
   be chosen is given by exactly W! times the product, over its positions, of the endpoint's weight
   over the weight not yet placed; any other order is given by none.
   */
  lemma {:induction false} ChainDistribution(ms: seq<Member>, order: seq<string>)
    ensures |ChainOrders(ms, order)| as real ==
            if ListsChoosable(order, ms) then Factorial(|Expand(ms)|) as real * Odds(Weights(ms, order)) else 0.0
  {
    hide *;
    ChainOrdersAre(ms, order);
    ListsAre(ms, order);
    WeightsAre(ms, order);
    if ListsChoosable(order, ms) {
      OrderCount(Names(Expand(ms)), order);
    } else {
      OrderImpossible(Names(Expand(ms)), order);
    }
  }
}
