/** Cost of a request from its token counts and the pricing table; float64 is read as exact reals. */
module Cost {
  import opened Common
  import opened Config

  datatype Usage = Usage(input: int, output: int, cacheRead: int, cacheCreate: int)

  datatype Charge = Charge(
    total: int, input: int, output: int, cacheRead: int, cacheCreate: int, currency: string, source: string)

  /** Conversion to int: truncation toward zero. */
  function Trunc(x: real): int { if x >= 0.0 then x.Floor else -((-x).Floor) }

  function Or(price: Option<real>, fallback: real): real { if price.Some? then price.value else fallback }

  function Bucket(tokens: int, price: real): real { tokens as real * price / 1000.0 }

  function InputCost(row: ModelPricing, u: Usage): real { Bucket(u.input, row.inputPrice) }
  function OutputCost(row: ModelPricing, u: Usage): real { Bucket(u.output, row.outputPrice) }
  function CacheReadCost(row: ModelPricing, u: Usage): real { Bucket(u.cacheRead, Or(row.cacheReadPrice, row.inputPrice)) }
  function CacheCreateCost(row: ModelPricing, u: Usage): real { Bucket(u.cacheCreate, Or(row.cacheCreatePrice, row.inputPrice)) }

  /** The cost before any rounding, in cents. */
  function Exact(row: ModelPricing, u: Usage): real {
    InputCost(row, u) + OutputCost(row, u) + CacheReadCost(row, u) + CacheCreateCost(row, u)
  }

  function Priced(row: ModelPricing, u: Usage): Charge {
    Charge(
      Trunc(Exact(row, u)),
      Trunc(InputCost(row, u)), Trunc(OutputCost(row, u)), Trunc(CacheReadCost(row, u)), Trunc(CacheCreateCost(row, u)),
      if row.currency == "" then "USD" else row.currency,
      if (u.cacheRead > 0 && row.cacheReadPrice.None?) || (u.cacheCreate > 0 && row.cacheCreatePrice.None?)
      then "estimated" else "provider_usage")
  }

  function Calculate(pricing: Option<PricingConfig>, vendor: string, model: string, u: Usage): Charge {
    var row := if pricing.None? then None else Lookup(pricing.value.models, vendor, model);
    if row.None? then Charge(0, 0, 0, 0, 0, "USD", "estimated") else Priced(row.value, u)
  }

  predicate NonNegativeUsage(u: Usage) {
    u.input >= 0 && u.output >= 0 && u.cacheRead >= 0 && u.cacheCreate >= 0
  }

  predicate AtMost(u: Usage, v: Usage) {
    u.input <= v.input && u.output <= v.output && u.cacheRead <= v.cacheRead && u.cacheCreate <= v.cacheCreate
  }

  function BucketSum(c: Charge): int { c.input + c.output + c.cacheRead + c.cacheCreate }

  lemma {:induction false} TruncFacts(x: real)
    ensures -1.0 < x - Trunc(x) as real < 1.0
    ensures x >= 0.0 ==> 0 <= Trunc(x) && Trunc(x) as real <= x
  {
  }

  lemma {:induction false} TruncMonotone(x: real, y: real)
    requires x <= y
    ensures Trunc(x) <= Trunc(y)
  {
  }

  lemma {:induction false} BucketMonotone(a: int, b: int, price: real)
    requires a <= b && price >= 0.0
    ensures Bucket(a, price) <= Bucket(b, price)
  {
    var d := (b - a) as real;
    assert d * price >= 0.0;
    assert b as real * price == a as real * price + d * price;
  }

  lemma {:induction false} ExactMonotone(row: ModelPricing, u: Usage, v: Usage)
    requires RowValid(row) && AtMost(u, v)
    ensures InputCost(row, u) <= InputCost(row, v) && OutputCost(row, u) <= OutputCost(row, v)
    ensures CacheReadCost(row, u) <= CacheReadCost(row, v) && CacheCreateCost(row, u) <= CacheCreateCost(row, v)
  {
    BucketMonotone(u.input, v.input, row.inputPrice);
    BucketMonotone(u.output, v.output, row.outputPrice);
    BucketMonotone(u.cacheRead, v.cacheRead, Or(row.cacheReadPrice, row.inputPrice));
    BucketMonotone(u.cacheCreate, v.cacheCreate, Or(row.cacheCreatePrice, row.inputPrice));
  }

  /** More tokens of any kind never cost less, in total or in any bucket. */
  lemma {:induction false} CostMonotone(row: ModelPricing, u: Usage, v: Usage)
    requires RowValid(row) && AtMost(u, v)
    ensures var c, d := Priced(row, u), Priced(row, v);
            c.total <= d.total && c.input <= d.input && c.output <= d.output
            && c.cacheRead <= d.cacheRead && c.cacheCreate <= d.cacheCreate
  {
    ExactMonotone(row, u, v);
    TruncMonotone(Exact(row, u), Exact(row, v));
    TruncMonotone(InputCost(row, u), InputCost(row, v));
    TruncMonotone(OutputCost(row, u), OutputCost(row, v));
    TruncMonotone(CacheReadCost(row, u), CacheReadCost(row, v));
    TruncMonotone(CacheCreateCost(row, u), CacheCreateCost(row, v));
  }

  lemma {:induction false} ExactNonNegative(row: ModelPricing, u: Usage)
    requires RowValid(row) && NonNegativeUsage(u)
    ensures InputCost(row, u) >= 0.0 && OutputCost(row, u) >= 0.0
    ensures CacheReadCost(row, u) >= 0.0 && CacheCreateCost(row, u) >= 0.0
  {
    ExactMonotone(row, Usage(0, 0, 0, 0), u);
  }

  /** Rounding each bucket loses at most three cents against rounding once, and never gains. */
  lemma {:induction false} BucketBound(row: ModelPricing, u: Usage)
    requires RowValid(row) && NonNegativeUsage(u)
    ensures var c := Priced(row, u); 0 <= BucketSum(c) <= c.total <= BucketSum(c) + 3
  {
    ExactNonNegative(row, u);
    TruncFacts(InputCost(row, u));
    TruncFacts(OutputCost(row, u));
    TruncFacts(CacheReadCost(row, u));
    TruncFacts(CacheCreateCost(row, u));
    TruncFacts(Exact(row, u));
    var c := Priced(row, u);
    assert BucketSum(c) as real <= Exact(row, u) < (BucketSum(c) + 4) as real;
  }

  /** Whatever the signs of counts and prices, the two differ by at most four cents. */
  lemma {:induction false} BucketBoundAnySign(row: ModelPricing, u: Usage)
    ensures var c := Priced(row, u); -4 <= c.total - BucketSum(c) <= 4
  {
    TruncFacts(InputCost(row, u));
    TruncFacts(OutputCost(row, u));
    TruncFacts(CacheReadCost(row, u));
    TruncFacts(CacheCreateCost(row, u));
    TruncFacts(Exact(row, u));
    var c := Priced(row, u);
    assert -5.0 < (c.total - BucketSum(c)) as real < 5.0;
  }

  /** A request's usage and the row that prices it. */
  datatype Billed = Billed(row: ModelPricing, usage: Usage)

  function ChargedSum(bs: seq<Billed>): int {
    if bs == [] then 0 else ChargedSum(bs[1..]) + Priced(bs[0].row, bs[0].usage).total
  }

  function ExactSum(bs: seq<Billed>): real {
    if bs == [] then 0.0 else ExactSum(bs[1..]) + Exact(bs[0].row, bs[0].usage)
  }

  /** Over any batch the cents charged never exceed the exact cost and fall short by less than one cent each. */
  lemma {:induction false} ChargedBound(bs: seq<Billed>)
    requires forall b | b in bs :: RowValid(b.row) && NonNegativeUsage(b.usage)
    ensures ChargedSum(bs) as real <= ExactSum(bs)
    ensures bs != [] ==> ExactSum(bs) < (ChargedSum(bs) + |bs|) as real
  {
    if bs != [] {
      ChargedBound(bs[1..]);
      ExactNonNegative(bs[0].row, bs[0].usage);
      TruncFacts(Exact(bs[0].row, bs[0].usage));
    }
  }

  lemma {:induction false} LookupIn(models: seq<ModelPricing>, vendor: string, model: string)
    requires forall i | 0 <= i < |models| :: RowValid(models[i])
    ensures Lookup(models, vendor, model).Some? ==> RowValid(Lookup(models, vendor, model).value)
  {
    var r := Lookup(models, vendor, model);
    if r.Some? { var i :| 0 <= i < |models| && models[i] == r.value; }
  }

  /** With an accepted table and non-negative counts no charge is negative, priced or not. */
  lemma {:induction false} ChargeNonNegative(pricing: PricingConfig, vendor: string, model: string, u: Usage)
    requires PricingValid(pricing) && NonNegativeUsage(u)
    ensures var c := Calculate(Some(pricing), vendor, model, u);
            c.total >= 0 && c.input >= 0 && c.output >= 0 && c.cacheRead >= 0 && c.cacheCreate >= 0
  {
    LookupIn(pricing.models, vendor, model);
    var row := Lookup(pricing.models, vendor, model);
    if row.Some? {
      ExactNonNegative(row.value, u);
      TruncFacts(Exact(row.value, u));
    }
  }

  /** An accepted row that prices one token kind at a cent each and the others at nothing. */
  function OneCent(kind: nat): ModelPricing {
    ModelPricing("v", "m", "", if kind == 0 then 1000.0 else 0.0, if kind == 1 then 1000.0 else 0.0,
                 Some(if kind == 2 then 1000.0 else 0.0), Some(if kind == 3 then 1000.0 else 0.0),
                 Capabilities(false, false, false, false))
  }

  lemma {:induction false} ExactOneCent(kind: nat, u: Usage)
    requires kind < 4
    ensures RowValid(OneCent(kind))
    ensures Exact(OneCent(kind), u) == (if kind == 0 then u.input else if kind == 1 then u.output
                                        else if kind == 2 then u.cacheRead else u.cacheCreate) as real
  {
  }

  /** A negative count of any kind is charged as a negative amount under some accepted row. */
  lemma {:induction false} NegativeBucket(u: Usage) returns (row: ModelPricing)
    requires !NonNegativeUsage(u)
    ensures RowValid(row) && row.vendor == "v" && row.model == "m" && Priced(row, u).total < 0
  {
    var kind := if u.input < 0 then 0 else if u.output < 0 then 1 else if u.cacheRead < 0 then 2 else 3;
    row := OneCent(kind);
    ExactOneCent(kind, u);
  }

  /** Tokens of one kind alone fill that kind's bucket and no other, and the total is that bucket. */
  lemma {:induction false} OneKindOneBucket(row: ModelPricing, n: int)
    ensures var c := Priced(row, Usage(n, 0, 0, 0));
            c.total == c.input == Trunc(Bucket(n, row.inputPrice)) && c.output == c.cacheRead == c.cacheCreate == 0
    ensures var c := Priced(row, Usage(0, n, 0, 0));
            c.total == c.output == Trunc(Bucket(n, row.outputPrice)) && c.input == c.cacheRead == c.cacheCreate == 0
    ensures var c := Priced(row, Usage(0, 0, n, 0));
            && c.total == c.cacheRead && c.input == c.output == c.cacheCreate == 0
            && (row.cacheReadPrice.Some? ==> c.total == Trunc(Bucket(n, row.cacheReadPrice.value)))
    ensures var c := Priced(row, Usage(0, 0, 0, n));
            && c.total == c.cacheCreate && c.input == c.output == c.cacheRead == 0
            && (row.cacheCreatePrice.Some? ==> c.total == Trunc(Bucket(n, row.cacheCreatePrice.value)))
  {
    hide Bucket, Trunc;
    NothingIsFree(row.inputPrice);
    NothingIsFree(row.outputPrice);
    NothingIsFree(Or(row.cacheReadPrice, row.inputPrice));
    NothingIsFree(Or(row.cacheCreatePrice, row.inputPrice));
  }

  lemma {:induction false} NothingIsFree(price: real)
    ensures Bucket(0, price) == 0.0 && Trunc(0.0) == 0
  {
  }

  lemma {:induction false} BucketAdds(a: int, b: int, price: real)
    ensures Bucket(a + b, price) == Bucket(a, price) + Bucket(b, price)
  {
    assert (a + b) as real * price == a as real * price + b as real * price;
  }

  /** Without a price of their own cache tokens cost what as many more input tokens would. */
  lemma {:induction false} CacheFallback(row: ModelPricing, u: Usage)
    ensures row.cacheReadPrice.None? ==>
              Priced(row, u).total == Priced(row, u.(input := u.input + u.cacheRead, cacheRead := 0)).total
    ensures row.cacheCreatePrice.None? ==>
              Priced(row, u).total == Priced(row, u.(input := u.input + u.cacheCreate, cacheCreate := 0)).total
    ensures Priced(row, u).source == "estimated" <==>
            (u.cacheRead > 0 && row.cacheReadPrice.None?) || (u.cacheCreate > 0 && row.cacheCreatePrice.None?)
  {
    NothingIsFree(row.inputPrice);
    BucketAdds(u.input, u.cacheRead, row.inputPrice);
    BucketAdds(u.input, u.cacheCreate, row.inputPrice);
    assert |"estimated"| != |"provider_usage"|;
  }

  /** In an accepted table a model that supports cache_control is never charged an estimate. */
  lemma {:induction false} CacheCapableIsPriced(pricing: PricingConfig, vendor: string, model: string, u: Usage, row: ModelPricing)
    requires PricingValid(pricing) && Lookup(pricing.models, vendor, model) == Some(row) && row.capabilities.cacheControl
    ensures Calculate(Some(pricing), vendor, model, u).source == "provider_usage"
  {
    LookupIn(pricing.models, vendor, model);
  }

  /** Under an accepted table every charge has a three-letter currency, and a missing name prices nothing. */
  lemma {:induction false} AcceptedTableCharges(pricing: PricingConfig, vendor: string, model: string, u: Usage)
    requires PricingValid(pricing)
    ensures var c := Calculate(Some(pricing), vendor, model, u);
            && |c.currency| == 3
            && (vendor == "" || model == "" ==> c == Charge(0, 0, 0, 0, 0, "USD", "estimated"))
  {
    LookupIn(pricing.models, vendor, model);
  }
}
