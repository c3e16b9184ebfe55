/** eval/crazeeval/pricing.py: what a request costs, and the upper bound reserved for it
    before it is forwarded. Dollars are exact reals. */
module Pricing {
  import opened Common

  const PER_M: real := 1000000.0

  /** `longContext` holds the dearer tier's own price; a prompt over `longContextAbove`
      tokens pays it for every token. */
  datatype Price = Price(
    input: real, cachedInput: real, cacheWrite: real, output: real,
    listInput: real, listCachedInput: real, listCacheWrite: real, listOutput: real,
    longContextAbove: int, longContext: Option<Price>)

  /** `input` counts every prompt token; `cached` and `cacheWrite` are parts of it. */
  datatype Usage = Usage(input: int, cached: int, output: int, reasoning: int, cacheWrite: int)

  datatype Rates = Rates(input: real, cached: real, write: real, output: real)

  /** What `load_prices` guarantees: every rate a number, 0 or more. */
  predicate NonNegative(p: Price) {
    && p.input >= 0.0 && p.cachedInput >= 0.0 && p.cacheWrite >= 0.0 && p.output >= 0.0
    && p.listInput >= 0.0 && p.listCachedInput >= 0.0 && p.listCacheWrite >= 0.0 && p.listOutput >= 0.0
    && (p.longContext.Some? ==> NonNegative(p.longContext.value))
  }

  function RatesOf(p: Price, listPrice: bool): Rates {
    if listPrice then Rates(p.listInput, p.listCachedInput, p.listCacheWrite, p.listOutput)
    else Rates(p.input, p.cachedInput, p.cacheWrite, p.output)
  }

  function Tier(price: Price, promptTokens: int): Price {
    if price.longContext.Some? && promptTokens > price.longContextAbove then price.longContext.value else price
  }

  /** The prompt's tokens by what they are charged as: uncached, cache reads, cache writes. */
  function PromptParts(usage: Usage): (parts: (nat, nat, nat))
    ensures parts.0 + parts.1 + parts.2 == Max(usage.input, 0)
  {
    var prompt := Max(usage.input, 0);
    var cached := Min(Max(usage.cached, 0), prompt);
    var written := Min(Max(usage.cacheWrite, 0), prompt - cached);
    (prompt - cached - written, cached, written)
  }

  function InputCharge(parts: (nat, nat, nat), r: Rates): real {
    parts.0 as real * r.input + parts.1 as real * r.cached + parts.2 as real * r.write
  }

  function Charge(parts: (nat, nat, nat), out: nat, r: Rates): real {
    (InputCharge(parts, r) + out as real * r.output) / PER_M
  }

  function Cost(price: Price, usage: Usage, listPrice: bool): real {
    var r := RatesOf(Tier(price, Max(usage.input, 0)), listPrice);
    Charge(PromptParts(usage), Max(usage.output, 0), r)
  }

  /** The dearest rate one input token can be charged at. */
  function DearestInput(r: Rates): real {
    MaxReal(MaxReal(r.input, r.cached), r.write)
  }

  /** The input and output rates an estimate counts with: when the body could reach the
      long-context tier, the dearer of the two tiers. */
  function EstimateRates(price: Price, bodyBytes: nat, listPrice: bool): (real, real) {
    var base := RatesOf(price, listPrice);
    if price.longContext.Some? && bodyBytes > price.longContextAbove then
      var long := RatesOf(price.longContext.value, listPrice);
      (MaxReal(DearestInput(base), DearestInput(long)), MaxReal(base.output, long.output))
    else (DearestInput(base), base.output)
  }

  function Bound(inTokens: nat, outTokens: nat, inRate: real, outRate: real): real {
    (inTokens as real * inRate + outTokens as real * outRate) / PER_M
  }

  function Estimate(price: Price, bodyBytes: nat, maxTokens: nat, listPrice: bool): real {
    var (inRate, outRate) := EstimateRates(price, bodyBytes, listPrice);
    Bound(bodyBytes, maxTokens, inRate, outRate)
  }

  function Reservation(price: Price, bodyBytes: nat, maxTokens: nat): real {
    Estimate(price, bodyBytes, maxTokens, false)
  }

  function ListReservation(price: Price, bodyBytes: nat, maxTokens: nat): real {
    Estimate(price, bodyBytes, maxTokens, true)
  }

  // ---- the reservation covers the cost -------------------------------------

  lemma MulMono(k: real, a: real, b: real)
    requires a <= b && 0.0 <= k
    ensures k * a <= k * b
  {
  }

  lemma MulMonoLeft(a: real, b: real, k: real)
    requires a <= b && 0.0 <= k
    ensures a * k <= b * k
  {
  }

  lemma Distribute(u: real, c: real, w: real, k: real)
    ensures (u + c + w) * k == u * k + c * k + w * k
  {
  }

  lemma PartCovered(u: real, rate: real, top: real)
    requires 0.0 <= u && 0.0 <= rate <= top
    ensures 0.0 <= u * rate <= u * top
  {
    MulMono(u, rate, top);
    MulMono(u, 0.0, rate);
  }

  /** Any split of at most `n` tokens over the input rates costs at most `n` at the
      dearest. */
  lemma SplitCovered(n: real, u: real, c: real, w: real, r: Rates, top: real)
    requires 0.0 <= u && 0.0 <= c && 0.0 <= w && u + c + w <= n
    requires 0.0 <= r.input <= top && 0.0 <= r.cached <= top && 0.0 <= r.write <= top
    ensures 0.0 <= u * r.input + c * r.cached + w * r.write <= n * top
  {
    PartCovered(u, r.input, top);
    PartCovered(c, r.cached, top);
    PartCovered(w, r.write, top);
    MulMonoLeft(u + c + w, n, top);
    Distribute(u, c, w, top);
    SumLe(u * r.input, c * r.cached, w * r.write, u * top, c * top, w * top);
  }

  lemma SumLe(a: real, b: real, c: real, a': real, b': real, c': real)
    requires 0.0 <= a <= a' && 0.0 <= b <= b' && 0.0 <= c <= c'
    ensures 0.0 <= a + b + c <= a' + b' + c'
  {
  }

  lemma OutputCovered(out: real, limit: real, rate: real, top: real)
    requires 0.0 <= out <= limit && 0.0 <= rate <= top
    ensures 0.0 <= out * rate <= limit * top
  {
    MulMono(out, 0.0, rate);
    MulMono(out, rate, top);
    MulMonoLeft(out, limit, top);
  }

  /** The rates a prompt can pay are at most those the reservation counts with. */
  lemma TierCovered(price: Price, prompt: int, bodyBytes: nat, listPrice: bool)
    requires NonNegative(price) && prompt <= bodyBytes
    ensures var (r, e) := (RatesOf(Tier(price, prompt), listPrice), EstimateRates(price, bodyBytes, listPrice));
            && 0.0 <= r.input <= e.0 && 0.0 <= r.cached <= e.0 && 0.0 <= r.write <= e.0
            && 0.0 <= r.output <= e.1
  {
  }

  lemma ChargeCovered(parts: (nat, nat, nat), out: nat, r: Rates, bodyBytes: nat, maxTokens: nat,
                      inTop: real, outTop: real)
    requires parts.0 + parts.1 + parts.2 <= bodyBytes && out <= maxTokens
    requires 0.0 <= r.input <= inTop && 0.0 <= r.cached <= inTop && 0.0 <= r.write <= inTop
    requires 0.0 <= r.output <= outTop
    ensures 0.0 <= Charge(parts, out, r) <= Bound(bodyBytes, maxTokens, inTop, outTop)
  {
    SplitCovered(bodyBytes as real, parts.0 as real, parts.1 as real, parts.2 as real, r, inTop);
    OutputCovered(out as real, maxTokens as real, r.output, outTop);
    ScaleDown(InputCharge(parts, r), out as real * r.output, bodyBytes as real * inTop, maxTokens as real * outTop);
  }

  lemma ScaleDown(a: real, b: real, a': real, b': real)
    requires 0.0 <= a <= a' && 0.0 <= b <= b'
    ensures 0.0 <= (a + b) / PER_M <= (a' + b') / PER_M
  {
  }

  /** For every price, every split of the prompt and both tiers: a request whose prompt is
      at most its body's bytes and whose output is at most the reserved limit costs at
      most what was reserved -- at the charged rates and at the list rates. */
  lemma CostWithinEstimate(price: Price, usage: Usage, bodyBytes: nat, maxTokens: nat, listPrice: bool)
    requires NonNegative(price)
    requires usage.input <= bodyBytes && usage.output <= maxTokens
    ensures 0.0 <= Cost(price, usage, listPrice) <= Estimate(price, bodyBytes, maxTokens, listPrice)
    ensures Cost(price, usage, listPrice)
         <= if listPrice then ListReservation(price, bodyBytes, maxTokens) else Reservation(price, bodyBytes, maxTokens)
  {
    var (inTop, outTop) := EstimateRates(price, bodyBytes, listPrice);
    var prompt := Max(usage.input, 0);
    TierCovered(price, prompt, bodyBytes, listPrice);
    ChargeCovered(PromptParts(usage), Max(usage.output, 0), RatesOf(Tier(price, prompt), listPrice),
                  bodyBytes, maxTokens, inTop, outTop);
  }

  // ---- what a cost is ------------------------------------------------------

  /** The price with one tier only. */
  function Flat(p: Price): Price { p.(longContext := None) }

  /** Over the threshold every token is billed at the long tier's own rates, else at the base's. */
  lemma TierBilled(price: Price, u: Usage, listPrice: bool)
    ensures price.longContext.Some? && u.input > price.longContextAbove && u.input >= 0 ==>
              Cost(price, u, listPrice) == Cost(Flat(price.longContext.value), u, listPrice)
    ensures price.longContext.None? || 0 <= u.input <= price.longContextAbove ==>
              Cost(price, u, listPrice) == Cost(Flat(price), u, listPrice)
  {
  }

  /** Counts below 0 are none; more cached than the prompt is all of it; more written than is not
      cached is the rest. */
  lemma CountsClamped(price: Price, u: Usage, listPrice: bool)
    ensures u.input < 0 ==> Cost(price, u, listPrice) == Cost(price, u.(input := 0), listPrice)
    ensures u.cached < 0 ==> Cost(price, u, listPrice) == Cost(price, u.(cached := 0), listPrice)
    ensures u.cacheWrite < 0 ==> Cost(price, u, listPrice) == Cost(price, u.(cacheWrite := 0), listPrice)
    ensures u.output < 0 ==> Cost(price, u, listPrice) == Cost(price, u.(output := 0), listPrice)
    ensures 0 <= u.input < u.cached ==> Cost(price, u, listPrice) == Cost(price, u.(cached := u.input), listPrice)
    ensures 0 <= u.cached <= u.input && u.cacheWrite > u.input - u.cached ==>
              Cost(price, u, listPrice) == Cost(price, u.(cacheWrite := u.input - u.cached), listPrice)
  {
  }

  predicate Sound(u: Usage) {
    0 <= u.cached && 0 <= u.cacheWrite && u.cached + u.cacheWrite <= u.input && 0 <= u.output
  }

  /** No tokens cost nothing; reasoning tokens are part of the output and add nothing. */
  lemma NothingIsFree(price: Price, u: Usage, reasoning: int, listPrice: bool)
    ensures Cost(price, Usage(0, 0, 0, reasoning, 0), listPrice) == 0.0
    ensures Cost(price, u.(reasoning := reasoning), listPrice) == Cost(price, u, listPrice)
  {
  }

  lemma FlatCost(price: Price, u: Usage, listPrice: bool)
    requires Sound(u) && price.longContext.None?
    ensures Cost(price, u, listPrice)
         == Charge((u.input - u.cached - u.cacheWrite, u.cached, u.cacheWrite), u.output, RatesOf(price, listPrice))
  {
  }

  /** Within a tier, one token more adds its own rate over a million. */
  lemma OneTokenMore(price: Price, u: Usage, listPrice: bool)
    requires Sound(u) && price.longContext.None?
    ensures 1000000.0 * (Cost(price, u.(output := u.output + 1), listPrice) - Cost(price, u, listPrice))
         == if listPrice then price.listOutput else price.output
    ensures 1000000.0 * (Cost(price, u.(input := u.input + 1), listPrice) - Cost(price, u, listPrice))
         == if listPrice then price.listInput else price.input
  {
    var (r, a) := (RatesOf(price, listPrice), u.input - u.cached - u.cacheWrite);
    FlatCost(price, u, listPrice);
    FlatCost(price, u.(output := u.output + 1), listPrice);
    FlatCost(price, u.(input := u.input + 1), listPrice);
    ChargeMore((a, u.cached, u.cacheWrite), u.output, (a, u.cached, u.cacheWrite), u.output + 1, r);
    ChargeMore((a, u.cached, u.cacheWrite), u.output, (a + 1, u.cached, u.cacheWrite), u.output, r);
  }

  /** And one billed as read from or written to the cache changes it by the difference of the rates. */
  lemma OneTokenCached(price: Price, u: Usage, listPrice: bool)
    requires Sound(u) && price.longContext.None? && u.cached + u.cacheWrite < u.input
    ensures 1000000.0 * (Cost(price, u.(cached := u.cached + 1), listPrice) - Cost(price, u, listPrice))
         == if listPrice then price.listCachedInput - price.listInput else price.cachedInput - price.input
    ensures 1000000.0 * (Cost(price, u.(cacheWrite := u.cacheWrite + 1), listPrice) - Cost(price, u, listPrice))
         == if listPrice then price.listCacheWrite - price.listInput else price.cacheWrite - price.input
  {
    var (r, a) := (RatesOf(price, listPrice), u.input - u.cached - u.cacheWrite);
    FlatCost(price, u, listPrice);
    FlatCost(price, u.(cached := u.cached + 1), listPrice);
    FlatCost(price, u.(cacheWrite := u.cacheWrite + 1), listPrice);
    ChargeMore((a, u.cached, u.cacheWrite), u.output, (a - 1, u.cached + 1, u.cacheWrite), u.output, r);
    ChargeMore((a, u.cached, u.cacheWrite), u.output, (a - 1, u.cached, u.cacheWrite + 1), u.output, r);
  }

  /** The difference of two charges, part by part. */
  lemma ChargeMore(p: (nat, nat, nat), out: nat, q: (nat, nat, nat), out': nat, r: Rates)
    ensures 1000000.0 * (Charge(q, out', r) - Charge(p, out, r))
         == (q.0 - p.0) as real * r.input + (q.1 - p.1) as real * r.cached + (q.2 - p.2) as real * r.write
            + (out' - out) as real * r.output
  {
    Difference(q.0 as real, p.0 as real, r.input);
    Difference(q.1 as real, p.1 as real, r.cached);
    Difference(q.2 as real, p.2 as real, r.write);
    Difference(out' as real, out as real, r.output);
    assert 1000000.0 * Charge(q, out', r) == InputCharge(q, r) + out' as real * r.output;
    assert 1000000.0 * Charge(p, out, r) == InputCharge(p, r) + out as real * r.output;
  }

  lemma Difference(a: real, b: real, k: real)
    ensures (a - b) * k == a * k - b * k
  {
  }

  // ---- the reservation is no larger than it must be ------------------------

  /** All of a prompt billed as what is dearest. */
  function AllAtDearest(r: Rates, tokens: nat, out: nat): Usage {
    if r.input == DearestInput(r) then Usage(tokens, 0, out, 0, 0)
    else if r.cached == DearestInput(r) then Usage(tokens, tokens, out, 0, 0)
    else Usage(tokens, 0, out, 0, tokens)
  }

  /** The long tier is at least as dear as the base one. */
  predicate LongIsDearer(price: Price, listPrice: bool) {
    price.longContext.Some? ==>
      var (base, long) := (RatesOf(price, listPrice), RatesOf(price.longContext.value, listPrice));
      DearestInput(base) <= DearestInput(long) && base.output <= long.output
  }

  /** Some usage within the bounds costs all that is reserved, on either side of the threshold. */
  lemma EstimateReached(price: Price, bodyBytes: nat, maxTokens: nat, listPrice: bool) returns (u: Usage)
    requires bodyBytes > price.longContextAbove ==> LongIsDearer(price, listPrice)
    ensures Sound(u) && u.input == bodyBytes && u.output == maxTokens
    ensures Cost(price, u, listPrice)
         == if listPrice then ListReservation(price, bodyBytes, maxTokens) else Reservation(price, bodyBytes, maxTokens)
  {
    var r := RatesOf(Tier(price, bodyBytes), listPrice);
    u := AllAtDearest(r, bodyBytes, maxTokens);
    assert EstimateRates(price, bodyBytes, listPrice) == (DearestInput(r), r.output);
    assert InputCharge(PromptParts(u), r) == bodyBytes as real * DearestInput(r);
  }
}
