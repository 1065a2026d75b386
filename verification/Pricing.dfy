// Token pricing. Prices are cents per million tokens and costs are units of $0.0001 (quanta),
// so one quantum is exactly 10000 token-cents.
module Pricing {

  datatype TokenPrice = TokenPrice(input: nat, output: nat, cacheRead: nat)

  const TOKEN_CENTS_PER_QUANTUM := 10000

  function PriceOf(model: string): TokenPrice
  {
    match model
    case "accounts/fireworks/models/minimax-m2p7" => TokenPrice(30, 120, 6)
    case "accounts/fireworks/models/kimi-k2p6" => TokenPrice(95, 400, 16)
    case _ => TokenPrice(50, 150, 10)
  }

  datatype Tokens = Tokens(input: nat, output: nat, cached: nat)

  /** The exact cost in token-cents: cached prompt tokens are a subset of the input tokens. */
  function Exact(price: TokenPrice, t: Tokens): nat
  {
    (if t.input >= t.cached then t.input - t.cached else 0) * price.input
    + t.cached * price.cacheRead + t.output * price.output
  }

  /** `quantize(0.0001, ROUND_HALF_UP)`. */
  function Quantise(exact: nat): nat
  {
    (exact + TOKEN_CENTS_PER_QUANTUM / 2) / TOKEN_CENTS_PER_QUANTUM
  }

  function Estimate(model: string, t: Tokens): nat
  {
    Quantise(Exact(PriceOf(model), t))
  }

  /** The estimate is the only multiple of the quantum within half a quantum of the exact cost,
      ties going up. */
  lemma EstimateNearest(model: string, t: Tokens, q: int)
    ensures q == Estimate(model, t) <==>
            var off := Exact(PriceOf(model), t) - q * TOKEN_CENTS_PER_QUANTUM;
            -TOKEN_CENTS_PER_QUANTUM <= 2 * off < TOKEN_CENTS_PER_QUANTUM
  {
  }

  /** The price list: a million uncached prompt, cached prompt and output tokens each cost what is
      listed, to the cent, and so does any number of millions of each together. */
  lemma Millions(model: string, prompt: nat, cached: nat, output: nat)
    ensures var p := PriceOf(model);
            Estimate(model, Tokens(1000000 * (prompt + cached), 1000000 * output, 1000000 * cached)) ==
            100 * (prompt * p.input + cached * p.cacheRead + output * p.output)
  {
    var p := PriceOf(model);
    var t := Tokens(1000000 * (prompt + cached), 1000000 * output, 1000000 * cached);
    assert t.input - t.cached == 1000000 * prompt;
    assert Exact(p, t) ==
           1000000 * (prompt * p.input) + 1000000 * (cached * p.cacheRead) + 1000000 * (output * p.output) by {
      assert 1000000 * prompt * p.input == 1000000 * (prompt * p.input);
      assert 1000000 * cached * p.cacheRead == 1000000 * (cached * p.cacheRead);
      assert 1000000 * output * p.output == 1000000 * (output * p.output);
    }
  }

  lemma PriceList()
    ensures PriceOf("accounts/fireworks/models/minimax-m2p7") == TokenPrice(30, 120, 6)
    ensures PriceOf("accounts/fireworks/models/kimi-k2p6") == TokenPrice(95, 400, 16)
    ensures forall model ::
              model !in {"accounts/fireworks/models/minimax-m2p7", "accounts/fireworks/models/kimi-k2p6"} ==>
              PriceOf(model) == TokenPrice(50, 150, 10)
  {
  }

  /** More input or more output never costs less. */
  lemma EstimateMonotone(model: string, t: Tokens, u: Tokens)
    requires t.input <= u.input && t.output <= u.output && t.cached == u.cached
    ensures Estimate(model, t) <= Estimate(model, u)
  {
  }

  /** Within the prompt, serving more of it from the cache never costs more. */
  lemma EstimateAntitoneInCache(model: string, t: Tokens, u: Tokens)
    requires t.input == u.input && t.output == u.output && t.cached <= u.cached <= u.input
    ensures Estimate(model, u) <= Estimate(model, t)
  {
  }

  /** At and beyond the prompt it is the other way round, for every model: more cached tokens
      never cost less, and cost more exactly when their price fills up the quantum that the rest
      of the cost has begun. */
  lemma CacheBeyondPromptCosts(model: string, t: Tokens, u: Tokens)
    requires t.input == u.input && t.output == u.output && t.input <= t.cached <= u.cached
    ensures Estimate(model, t) <= Estimate(model, u)
    ensures Estimate(model, t) < Estimate(model, u) <==>
            (Exact(PriceOf(model), t) + TOKEN_CENTS_PER_QUANTUM / 2) % TOKEN_CENTS_PER_QUANTUM
              + (u.cached - t.cached) * PriceOf(model).cacheRead >= TOKEN_CENTS_PER_QUANTUM
  {
    var p := PriceOf(model);
    assert u.cached * p.cacheRead == t.cached * p.cacheRead + (u.cached - t.cached) * p.cacheRead;
  }

  lemma CacheBeyondPromptWitness()
    ensures Estimate("", Tokens(0, 0, 0)) < Estimate("", Tokens(0, 0, 500))
  {
  }

  // ---------------------------------------------------------------- many calls

  function Plus(t: Tokens, u: Tokens): Tokens
  {
    Tokens(t.input + u.input, t.output + u.output, t.cached + u.cached)
  }

  function Total(calls: seq<Tokens>): Tokens
  {
    if calls == [] then Tokens(0, 0, 0) else Plus(calls[0], Total(calls[1..]))
  }

  function PricedSeparately(model: string, calls: seq<Tokens>): nat
  {
    if calls == [] then 0 else Estimate(model, calls[0]) + PricedSeparately(model, calls[1..])
  }

  function ExactTotal(price: TokenPrice, calls: seq<Tokens>): nat
  {
    if calls == [] then 0 else Exact(price, calls[0]) + ExactTotal(price, calls[1..])
  }

  ghost predicate CacheInPrompt(calls: seq<Tokens>)
  {
    forall t :: t in calls ==> t.cached <= t.input
  }

  lemma {:induction false} ExactAdds(price: TokenPrice, calls: seq<Tokens>)
    requires CacheInPrompt(calls)
    ensures Total(calls).cached <= Total(calls).input
    ensures Exact(price, Total(calls)) == ExactTotal(price, calls)
  {
    if calls != [] {
      ExactAdds(price, calls[1..]);
      var t, u := calls[0], Total(calls[1..]);
      ExactPlus(price, t, u);
    }
  }

  lemma ExactPlus(price: TokenPrice, t: Tokens, u: Tokens)
    requires t.cached <= t.input && u.cached <= u.input
    ensures Exact(price, Plus(t, u)) == Exact(price, t) + Exact(price, u)
  {
  }

  lemma {:induction false} SeparateDrift(model: string, calls: seq<Tokens>)
    ensures var drift := PricedSeparately(model, calls) * TOKEN_CENTS_PER_QUANTUM - ExactTotal(PriceOf(model), calls);
            -|calls| * TOKEN_CENTS_PER_QUANTUM <= 2 * drift <= |calls| * TOKEN_CENTS_PER_QUANTUM
  {
    if calls != [] {
      SeparateDrift(model, calls[1..]);
      EstimateNearest(model, calls[0], Estimate(model, calls[0]));
    }
  }

  /** Pricing n calls one by one differs from pricing their total by at most (n + 1) / 2 quanta. */
  lemma SeparateVersusTotal(model: string, calls: seq<Tokens>)
    requires CacheInPrompt(calls)
    ensures var d := PricedSeparately(model, calls) - Estimate(model, Total(calls));
            -(|calls| + 1) <= 2 * d <= |calls| + 1
  {
    ExactAdds(PriceOf(model), calls);
    SeparateDrift(model, calls);
    EstimateNearest(model, Total(calls), Estimate(model, Total(calls)));
  }
}
