/** What an LLM call costs, what it is estimated to cost at worst, and the budget a tracker shared
    by concurrent agents keeps. Money is exact (`real`). */
module Cost {
  import opened Prelude

  // ---------------------------------------------------------------- one call

  datatype ModelPricing = ModelPricing(
    inputPer1k: real, outputPer1k: real,
    cacheReadPer1k: Option<real>, cacheWritePer1k: Option<real>, batchMultiplier: real)
  {
    function CacheReadRate(): real {
      match cacheReadPer1k case Some(r) => r case None => inputPer1k * 0.1
    }

    function CacheWriteRate(): real {
      match cacheWritePer1k case Some(r) => r case None => inputPer1k * 1.25
    }

    function Discounted(cost: real, batch: bool): real { if batch then cost * batchMultiplier else cost }
  }

  datatype Usage = Usage(input: int, output: int, cacheRead: int, cacheWrite: int, batch: bool)

  datatype Error = UnknownModelPricing

  function Thousands(tokens: int): real { tokens as real / 1000.0 }

  function BilledCost(p: ModelPricing, u: Usage): real {
    Thousands(Max(0, u.input - u.cacheRead - u.cacheWrite)) * p.inputPer1k
    + Thousands(u.cacheRead) * p.CacheReadRate()
    + Thousands(u.cacheWrite) * p.CacheWriteRate()
    + Thousands(u.output) * p.outputPer1k
  }

  /** `pricing` is `None` for a model the table does not know; `strict` is the production setting. */
  function CallCost(pricing: Option<ModelPricing>, named: bool, strict: bool, u: Usage): Result<real, Error> {
    match pricing
    case None => if strict && named then Err(UnknownModelPricing) else Ok(0.0)
    case Some(p) => Ok(p.Discounted(BilledCost(p, u), u.batch))
  }

  function WorstCase(p: ModelPricing, inputTokens: int, maxOutputTokens: int): real {
    Thousands(inputTokens) * p.inputPer1k + Thousands(maxOutputTokens) * p.outputPer1k
  }

  function Estimate(pricing: Option<ModelPricing>, named: bool, strict: bool, inputTokens: int, maxOutputTokens: int)
    : Result<real, Error>
  {
    match pricing
    case None => if strict && named then Err(UnknownModelPricing) else Ok(0.0)
    case Some(p) => Ok(WorstCase(p, inputTokens, maxOutputTokens))
  }

  ghost predicate Sane(p: ModelPricing, u: Usage) {
    && p.inputPer1k >= 0.0 && p.outputPer1k >= 0.0
    && p.CacheReadRate() >= 0.0 && p.CacheWriteRate() >= 0.0
    && u.output >= 0 && u.cacheRead >= 0 && u.cacheWrite >= 0
    && u.cacheRead + u.cacheWrite <= u.input
  }

  lemma Distribute(a: int, b: int, r: real)
    ensures Thousands(a + b) * r == Thousands(a) * r + Thousands(b) * r
  {
  }

  /** The gap between estimate and bill, to the cent: unused input and output, plus what cache hits
      save, minus what cache writes add. */
  lemma EstimateAccountsForEveryToken(p: ModelPricing, u: Usage, inputTokens: int, maxOutputTokens: int)
    requires u.cacheRead + u.cacheWrite <= u.input
    ensures WorstCase(p, inputTokens, maxOutputTokens) - BilledCost(p, u)
            == Thousands(inputTokens - u.input) * p.inputPer1k
             + Thousands(maxOutputTokens - u.output) * p.outputPer1k
             + Thousands(u.cacheRead) * (p.inputPer1k - p.CacheReadRate())
             - Thousands(u.cacheWrite) * (p.CacheWriteRate() - p.inputPer1k)
  {
    var billed := u.input - u.cacheRead - u.cacheWrite;
    Distribute(inputTokens - u.input, u.input, p.inputPer1k);
    Distribute(billed + u.cacheRead, u.cacheWrite, p.inputPer1k);
    Distribute(billed, u.cacheRead, p.inputPer1k);
    Distribute(maxOutputTokens - u.output, u.output, p.outputPer1k);
  }

  lemma NonNegativeProduct(tokens: int, r: real)
    requires tokens >= 0 && r >= 0.0
    ensures Thousands(tokens) * r >= 0.0
  {
  }

  /** What cache writes can add to a call beyond its estimate. */
  function WriteSurcharge(p: ModelPricing, u: Usage): real {
    Thousands(u.cacheWrite) * (p.CacheWriteRate() - p.inputPer1k)
  }

  /** A call within its estimated tokens never costs more than the estimate plus the surcharge on
      the tokens it wrote to the cache. The bound is attained (see above) by an unbatched call
      that uses its whole estimate and reads nothing from the cache. */
  lemma CostWithinEstimate(p: ModelPricing, strict: bool, u: Usage, inputTokens: int, maxOutputTokens: int)
    requires Sane(p, u) && u.input <= inputTokens && u.output <= maxOutputTokens
    requires p.CacheReadRate() <= p.inputPer1k && (u.batch ==> p.batchMultiplier <= 1.0)
    ensures CallCost(Some(p), true, strict, u).value
            <= Estimate(Some(p), true, strict, inputTokens, maxOutputTokens).value + WriteSurcharge(p, u)
  {
    BilledWithinEstimate(p, u, inputTokens, maxOutputTokens);
    BatchNeverAdds(p, u);
  }

  lemma BilledWithinEstimate(p: ModelPricing, u: Usage, inputTokens: int, maxOutputTokens: int)
    requires Sane(p, u) && u.input <= inputTokens && u.output <= maxOutputTokens
    requires p.CacheReadRate() <= p.inputPer1k
    ensures BilledCost(p, u) <= WorstCase(p, inputTokens, maxOutputTokens) + WriteSurcharge(p, u)
  {
    EstimateAccountsForEveryToken(p, u, inputTokens, maxOutputTokens);
    NonNegativeProduct(inputTokens - u.input, p.inputPer1k);
    NonNegativeProduct(maxOutputTokens - u.output, p.outputPer1k);
    NonNegativeProduct(u.cacheRead, p.inputPer1k - p.CacheReadRate());
  }

  lemma BatchNeverAdds(p: ModelPricing, u: Usage)
    requires Sane(p, u) && (u.batch ==> p.batchMultiplier <= 1.0)
    ensures u.batch ==> BilledCost(p, u) * p.batchMultiplier <= BilledCost(p, u)
  {
    if u.batch {
      NonNegativeProduct(u.input - u.cacheRead - u.cacheWrite, p.inputPer1k);
      NonNegativeProduct(u.cacheRead, p.CacheReadRate());
      NonNegativeProduct(u.cacheWrite, p.CacheWriteRate());
      NonNegativeProduct(u.output, p.outputPer1k);
      Shrink(BilledCost(p, u), p.batchMultiplier);
    }
  }

  lemma Shrink(x: real, m: real)
    requires x >= 0.0 && m <= 1.0
    ensures x * m <= x
  {
    assert x * (1.0 - m) >= 0.0;
  }

  /** Under the default cache rates the surcharge is a quarter of the input rate on written tokens. */
  lemma DefaultSurcharge(p: ModelPricing, u: Usage)
    requires p.cacheWritePer1k == None
    ensures WriteSurcharge(p, u) == Thousands(u.cacheWrite) * p.inputPer1k / 4.0
  {
  }

  /** A thousand tokens cost the rate per thousand, whatever their kind. Where the table gives no
      cache rates, a token read from the cache costs a tenth of a fresh one, and a written one a
      quarter more. */
  lemma ThousandTokens(p: ModelPricing, n: nat)
    ensures WorstCase(p, 1000 * n, 0) == n as real * p.inputPer1k
    ensures WorstCase(p, 0, 1000 * n) == n as real * p.outputPer1k
    ensures BilledCost(p, Usage(1000 * n, 0, 0, 0, false)) == n as real * p.inputPer1k
    ensures BilledCost(p, Usage(0, 1000 * n, 0, 0, false)) == n as real * p.outputPer1k
    ensures 10.0 * BilledCost(p.(cacheReadPer1k := None), Usage(1000 * n, 0, 1000 * n, 0, false))
            == n as real * p.inputPer1k
    ensures 4.0 * BilledCost(p.(cacheWritePer1k := None), Usage(1000 * n, 0, 0, 1000 * n, false))
            == 5.0 * (n as real * p.inputPer1k)
    ensures forall rate :: BilledCost(p.(cacheReadPer1k := Some(rate)), Usage(1000 * n, 0, 1000 * n, 0, false))
                           == n as real * rate
    ensures forall rate :: BilledCost(p.(cacheWritePer1k := Some(rate)), Usage(1000 * n, 0, 0, 1000 * n, false))
                           == n as real * rate
  {
    assert Thousands(1000 * n) == n as real && Thousands(0) == 0.0;
    Scales(n as real, p.inputPer1k);
  }

  lemma Scales(n: real, rate: real)
    ensures 10.0 * (n * (rate * 0.1)) == n * rate && 4.0 * (n * (rate * 1.25)) == 5.0 * (n * rate)
  {
  }

  /** Tokens of different kinds, and of different calls, add up. Input the cache claims beyond what the
      call had is no credit. */
  lemma TokensAddUp(p: ModelPricing, u: Usage, v: Usage)
    requires u.cacheRead + u.cacheWrite <= u.input && v.cacheRead + v.cacheWrite <= v.input
    ensures BilledCost(p, u) + BilledCost(p, v)
            == BilledCost(p, Usage(u.input + v.input, u.output + v.output, u.cacheRead + v.cacheRead,
                                   u.cacheWrite + v.cacheWrite, false))
    ensures WorstCase(p, u.input, u.output) + WorstCase(p, v.input, v.output)
            == WorstCase(p, u.input + v.input, u.output + v.output)
    ensures forall input | input < u.cacheRead + u.cacheWrite ::
              BilledCost(p, u.(input := input)) == BilledCost(p, u.(input := u.cacheRead + u.cacheWrite))
  {
    Distribute(u.input - u.cacheRead - u.cacheWrite, v.input - v.cacheRead - v.cacheWrite, p.inputPer1k);
    Distribute(u.input, v.input, p.inputPer1k);
    Distribute(u.output, v.output, p.outputPer1k);
    Distribute(u.cacheRead, v.cacheRead, p.CacheReadRate());
    Distribute(u.cacheWrite, v.cacheWrite, p.CacheWriteRate());
  }

  /** A batch costs its multiple of the same call made alone. */
  lemma BatchCostsMultiple(p: ModelPricing, named: bool, strict: bool, u: Usage, cost: real)
    requires !u.batch && CallCost(Some(p), named, strict, u) == Ok(cost)
    ensures CallCost(Some(p), named, strict, u.(batch := true)).value == cost * p.batchMultiplier
  {
    assert BilledCost(p, u.(batch := true)) == cost;
  }

  /** A model without a price costs nothing, in the estimate as in the bill, unless prices are required
      and it has a name. Then both are errors. */
  lemma UnpricedModels(pricing: Option<ModelPricing>, named: bool, strict: bool, u: Usage, input: int, maxOut: int)
    ensures CallCost(pricing, named, strict, u).Err? <==> pricing.None? && strict && named
    ensures Estimate(pricing, named, strict, input, maxOut).Err? <==> CallCost(pricing, named, strict, u).Err?
    ensures pricing.None? && !(strict && named) ==>
              CallCost(pricing, named, strict, u) == Estimate(pricing, named, strict, input, maxOut) == Ok(0.0)
  {
  }

  // ---------------------------------------------------------------- the shared tracker

  /** `inFlight` holds the estimate each admitted call was checked with. */
  datatype State = State(total: real, input: int, output: int, inFlight: seq<real>)

  datatype Event =
    | Start(estimate: real)      // checked against the budget
    | StartUnnamed               // no model id in the invocation: the check is skipped
    | Finish(call: nat, cost: real, input: int, output: int)
    | Fail(call: nat)            // the call ended without an `on_llm_end`

  const INIT := State(0.0, 0, 0, [])

  function Without<T>(s: seq<T>, i: nat): seq<T>
    requires i < |s|
  {
    s[..i] + s[i + 1..]
  }

  predicate Admits(s: State, budget: real, estimate: real) {
    s.total + estimate <= budget
  }

  predicate Enabled(s: State, e: Event) {
    match e
    case Start(_) => true
    case StartUnnamed => true
    case Finish(i, _, _, _) => i < |s.inFlight|
    case Fail(i) => i < |s.inFlight|
  }

  function Apply(budget: real, s: State, e: Event): State
    requires Enabled(s, e)
  {
    match e
    case Start(est) => if Admits(s, budget, est) then s.(inFlight := s.inFlight + [est]) else s
    case StartUnnamed => s.(inFlight := s.inFlight + [0.0])
    case Finish(i, cost, input, output) =>
      State(s.total + cost, s.input + input, s.output + output, Without(s.inFlight, i))
    case Fail(i) => s.(inFlight := Without(s.inFlight, i))
  }

  predicate Possible(budget: real, s: State, es: seq<Event>)
    decreases |es|
  {
    es != [] ==> Enabled(s, es[0]) && Possible(budget, Apply(budget, s, es[0]), es[1..])
  }

  function After(budget: real, s: State, es: seq<Event>): State
    requires Possible(budget, s, es)
    decreases |es|
  {
    if es == [] then s else After(budget, Apply(budget, s, es[0]), es[1..])
  }

  /** Never more than `k` calls in flight, and no estimate above `most`. */
  ghost predicate Bounded(budget: real, s: State, es: seq<Event>, k: nat, most: real)
    requires Possible(budget, s, es)
    decreases |es|
  {
    && |s.inFlight| <= k
    && (es != [] ==>
          && (es[0].Start? ==> 0.0 <= es[0].estimate <= most)
          && Bounded(budget, Apply(budget, s, es[0]), es[1..], k, most))
  }

  function Sum(xs: seq<real>): real {
    if xs == [] then 0.0 else xs[0] + Sum(xs[1..])
  }

  /** By how much the finished calls exceeded what they were checked with, in all. */
  function Excess(budget: real, s: State, es: seq<Event>): real
    requires Possible(budget, s, es)
    decreases |es|
  {
    if es == [] then 0.0 else
      (match es[0]
       case Finish(i, cost, _, _) => if cost > s.inFlight[i] then cost - s.inFlight[i] else 0.0
       case _ => 0.0)
      + Excess(budget, Apply(budget, s, es[0]), es[1..])
  }

  lemma {:induction false} SumAppend(xs: seq<real>, ys: seq<real>)
    ensures Sum(xs + ys) == Sum(xs) + Sum(ys)
  {
    if xs == [] {
      assert xs + ys == ys;
    } else {
      SumAppend(xs[1..], ys);
      assert (xs + ys)[1..] == xs[1..] + ys;
    }
  }

  lemma {:induction false} SumWithout(xs: seq<real>, i: nat)
    requires i < |xs|
    ensures Sum(Without(xs, i)) == Sum(xs) - xs[i]
  {
    if i == 0 {
      assert Without(xs, 0) == xs[1..];
    } else {
      SumWithout(xs[1..], i - 1);
      var rest := Without(xs[1..], i - 1);
      assert Without(xs, i) == [xs[0]] + rest;
      assert ([xs[0]] + rest)[1..] == rest;
    }
  }

  ghost predicate EachWithin(xs: seq<real>, most: real) {
    forall i | 0 <= i < |xs| :: 0.0 <= xs[i] <= most
  }

  lemma {:induction false} SumWithin(xs: seq<real>, most: real)
    requires EachWithin(xs, most)
    ensures 0.0 <= Sum(xs) <= Times(|xs|, most)
  {
    if xs != [] {
      assert forall i | 0 <= i < |xs| - 1 :: xs[1..][i] == xs[i + 1];
      SumWithin(xs[1..], most);
    }
  }

  /** `n` times `x`, by addition: products stay out of the proofs about states. */
  function Times(n: nat, x: real): real {
    if n == 0 then 0.0 else Times(n - 1, x) + x
  }

  lemma {:induction false} TimesMonotone(a: nat, b: nat, x: real)
    requires a <= b && x >= 0.0
    ensures 0.0 <= Times(a, x) <= Times(b, x)
    decreases b
  {
    if a < b { TimesMonotone(a, b - 1, x); } else if b > 0 { TimesMonotone(a - 1, b - 1, x); }
  }

  lemma {:induction false} TimesIsProduct(n: nat, x: real)
    ensures Times(n, x) == n as real * x
  {
    if n > 0 {
      TimesIsProduct(n - 1, x);
      OneMore(n, x);
    }
  }

  lemma OneMore(n: nat, x: real)
    ensures n as real * x == (n - 1) as real * x + x
  {
  }

  /** Everything spent plus everything promised. */
  ghost predicate Covered(s: State, limit: real, most: real) {
    EachWithin(s.inFlight, most) && s.total + Sum(s.inFlight) <= limit
  }

  lemma StartKeepsCovered(budget: real, s: State, est: real, k: nat, most: real, limit: real)
    requires k >= 1 && 0.0 <= est <= most && limit >= budget + Times(k - 1, most)
    requires Covered(s, limit, most) && |Apply(budget, s, Start(est)).inFlight| <= k
    ensures Covered(Apply(budget, s, Start(est)), limit, most)
  {
    if Admits(s, budget, est) {
      SumAppend(s.inFlight, [est]);
      SumWithin(s.inFlight, most);
      TimesMonotone(|s.inFlight|, k - 1, most);
    }
  }

  lemma {:induction false} CoveredThroughout(budget: real, s: State, es: seq<Event>, k: nat, most: real, limit: real)
    requires k >= 1 && most >= 0.0 && limit >= budget + Times(k - 1, most)
    requires Possible(budget, s, es) && Bounded(budget, s, es, k, most) && Covered(s, limit, most)
    ensures After(budget, s, es).total <= limit + Excess(budget, s, es)
    decreases |es|
  {
    if es == [] {
      SumWithin(s.inFlight, most);
    } else {
      var s' := Apply(budget, s, es[0]);
      match es[0] {
        case Start(est) =>
          StartKeepsCovered(budget, s, est, k, most, limit);
          CoveredThroughout(budget, s', es[1..], k, most, limit);
        case StartUnnamed =>
          SumAppend(s.inFlight, [0.0]);
          CoveredThroughout(budget, s', es[1..], k, most, limit);
        case Finish(i, cost, _, _) =>
          SumWithout(s.inFlight, i);
          var excess := if cost > s.inFlight[i] then cost - s.inFlight[i] else 0.0;
          CoveredThroughout(budget, s', es[1..], k, most, limit + excess);
        case Fail(i) =>
          SumWithout(s.inFlight, i);
          CoveredThroughout(budget, s', es[1..], k, most, limit);
      }
    }
  }

  lemma OverspendInTimes(budget: real, es: seq<Event>, k: nat, most: real)
    requires budget >= 0.0 && k >= 1 && most >= 0.0
    requires Possible(budget, INIT, es) && Bounded(budget, INIT, es, k, most)
    ensures After(budget, INIT, es).total <= budget + Times(k - 1, most) + Excess(budget, INIT, es)
  {
    TimesMonotone(0, k - 1, most);
    CoveredThroughout(budget, INIT, es, k, most, budget + Times(k - 1, most));
  }

  /** With at most `k` calls in flight on one tracker and no estimate above `most`, in any
      interleaving of starts, failures and ends the total stays within budget + (k-1)*most, plus
      whatever finished calls cost beyond their estimates. One call at a time never breaks the
      budget by itself. */
  lemma OverspendIsBounded(budget: real, es: seq<Event>, k: nat, most: real)
    requires budget >= 0.0 && k >= 1 && most >= 0.0
    requires Possible(budget, INIT, es) && Bounded(budget, INIT, es, k, most)
    ensures After(budget, INIT, es).total <= budget + (k - 1) as real * most + Excess(budget, INIT, es)
  {
    OverspendInTimes(budget, es, k, most);
    TimesIsProduct(k - 1, most);
  }

  /** Each finished call cost at most what it was checked with. */
  ghost predicate WithinEstimates(budget: real, s: State, es: seq<Event>)
    requires Possible(budget, s, es)
    decreases |es|
  {
    es != [] ==>
      && (es[0].Finish? ==> es[0].cost <= s.inFlight[es[0].call])
      && WithinEstimates(budget, Apply(budget, s, es[0]), es[1..])
  }

  lemma {:induction false} NoExcess(budget: real, s: State, es: seq<Event>)
    requires Possible(budget, s, es) && WithinEstimates(budget, s, es)
    ensures Excess(budget, s, es) == 0.0
    decreases |es|
  {
    if es != [] { NoExcess(budget, Apply(budget, s, es[0]), es[1..]); }
  }

  /** So when estimates hold, `k` concurrent calls overspend by at most k-1 estimates, and a single
      one not at all. */
  lemma BudgetHolds(budget: real, es: seq<Event>, k: nat, most: real)
    requires budget >= 0.0 && k >= 1 && most >= 0.0
    requires Possible(budget, INIT, es) && Bounded(budget, INIT, es, k, most) && WithinEstimates(budget, INIT, es)
    ensures After(budget, INIT, es).total <= budget + (k - 1) as real * most
    ensures k == 1 ==> After(budget, INIT, es).total <= budget
  {
    OverspendIsBounded(budget, es, k, most);
    assert (k - 1) as real == 0.0 ==> (k - 1) as real * most == 0.0;
    NoExcess(budget, INIT, es);
  }

  /** One call from its admission to its end adds what it cost, and to the excess what that is beyond
      its estimate, whatever else is in flight. */
  lemma OneCall(budget: real, s: State, start: Event, est: real, cost: real, input: int, output: int)
    requires (start == StartUnnamed && est == 0.0) || (start == Start(est) && s.total + est <= budget)
    ensures var es := [start, Finish(|s.inFlight|, cost, input, output)];
            && Possible(budget, s, es)
            && After(budget, s, es) == State(s.total + cost, s.input + input, s.output + output, s.inFlight)
            && Excess(budget, s, es) == if cost > est then cost - est else 0.0
  {
    var es := [start, Finish(|s.inFlight|, cost, input, output)];
    var s1 := s.(inFlight := s.inFlight + [est]);
    assert Apply(budget, s, es[0]) == s1;
    assert es[1..][0] == es[1] && es[1..][1..] == [];
    assert Without(s1.inFlight, |s.inFlight|) == s.inFlight;
    assert After(budget, s1, es[1..]) == Apply(budget, s1, es[1]);
    assert Excess(budget, Apply(budget, s1, es[1]), []) == 0.0;
    assert Excess(budget, s1, es[1..]) == if cost > est then cost - est else 0.0;
  }

  /** A call of an unnamed model is checked against nothing: whatever it costs is spent. */
  lemma UnnamedCallsAreUnchecked(budget: real, s: State, cost: real, input: int, output: int)
    ensures var es := [StartUnnamed, Finish(|s.inFlight|, cost, input, output)];
            Possible(budget, s, es) && After(budget, s, es).total == s.total + cost
  {
    OneCall(budget, s, StartUnnamed, 0.0, cost, input, output);
  }

  // ---------------------------------------------------------------- the bound is tight

  function Repeat<T>(n: nat, x: T): seq<T> { seq(n, _ => x) }

  /** An execution within the bounds and within its estimates that ends at this total. */
  ghost predicate Spends(budget: real, s: State, es: seq<Event>, k: nat, most: real, total: real) {
    && Possible(budget, s, es) && Bounded(budget, s, es, k, most) && WithinEstimates(budget, s, es)
    && After(budget, s, es).total == total
  }

  lemma SpendsLater(budget: real, s: State, e: Event, es: seq<Event>, k: nat, most: real, total: real)
    requires Enabled(s, e) && |s.inFlight| <= k
    requires (e.Start? ==> 0.0 <= e.estimate <= most) && (e.Finish? ==> e.cost <= s.inFlight[e.call])
    requires Spends(budget, Apply(budget, s, e), es, k, most, total)
    ensures Spends(budget, s, [e] + es, k, most, total)
  {
    assert ([e] + es)[1..] == es;
  }

  /** `n` calls in flight end one after the other, each at its estimate. */
  lemma {:induction false} AllEnd(budget: real, s: State, n: nat, k: nat, most: real) returns (es: seq<Event>)
    requires n <= k && s.inFlight == Repeat(n, most)
    ensures Spends(budget, s, es, k, most, s.total + Times(n, most))
    decreases n
  {
    if n == 0 {
      es := [];
    } else {
      var e := Finish(0, most, 0, 0);
      assert Apply(budget, s, e).inFlight == Repeat(n - 1, most);
      var rest := AllEnd(budget, Apply(budget, s, e), n - 1, k, most);
      SpendsLater(budget, s, e, rest, k, most, s.total + Times(n, most));
      es := [e] + rest;
    }
  }

  /** With room left for one call, `k` are admitted: none counts until it ends. */
  lemma {:induction false} AllStart(budget: real, s: State, n: nat, k: nat, most: real) returns (es: seq<Event>)
    requires n <= k && most > 0.0 && s.inFlight == Repeat(n, most) && s.total + most == budget
    ensures Spends(budget, s, es, k, most, s.total + Times(k, most))
    decreases k - n
  {
    if n == k {
      es := AllEnd(budget, s, k, k, most);
    } else {
      var e := Start(most);
      assert Apply(budget, s, e).inFlight == Repeat(n + 1, most);
      var rest := AllStart(budget, Apply(budget, s, e), n + 1, k, most);
      SpendsLater(budget, s, e, rest, k, most, s.total + Times(k, most));
      es := [e] + rest;
    }
  }

  /** One call at a time uses the budget up until there is room left for just one more. */
  lemma {:induction false} UsedUp(budget: real, s: State, n: nat, k: nat, most: real) returns (es: seq<Event>)
    requires k >= 1 && most > 0.0 && s.inFlight == []
    requires s.total + most <= budget <= s.total + most + Times(n, most)
    ensures Spends(budget, s, es, k, most, budget - most + Times(k, most))
    decreases n
  {
    if s.total + most == budget {
      es := AllStart(budget, s, 0, k, most);
    } else {
      var room := budget - most - s.total;
      var x := if room < most then room else most;
      var s1 := Apply(budget, s, Start(x));
      var s2 := Apply(budget, s1, Finish(0, x, 0, 0));
      TimesMonotone(0, n - 1, most);
      var rest := UsedUp(budget, s2, n - 1, k, most);
      SpendsLater(budget, s1, Finish(0, x, 0, 0), rest, k, most, budget - most + Times(k, most));
      es := [Finish(0, x, 0, 0)] + rest;
      SpendsLater(budget, s, Start(x), es, k, most, budget - most + Times(k, most));
      es := [Start(x)] + es;
    }
  }

  lemma {:induction false} ManyTimesReach(x: real, most: real) returns (n: nat)
    requires x >= 0.0 && most > 0.0
    ensures x <= Times(n, most)
  {
    n := (x / most).Floor + 1;
    TimesIsProduct(n, most);
    assert x == (x / most) * most <= n as real * most;
  }

  /** For every budget that admits a call of the largest estimate, `k` calls at a time can spend all
      that the bound allows, each at its estimate. */
  lemma {:induction false} OverspendIsReached(budget: real, k: nat, most: real) returns (es: seq<Event>)
    requires k >= 1 && 0.0 < most <= budget
    ensures Possible(budget, INIT, es) && Bounded(budget, INIT, es, k, most) && WithinEstimates(budget, INIT, es)
    ensures After(budget, INIT, es).total == budget + (k - 1) as real * most
  {
    var n := ManyTimesReach(budget, most);
    es := UsedUp(budget, INIT, n, k, most);
    TimesIsProduct(k, most);
    OneMore(k, most);
  }

  // ---------------------------------------------------------------- conservation

  function Spent(es: seq<Event>): real {
    if es == [] then 0.0 else (if es[0].Finish? then es[0].cost else 0.0) + Spent(es[1..])
  }

  function TokensIn(es: seq<Event>): int {
    if es == [] then 0 else (if es[0].Finish? then es[0].input else 0) + TokensIn(es[1..])
  }

  function TokensOut(es: seq<Event>): int {
    if es == [] then 0 else (if es[0].Finish? then es[0].output else 0) + TokensOut(es[1..])
  }

  /** The totals are the sums over all finished calls, over-budget ones included. */
  lemma {:induction false} TotalsAreSums(budget: real, s: State, es: seq<Event>)
    requires Possible(budget, s, es)
    ensures var s' := After(budget, s, es);
            && s'.total == s.total + Spent(es)
            && s'.input == s.input + TokensIn(es)
            && s'.output == s.output + TokensOut(es)
    decreases |es|
  {
    if es != [] { TotalsAreSums(budget, Apply(budget, s, es[0]), es[1..]); }
  }

  // ---------------------------------------------------------------- the class

  class CostTracker {
    const budget: Option<real>
    var totalCost: real
    var inputTokens: int
    var outputTokens: int

    /** The tracker's part of the state; who is in flight is nobody's field. */
    ghost function Seen(inFlight: seq<real>): State
      reads this
    {
      State(totalCost, inputTokens, outputTokens, inFlight)
    }

    constructor (budget: Option<real>)
      ensures this.budget == budget && Seen([]) == INIT
    {
      this.budget, totalCost, inputTokens, outputTokens := budget, 0.0, 0, 0;
    }

    /** `on_chat_model_start`: true when the call is refused. `pricing` is what the model id resolves to. */
    method OnStart(named: bool, pricing: Option<ModelPricing>, strict: bool, inputTokens: int, maxOutputTokens: int)
      returns (r: Result<bool, Error>)
      ensures budget == None || !named ==> r == Ok(false)
      ensures budget.Some? && named ==>
                match Estimate(pricing, true, strict, inputTokens, maxOutputTokens)
                case Err(e) => r == Err(e)
                case Ok(est) => r == Ok(!Admits(Seen([]), budget.value, est))
    {
      if budget.None? || !named { return Ok(false); }
      var estimate := Estimate(pricing, named, strict, inputTokens, maxOutputTokens);
      if estimate.Err? { return Err(estimate.error); }
      var projected := totalCost + estimate.value;
      return Ok(projected > budget.value);
    }

    /** `on_llm_end`: the call is recorded first, then reported if the total is over budget. */
    method OnEnd(named: bool, pricing: Option<ModelPricing>, strict: bool, u: Usage, ghost inFlight: seq<real>,
            ghost call: nat)
      returns (r: Result<bool, Error>)
      requires call < |inFlight|
      modifies this
      ensures match CallCost(pricing, named, strict, u)
              case Err(e) => r == Err(e) && Seen(inFlight) == old(Seen(inFlight))
              case Ok(cost) =>
                && Seen(Without(inFlight, call)) ==
                     Apply(if budget.Some? then budget.value else 0.0, old(Seen(inFlight)),
                           Finish(call, cost, u.input, u.output))
                && r == Ok(budget.Some? && totalCost > budget.value)
    {
      var cost := CallCost(pricing, named, strict, u);
      if cost.Err? { return Err(cost.error); }
      inputTokens := inputTokens + u.input;
      outputTokens := outputTokens + u.output;
      totalCost := totalCost + cost.value;
      return Ok(budget.Some? && totalCost > budget.value);
    }
  }
}
