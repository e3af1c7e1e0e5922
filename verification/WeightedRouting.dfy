/** Weighted, sticky version selection: the first 32 bits of a key's digest pick a point on the
    line of cumulative weights. Weights and the point are exact (`real`); a digest prefix is a
    number from 0 to 2^32 - 1. */
module WeightedRouting {
  import opened Prelude

  const MAX_PREFIX: nat := 0xFFFF_FFFF

  predicate Weights(ws: seq<real>) {
    ws != [] && forall i | 0 <= i < |ws| :: ws[i] >= 0.0
  }

  /** Sum of the first `n` weights. */
  function Cumulative(ws: seq<real>, n: nat): real
    requires n <= |ws|
  {
    if n == 0 then 0.0 else Cumulative(ws, n - 1) + ws[n - 1]
  }

  function Total(ws: seq<real>): (t: real)
    requires Weights(ws)
    ensures t >= 0.0
  {
    CumulativeGrows(ws, 0, |ws|);
    Cumulative(ws, |ws|)
  }

  lemma {:induction false} CumulativeGrows(ws: seq<real>, m: nat, n: nat)
    requires Weights(ws) && m <= n <= |ws|
    ensures 0.0 <= Cumulative(ws, m) <= Cumulative(ws, n)
    decreases n
  {
    if n > 0 { CumulativeGrows(ws, if m < n then m else n - 1, n - 1); }
  }

  lemma {:induction false} CumulativeIsZeroIff(ws: seq<real>, n: nat)
    requires Weights(ws) && n <= |ws|
    ensures Cumulative(ws, n) == 0.0 <==> forall i | 0 <= i < n :: ws[i] == 0.0
  {
    if n > 0 {
      CumulativeIsZeroIff(ws, n - 1);
      CumulativeGrows(ws, 0, n - 1);
    }
  }

  lemma TotalIsZeroIff(ws: seq<real>)
    requires Weights(ws)
    ensures Total(ws) == 0.0 <==> forall i | 0 <= i < |ws| :: ws[i] == 0.0
  {
    CumulativeIsZeroIff(ws, |ws|);
  }

  lemma ScaleWithin(p: real, t: real)
    requires 0.0 <= p <= 1.0 && t >= 0.0
    ensures 0.0 <= p * t <= t
    ensures p * t > 0.0 <==> p > 0.0 && t > 0.0
  {
  }

  /** The part `p` of a length `t`. */
  function Scale(p: real, t: real): (x: real)
    requires 0.0 <= p <= 1.0 && t >= 0.0
    ensures 0.0 <= x <= t
    ensures x > 0.0 <==> p > 0.0 && t > 0.0
  {
    ScaleWithin(p, t);
    p * t
  }

  lemma ScaleAdds(p: real, a: real, b: real)
    requires 0.0 <= p <= 1.0 && a >= 0.0 && b >= 0.0
    ensures Scale(p, a + b) == Scale(p, a) + Scale(p, b)
  {
  }

  /** Where a digest prefix falls between 0 and 1. */
  function Fraction(h: nat): (p: real)
    requires h <= MAX_PREFIX
    ensures 0.0 <= p <= 1.0
    ensures p > 0.0 <==> h >= 1
    ensures p * MAX_PREFIX as real == h as real
  {
    h as real / MAX_PREFIX as real
  }

  function Threshold(ws: seq<real>, p: real): real
    requires Weights(ws) && 0.0 <= p <= 1.0
  {
    Scale(p, Total(ws))
  }

  /** The selection loop from index `i` on; `None` when it runs off the end. */
  function Scan(ws: seq<real>, threshold: real, i: nat): Option<nat>
    requires i <= |ws|
    decreases |ws| - i
  {
    if i == |ws| then None
    else if threshold <= Cumulative(ws, i + 1) then Some(i)
    else Scan(ws, threshold, i + 1)
  }

  /** The version at point `p` between 0 and 1, with the fallback after the loop. */
  function PickAt(ws: seq<real>, p: real): nat
    requires Weights(ws) && 0.0 <= p <= 1.0
  {
    match Scan(ws, Threshold(ws, p), 0)
    case Some(i) => i
    case None => |ws| - 1
  }

  function Pick(ws: seq<real>, h: nat): nat
    requires Weights(ws) && h <= MAX_PREFIX
  {
    PickAt(ws, Fraction(h))
  }

  method SelectWeighted(ws: seq<real>, h: nat) returns (index: nat)
    requires Weights(ws) && h <= MAX_PREFIX
    ensures index == Pick(ws, h)
  {
    var total, j := 0.0, 0;
    while j < |ws|
      invariant 0 <= j <= |ws| && total == Cumulative(ws, j)
    {
      total := total + ws[j];
      j := j + 1;
    }
    assert total == Total(ws);
    var threshold := Scale(Fraction(h), total);
    var cumulative, i := 0.0, 0;
    while i < |ws|
      invariant 0 <= i <= |ws| && cumulative == Cumulative(ws, i)
      invariant Scan(ws, threshold, 0) == Scan(ws, threshold, i)
    {
      cumulative := cumulative + ws[i];
      if threshold <= cumulative { return i; }
      i := i + 1;
    }
    return |ws| - 1;
  }

  // ---------------------------------------------------------------- the interval each version owns

  /** Half-open on the left, except that the first version also owns the point zero. */
  ghost predicate Owns(ws: seq<real>, i: nat, x: real)
    requires i < |ws|
  {
    (i == 0 || Cumulative(ws, i) < x) && x <= Cumulative(ws, i + 1)
  }

  lemma {:induction false} ScanFindsOwner(ws: seq<real>, x: real, i: nat)
    requires Weights(ws) && i < |ws| && x <= Total(ws)
    requires i == 0 || Cumulative(ws, i) < x
    ensures Scan(ws, x, i).Some? && i <= Scan(ws, x, i).value < |ws| && Owns(ws, Scan(ws, x, i).value, x)
    decreases |ws| - i
  {
    if x > Cumulative(ws, i + 1) { ScanFindsOwner(ws, x, i + 1); }
  }

  lemma OneOwner(ws: seq<real>, i: nat, j: nat, x: real)
    requires Weights(ws) && i < |ws| && j < |ws| && Owns(ws, i, x) && Owns(ws, j, x)
    ensures i == j
  {
    if i < j { CumulativeGrows(ws, i + 1, j); }
    if j < i { CumulativeGrows(ws, j + 1, i); }
  }

  lemma PickAtIsOwner(ws: seq<real>, p: real)
    requires Weights(ws) && 0.0 <= p <= 1.0
    ensures Scan(ws, Threshold(ws, p), 0).Some?
    ensures PickAt(ws, p) < |ws|
    ensures forall i: nat | i < |ws| :: PickAt(ws, p) == i <==> Owns(ws, i, Threshold(ws, p))
  {
    ScanFindsOwner(ws, Threshold(ws, p), 0);
    forall i: nat | i < |ws| && Owns(ws, i, Threshold(ws, p)) ensures PickAt(ws, p) == i {
      OneOwner(ws, i, PickAt(ws, p), Threshold(ws, p));
    }
  }

  /** The loop always returns from its body, so the trailing fallback is dead code, and it
      returns the one version whose interval holds the threshold. */
  lemma PickIsOwner(ws: seq<real>, h: nat)
    requires Weights(ws) && h <= MAX_PREFIX
    ensures Scan(ws, Threshold(ws, Fraction(h)), 0).Some?
    ensures Pick(ws, h) < |ws|
    ensures forall i: nat | i < |ws| :: Pick(ws, h) == i <==> Owns(ws, i, Threshold(ws, Fraction(h)))
  {
    PickAtIsOwner(ws, Fraction(h));
  }

  lemma PicksPositiveAt(ws: seq<real>, p: real)
    requires Weights(ws) && Total(ws) > 0.0 && 0.0 <= p <= 1.0
    ensures PickAt(ws, p) < |ws|
    ensures ws[PickAt(ws, p)] > 0.0 <==> p > 0.0 || ws[0] > 0.0
  {
    var i, x := PickAt(ws, p), Threshold(ws, p);
    PickAtIsOwner(ws, p);
    CumulativeGrows(ws, 0, i);
    CumulativeGrows(ws, 0, 1);
    assert Owns(ws, i, x);
    assert Owns(ws, 0, 0.0);
  }

  /** A prefix lands on a version of positive weight, with one exception: prefix 0 always takes the
      first version, even when its weight is zero. */
  lemma PicksPositiveWeight(ws: seq<real>, h: nat)
    requires Weights(ws) && Total(ws) > 0.0 && h <= MAX_PREFIX
    ensures Pick(ws, h) < |ws|
    ensures ws[Pick(ws, h)] > 0.0 <==> h >= 1 || ws[0] > 0.0
  {
    PicksPositiveAt(ws, Fraction(h));
  }

  /** The two ends of the line: prefix 0 takes the first version, and the largest prefix the last
      one if its weight is positive. */
  lemma PickAtEnds(ws: seq<real>)
    requires Weights(ws)
    ensures Pick(ws, 0) == 0
    ensures ws[|ws| - 1] > 0.0 ==> Pick(ws, MAX_PREFIX) == |ws| - 1
  {
    PickIsOwner(ws, 0);
    PickIsOwner(ws, MAX_PREFIX);
    CumulativeGrows(ws, 0, 1);
    assert Owns(ws, 0, Threshold(ws, Fraction(0)));
    assert Fraction(MAX_PREFIX) == 1.0;
    assert Threshold(ws, 1.0) == Total(ws);
    assert ws[|ws| - 1] > 0.0 ==> Owns(ws, |ws| - 1, Threshold(ws, 1.0));
  }

  // ---------------------------------------------------------------- ramping one version

  lemma {:induction false} RaiseCumulative(ws: seq<real>, j: nat, w: real, n: nat)
    requires Weights(ws) && j < |ws| && n <= |ws|
    ensures Cumulative(ws[j := w], n) == Cumulative(ws, n) + if n <= j then 0.0 else w - ws[j]
  {
    if n > 0 { RaiseCumulative(ws, j, w, n - 1); }
  }

  lemma RaiseThreshold(ws: seq<real>, j: nat, w: real, p: real)
    requires Weights(ws) && j < |ws| && w >= ws[j] && 0.0 <= p <= 1.0
    ensures 0.0 <= Threshold(ws[j := w], p) - Threshold(ws, p) <= w - ws[j]
  {
    var d := w - ws[j];
    RaiseCumulative(ws, j, w, |ws|);
    ScaleAdds(p, Total(ws), d);
  }

  /** The two places lie on the same side of `j`, the second nearer to it. */
  predicate Nearer(before: nat, after: nat, j: nat) {
    if before <= j then before <= after <= j else j <= after <= before
  }

  lemma RaiseMovesTowardsAt(ws: seq<real>, j: nat, w: real, p: real)
    requires Weights(ws) && j < |ws| && w >= ws[j] && 0.0 <= p <= 1.0
    ensures var before, after := PickAt(ws, p), PickAt(ws[j := w], p); Nearer(before, after, j)
  {
    var ws' := ws[j := w];
    var i, i', x, x' := PickAt(ws, p), PickAt(ws', p), Threshold(ws, p), Threshold(ws', p);
    PickAtIsOwner(ws, p);
    PickAtIsOwner(ws', p);
    RaiseThreshold(ws, j, w, p);
    RaiseCumulative(ws, j, w, i');
    RaiseCumulative(ws, j, w, i' + 1);
    assert Owns(ws, i, x) && Owns(ws', i', x');
    if i' < i && i' < j { CumulativeGrows(ws, i' + 1, i); }
    if i' > i && i' > j { CumulativeGrows(ws, if i >= j then i + 1 else j + 1, i'); CumulativeGrows(ws, i + 1, i'); }
  }

  /** Raising the weight of version `j` moves every key only towards `j`, and never past it. */
  lemma RaiseMovesTowards(ws: seq<real>, j: nat, w: real, h: nat)
    requires Weights(ws) && j < |ws| && w >= ws[j] && h <= MAX_PREFIX
    ensures var before, after := Pick(ws, h), Pick(ws[j := w], h); Nearer(before, after, j)
  {
    RaiseMovesTowardsAt(ws, j, w, Fraction(h));
  }

  /** One ramp: the successive weights given to version `j`, never lowered. */
  ghost predicate Ramp(ws: seq<real>, j: nat, steps: seq<real>)
    requires j < |ws|
    decreases |steps|
  {
    steps != [] ==> steps[0] >= ws[j] && Ramp(ws[j := steps[0]], j, steps[1..])
  }

  ghost function Ramped(ws: seq<real>, j: nat, steps: seq<real>): seq<real>
    requires j < |ws|
    decreases |steps|
  {
    if steps == [] then ws else Ramped(ws[j := steps[0]], j, steps[1..])
  }

  /** Over a whole ramp: a caller already on `j` stays there, and every other caller only ever
      comes closer. Ramping a canary never sends anyone back to the baseline. */
  lemma {:induction false} RampNeverGoesBack(ws: seq<real>, j: nat, steps: seq<real>, h: nat)
    requires Weights(ws) && j < |ws| && h <= MAX_PREFIX && Ramp(ws, j, steps)
    ensures Weights(Ramped(ws, j, steps))
    ensures var before, after := Pick(ws, h), Pick(Ramped(ws, j, steps), h); Nearer(before, after, j)
    decreases |steps|
  {
    if steps != [] {
      RaiseMovesTowards(ws, j, steps[0], h);
      RampNeverGoesBack(ws[j := steps[0]], j, steps[1..], h);
    }
  }

  // ---------------------------------------------------------------- how many keys each version gets

  /** The prefixes routed to version `i`. */
  ghost function Routed(ws: seq<real>, i: nat): set<int>
    requires Weights(ws)
  {
    set h: int | 0 <= h <= MAX_PREFIX && Pick(ws, h) == i
  }

  /** The exact, fractional number of prefixes below version `i`. */
  ghost function Share(ws: seq<real>, i: nat): real
    requires Weights(ws) && Total(ws) > 0.0 && i <= |ws|
  {
    Part(MAX_PREFIX as real, Cumulative(ws, i), Total(ws))
  }

  ghost function Part(m: real, c: real, t: real): real
    requires t > 0.0
  {
    m * c / t
  }

  lemma TimesKeepsOrder(a: real, b: real, t: real)
    requires t > 0.0
    ensures a <= b <==> a * t <= b * t
  {
    if a <= b { assert (b - a) * t >= 0.0; } else { assert (a - b) * t > 0.0; }
  }

  lemma TimesCompare(p: real, m: real, t: real, c: real)
    requires m > 0.0 && t > 0.0
    ensures p * t <= c <==> p * m <= m * c / t
  {
    TimesKeepsOrder(p * t, c, m);
    TimesKeepsOrder(p * m, m * c / t, t);
    assert m * c / t * t == m * c;
    assert p * t * m == p * m * t;
  }

  /** The comparison the loop makes, scaled from the weights to `m` prefixes. */
  lemma ScaledCompare(p: real, m: real, t: real, c: real)
    requires 0.0 <= p <= 1.0 && m > 0.0 && t > 0.0
    ensures Scale(p, t) <= c <==> p * m <= Part(m, c, t)
  {
    TimesCompare(p, m, t, c);
  }

  lemma RoutedByShare(ws: seq<real>, i: nat, h: nat)
    requires Weights(ws) && Total(ws) > 0.0 && i < |ws| && h <= MAX_PREFIX
    ensures Pick(ws, h) == i <==> (i == 0 || Share(ws, i) < h as real) && h as real <= Share(ws, i + 1)
  {
    BoundIsShare(ws, i, h);
    BoundIsShare(ws, i + 1, h);
    PickIsOwner(ws, h);
    assert Pick(ws, h) == i <==> Owns(ws, i, Threshold(ws, Fraction(h)));
  }

  lemma BoundIsShare(ws: seq<real>, i: nat, h: nat)
    requires Weights(ws) && Total(ws) > 0.0 && i <= |ws| && h <= MAX_PREFIX
    ensures Threshold(ws, Fraction(h)) <= Cumulative(ws, i) <==> h as real <= Share(ws, i)
  {
    ScaledCompare(Fraction(h), MAX_PREFIX as real, Total(ws), Cumulative(ws, i));
  }

  ghost function Range(lo: int, hi: int): (s: set<int>)
    ensures forall h :: h in s <==> lo <= h <= hi
    decreases hi + 1 - lo
  {
    if lo > hi then {} else Range(lo, hi - 1) + {hi}
  }

  lemma {:induction false} RangeSize(lo: int, hi: int)
    requires lo <= hi + 1
    ensures |Range(lo, hi)| == hi + 1 - lo
    decreases hi + 1 - lo
  {
    if lo <= hi { RangeSize(lo, hi - 1); }
  }

  lemma ShareGrows(ws: seq<real>, i: nat)
    requires Weights(ws) && Total(ws) > 0.0 && i < |ws|
    ensures 0.0 <= Share(ws, i) <= Share(ws, i + 1) <= MAX_PREFIX as real
    ensures Share(ws, i + 1) - Share(ws, i) == Part(MAX_PREFIX as real, ws[i], Total(ws))
  {
    var m, t, a, b := MAX_PREFIX as real, Total(ws), Cumulative(ws, i), Cumulative(ws, i + 1);
    CumulativeGrows(ws, 0, i);
    CumulativeGrows(ws, i, i + 1);
    CumulativeGrows(ws, i + 1, |ws|);
    DividedShares(m, t, a, b);
  }

  lemma DividedShares(m: real, t: real, a: real, b: real)
    requires m > 0.0 && 0.0 <= a <= b <= t && t > 0.0
    ensures 0.0 <= Part(m, a, t) <= Part(m, b, t) <= m
    ensures Part(m, b, t) - Part(m, a, t) == Part(m, b - a, t)
  {
    var x, y, z := m * a / t, m * b / t, m * (b - a) / t;
    assert x * t == m * a && y * t == m * b && z * t == m * (b - a);
    assert m * a >= 0.0 && m * (b - a) >= 0.0 && m * (t - b) >= 0.0;
    TimesKeepsOrder(0.0, x, t);
    TimesKeepsOrder(x, y, t);
    TimesKeepsOrder(y, m, t);
    TimesKeepsOrder(y - x, z, t);
    TimesKeepsOrder(z, y - x, t);
  }

  lemma NoShare(m: real, t: real)
    requires t > 0.0
    ensures Part(m, 0.0, t) == 0.0
  {
  }

  /** Of the 2^32 prefixes, version `i` gets its exact proportion of 2^32 - 1 to within one. */
  lemma Apportionment(ws: seq<real>, i: nat)
    requires Weights(ws) && Total(ws) > 0.0 && i < |ws|
    ensures -1.0 <= |Routed(ws, i)| as real - Part(MAX_PREFIX as real, ws[i], Total(ws)) <= 1.0
  {
    ShareGrows(ws, i);
    var lo := if i == 0 then 0 else Share(ws, i).Floor + 1;
    var hi := Share(ws, i + 1).Floor;
    forall h: int | 0 <= h <= MAX_PREFIX ensures Pick(ws, h) == i <==> lo <= h <= hi {
      RoutedByShare(ws, i, h);
    }
    assert hi <= MAX_PREFIX;
    assert Routed(ws, i) == Range(lo, hi);
    RangeSize(lo, hi);
    if i == 0 { NoShare(MAX_PREFIX as real, Total(ws)); }
  }
}
