/** The in-memory sliding-window rate limiter.

    `Limiter` is the limiter's state as a value and `Step` what one locked call does to it;
    the class `RateLimiter` updates the same state in place and is proved to take that step.
    Two theorems then speak about whole call sequences: under a steady clock the limiter
    cannot be told apart from one that never forgets a timestamp, and under a skewed clock it
    still bounds every window shortened by twice the skew. */
module SlidingWindow {
  import opened Prelude

  type Key = string
  type Time = real
  type Buckets = map<Key, seq<Time>>

  datatype Config = Config(maxRequests: int, window: Time) {
    ghost predicate Valid() { maxRequests >= 1 && window > 0.0 }
  }

  datatype Limiter = Limiter(buckets: Buckets, accepts: nat)

  datatype Call = Admit(key: Key, now: Time) | Query(key: Key, now: Time)
  datatype Answer = Allowed(ok: bool) | Left(n: int)

  const EVICT_INTERVAL: nat := 100

  const FRESH := Limiter(map[], 0)

  // ---------------------------------------------------------------- one call

  function Bucket(m: Buckets, k: Key): seq<Time> {
    if k in m then m[k] else []
  }

  /** Drops expired timestamps from the front only. */
  function Prune(b: seq<Time>, cutoff: Time): seq<Time> {
    if b != [] && b[0] < cutoff then Prune(b[1..], cutoff) else b
  }

  /** A bucket is judged by its last element alone. */
  predicate Stale(b: seq<Time>, cutoff: Time) {
    b == [] || b[|b| - 1] < cutoff
  }

  function Evict(m: Buckets, cutoff: Time): Buckets {
    map k | k in m && !Stale(m[k], cutoff) :: m[k]
  }

  /** How many timestamps are at or after `cutoff`, wherever they stand. */
  function CountFrom(s: seq<Time>, cutoff: Time): nat {
    if s == [] then 0 else (if s[0] >= cutoff then 1 else 0) + CountFrom(s[1..], cutoff)
  }

  function Step(c: Config, s: Limiter, call: Call): (Limiter, Answer) {
    var cutoff := call.now - c.window;
    match call
    case Admit(k, now) =>
      var kept := Prune(Bucket(s.buckets, k), cutoff);
      if |kept| >= c.maxRequests then
        (s.(buckets := s.buckets[k := kept]), Allowed(false))
      else
        var buckets := s.buckets[k := kept + [now]];
        var accepts := s.accepts + 1;
        (Limiter(if accepts % EVICT_INTERVAL == 0 then Evict(buckets, cutoff) else buckets, accepts),
         Allowed(true))
    case Query(k, now) =>
      (s, Left(Max(0, c.maxRequests - CountFrom(Bucket(s.buckets, k), cutoff))))
  }

  function Run(c: Config, s: Limiter, calls: seq<Call>): (answers: seq<Answer>)
    ensures |answers| == |calls|
    decreases |calls|
  {
    if calls == [] then [] else
      var (s', answer) := Step(c, s, calls[0]);
      [answer] + Run(c, s', calls[1..])
  }

  /** The limiter's state once every call has been served. */
  function Final(c: Config, s: Limiter, calls: seq<Call>): Limiter
    decreases |calls|
  {
    if calls == [] then s else Final(c, Step(c, s, calls[0]).0, calls[1..])
  }

  // ------------------------------------------------- the limiter that never forgets

  function CountIn(s: seq<Time>, lo: Time, hi: Time): nat {
    if s == [] then 0 else (if lo <= s[0] <= hi then 1 else 0) + CountIn(s[1..], lo, hi)
  }

  /** The reference: keep every accepted timestamp, count those in [now - window, now]. */
  function NaiveStep(c: Config, log: Buckets, call: Call): (Buckets, Answer) {
    var recent := CountIn(Bucket(log, call.key), call.now - c.window, call.now);
    match call
    case Admit(k, now) =>
      if recent >= c.maxRequests then (log, Allowed(false))
      else (log[k := Bucket(log, k) + [now]], Allowed(true))
    case Query(k, now) => (log, Left(Max(0, c.maxRequests - recent)))
  }

  function NaiveRun(c: Config, log: Buckets, calls: seq<Call>): seq<Answer>
    decreases |calls|
  {
    if calls == [] then [] else
      var (log', answer) := NaiveStep(c, log, calls[0]);
      [answer] + NaiveRun(c, log', calls[1..])
  }

  /** The timestamps accepted for `k`, read off the calls and the answers they got. */
  function Accepted(calls: seq<Call>, answers: seq<Answer>, k: Key): seq<Time>
    requires |calls| == |answers|
  {
    if calls == [] then [] else
      AcceptedBy(calls[0], answers[0], k) + Accepted(calls[1..], answers[1..], k)
  }

  function AcceptedBy(call: Call, answer: Answer, k: Key): seq<Time> {
    if call.Admit? && call.key == k && answer == Allowed(true) then [call.now] else []
  }

  /** No call is timestamped more than `d` below a call that took the lock before it. */
  ghost predicate Skewed(calls: seq<Call>, d: Time) {
    forall i, j | 0 <= i < j < |calls| :: calls[j].now >= calls[i].now - d
  }

  // ---------------------------------------------------------------- invariant

  /** Bucket `b` against everything accepted for its key, `a`, when no timestamp so far
      exceeds `high`: `b` is the tail of `a`, and what was dropped is long past. */
  ghost predicate Tracks(c: Config, d: Time, b: seq<Time>, a: seq<Time>, high: Time) {
    && |b| <= |a|
    && b == a[|a| - |b|..]
    && (forall i | 0 <= i < |a| - |b| :: a[i] < high - c.window + d)
    && (forall i | 0 <= i < |a| :: a[i] <= high)
    && (forall i, j | 0 <= i < j < |a| :: a[j] >= a[i] - d)
  }

  function Later(a: Time, b: Time): Time { if a >= b then a else b }

  lemma {:induction false} PruneIsTail(b: seq<Time>, cutoff: Time)
    ensures var p := Prune(b, cutoff);
            && |p| <= |b| && p == b[|b| - |p|..]
            && (forall i | 0 <= i < |b| - |p| :: b[i] < cutoff)
            && (p != [] ==> p[0] >= cutoff)
  {
    if b != [] && b[0] < cutoff {
      PruneIsTail(b[1..], cutoff);
      var p := Prune(b, cutoff);
      assert forall i | 1 <= i < |b| - |p| :: b[i] == b[1..][i - 1];
    }
  }

  lemma {:induction false} CountInConcat(a: seq<Time>, b: seq<Time>, lo: Time, hi: Time)
    ensures CountIn(a + b, lo, hi) == CountIn(a, lo, hi) + CountIn(b, lo, hi)
  {
    if a == [] {
      assert a + b == b;
    } else {
      assert (a + b)[1..] == a[1..] + b;
      CountInConcat(a[1..], b, lo, hi);
    }
  }

  lemma {:induction false} CountInAtMostLength(s: seq<Time>, lo: Time, hi: Time)
    ensures CountIn(s, lo, hi) <= |s|
  {
    if s != [] { CountInAtMostLength(s[1..], lo, hi); }
  }

  lemma {:induction false} CountInBelow(s: seq<Time>, lo: Time, hi: Time)
    requires forall i | 0 <= i < |s| :: s[i] < lo
    ensures CountIn(s, lo, hi) == 0
  {
    if s != [] { CountInBelow(s[1..], lo, hi); }
  }

  lemma {:induction false} CountInWithin(s: seq<Time>, lo: Time, hi: Time)
    requires forall i | 0 <= i < |s| :: lo <= s[i] <= hi
    ensures CountIn(s, lo, hi) == |s|
  {
    if s != [] { CountInWithin(s[1..], lo, hi); }
  }

  lemma {:induction false} CountFromIsCountIn(s: seq<Time>, lo: Time, hi: Time)
    requires forall i | 0 <= i < |s| :: s[i] <= hi
    ensures CountFrom(s, lo) == CountIn(s, lo, hi)
  {
    if s != [] { CountFromIsCountIn(s[1..], lo, hi); }
  }

  /** A closed window no longer than `window - 2d` that contains `now` misses everything dropped. */
  lemma DroppedIsOutside(c: Config, d: Time, b: seq<Time>, a: seq<Time>, high: Time, lo: Time, hi: Time)
    requires Tracks(c, d, b, a, high)
    requires high - c.window + d <= lo
    ensures CountIn(a, lo, hi) == CountIn(b, lo, hi)
  {
    var dropped := a[..|a| - |b|];
    assert a == dropped + b;
    CountInConcat(dropped, b, lo, hi);
    CountInBelow(dropped, lo, hi);
  }

  /** Pruning keeps the relation. */
  lemma PruneTracks(c: Config, d: Time, b: seq<Time>, a: seq<Time>, high: Time, now: Time)
    requires c.Valid() && d >= 0.0
    requires Tracks(c, d, b, a, high)
    ensures Tracks(c, d, Prune(b, now - c.window), a, Later(high, now))
  {
    var p := Prune(b, now - c.window);
    PruneIsTail(b, now - c.window);
    assert p == a[|a| - |p|..];
    forall i | 0 <= i < |a| - |p|
      ensures a[i] < Later(high, now) - c.window + d
    {
      if i >= |a| - |b| { assert a[i] == b[i - (|a| - |b|)]; }
    }
  }

  /** Dropping a whole stale bucket keeps the relation: this is where the second `d` is spent. */
  lemma EvictTracks(c: Config, d: Time, b: seq<Time>, a: seq<Time>, high: Time, cutoff: Time)
    requires d >= 0.0 && cutoff <= high - c.window
    requires Tracks(c, d, b, a, high)
    requires Stale(b, cutoff)
    ensures Tracks(c, d, [], a, high)
  {
    forall i | 0 <= i < |a|
      ensures a[i] < high - c.window + d
    {
      if i >= |a| - |b| {
        assert a[|a| - 1] == b[|b| - 1] < cutoff;
      }
    }
  }

  /** Accepting `now` keeps the relation. */
  lemma PushTracks(c: Config, d: Time, b: seq<Time>, a: seq<Time>, high: Time, now: Time)
    requires Tracks(c, d, b, a, high)
    requires high - d <= now <= high
    ensures Tracks(c, d, b + [now], a + [now], high)
  {
    var a', b' := a + [now], b + [now];
    assert b' == a'[|a'| - |b'|..];
  }

  /** What a call leaves in `k`'s bucket before eviction. */
  function Touched(c: Config, s: Limiter, call: Call, k: Key): seq<Time> {
    var b := Bucket(s.buckets, k);
    if !call.Admit? || call.key != k then b else
      var kept := Prune(b, call.now - c.window);
      if |kept| < c.maxRequests then kept + [call.now] else kept
  }

  lemma StepBucket(c: Config, s: Limiter, call: Call, k: Key)
    ensures var b' := Bucket(Step(c, s, call).0.buckets, k);
            b' == Touched(c, s, call, k) || (b' == [] && Stale(Touched(c, s, call, k), call.now - c.window))
    ensures AcceptedBy(call, Step(c, s, call).1, k) ==
            if call.Admit? && call.key == k && |Prune(Bucket(s.buckets, k), call.now - c.window)| < c.maxRequests
            then [call.now] else []
  {
  }

  /** What the call does to its own key's bucket keeps the relation. */
  lemma TouchTracks(c: Config, d: Time, b: seq<Time>, a: seq<Time>, high: Time, now: Time)
    requires c.Valid() && d >= 0.0
    requires Tracks(c, d, b, a, high) && now >= high - d
    ensures Tracks(c, d, Prune(b, now - c.window), a, Later(high, now))
    ensures Tracks(c, d, Prune(b, now - c.window) + [now], a + [now], Later(high, now))
  {
    PruneTracks(c, d, b, a, high, now);
    PushTracks(c, d, Prune(b, now - c.window), a, Later(high, now), now);
  }

  lemma LaterTracks(c: Config, d: Time, b: seq<Time>, a: seq<Time>, high: Time, now: Time)
    requires Tracks(c, d, b, a, high)
    ensures Tracks(c, d, b, a, Later(high, now))
  {
  }

  lemma TouchedTracks(c: Config, d: Time, s: Limiter, call: Call, k: Key, a: seq<Time>, high: Time)
    requires c.Valid() && d >= 0.0
    requires Tracks(c, d, Bucket(s.buckets, k), a, high)
    requires call.now >= high - d
    ensures Tracks(c, d, Touched(c, s, call, k), a + AcceptedBy(call, Step(c, s, call).1, k), Later(high, call.now))
  {
    StepBucket(c, s, call, k);
    assert a + [] == a;
    if call.Admit? && call.key == k {
      TouchTracks(c, d, Bucket(s.buckets, k), a, high, call.now);
    } else {
      LaterTracks(c, d, Bucket(s.buckets, k), a, high, call.now);
    }
  }

  /** One call, seen by one key: the relation is kept. */
  lemma StepTracks(c: Config, d: Time, s: Limiter, call: Call, k: Key, a: seq<Time>, high: Time)
    requires c.Valid() && d >= 0.0
    requires Tracks(c, d, Bucket(s.buckets, k), a, high)
    requires call.now >= high - d
    ensures var (s', answer) := Step(c, s, call);
            Tracks(c, d, Bucket(s'.buckets, k), a + AcceptedBy(call, answer, k), Later(high, call.now))
  {
    StepBucket(c, s, call, k);
    TouchedTracks(c, d, s, call, k, a, high);
    var touched, cutoff := Touched(c, s, call, k), call.now - c.window;
    if Stale(touched, cutoff) {
      EvictTracks(c, d, touched, a + AcceptedBy(call, Step(c, s, call).1, k), Later(high, call.now), cutoff);
    }
  }

  /** One call never overfills a window of length `window - 2d`. */
  lemma StepLimits(c: Config, d: Time, s: Limiter, call: Call, k: Key, a: seq<Time>, high: Time, x: Time)
    requires c.Valid() && d >= 0.0
    requires Tracks(c, d, Bucket(s.buckets, k), a, high)
    requires call.now >= high - d
    requires CountIn(a, x, x + c.window - 2.0 * d) <= c.maxRequests
    ensures CountIn(a + AcceptedBy(call, Step(c, s, call).1, k), x, x + c.window - 2.0 * d) <= c.maxRequests
  {
    var hi, cutoff := x + c.window - 2.0 * d, call.now - c.window;
    StepBucket(c, s, call, k);
    if AcceptedBy(call, Step(c, s, call).1, k) == [] {
      assert a + [] == a;
    } else {
      CountInConcat(a, [call.now], x, hi);
      if x <= call.now <= hi {
        var b := Bucket(s.buckets, k);
        DroppedIsOutside(c, d, b, a, high, x, hi);
        PrunedIsOutside(b, cutoff, x, hi);
        CountInAtMostLength(Prune(b, cutoff), x, hi);
      }
    }
  }

  lemma PrunedIsOutside(b: seq<Time>, cutoff: Time, lo: Time, hi: Time)
    requires cutoff <= lo
    ensures CountIn(b, lo, hi) == CountIn(Prune(b, cutoff), lo, hi)
  {
    PruneIsTail(b, cutoff);
    var dropped := b[..|b| - |Prune(b, cutoff)|];
    assert b == dropped + Prune(b, cutoff);
    CountInConcat(dropped, Prune(b, cutoff), lo, hi);
    CountInBelow(dropped, lo, hi);
  }

  ghost predicate NoneBefore(calls: seq<Call>, t: Time) {
    forall call | call in calls :: call.now >= t
  }

  lemma SkewedTail(calls: seq<Call>, d: Time, high: Time)
    requires calls != [] && Skewed(calls, d) && NoneBefore(calls, high - d)
    ensures Skewed(calls[1..], d) && NoneBefore(calls[1..], Later(high, calls[0].now) - d)
  {
    forall i, j | 0 <= i < j < |calls| - 1 ensures calls[1..][j].now >= calls[1..][i].now - d {
      assert calls[1..][i] == calls[i + 1] && calls[1..][j] == calls[j + 1];
    }
    forall call | call in calls[1..] ensures call.now >= Later(high, calls[0].now) - d {
      var j :| 0 <= j < |calls| - 1 && calls[1..][j] == call;
      assert calls[j + 1] == call && calls[0].now - d <= calls[j + 1].now;
    }
  }

  lemma AcceptedUnfolds(c: Config, s: Limiter, calls: seq<Call>, k: Key, a: seq<Time>)
    requires calls != []
    ensures var (s', answer) := Step(c, s, calls[0]);
            a + Accepted(calls, Run(c, s, calls), k)
            == a + AcceptedBy(calls[0], answer, k) + Accepted(calls[1..], Run(c, s', calls[1..]), k)
  {
    var (s', answer) := Step(c, s, calls[0]);
    assert Run(c, s, calls)[1..] == Run(c, s', calls[1..]);
  }

  lemma {:induction false} WindowFrom(c: Config, d: Time, s: Limiter, calls: seq<Call>, k: Key, a: seq<Time>,
          high: Time, x: Time)
    requires c.Valid() && d >= 0.0 && Skewed(calls, d) && NoneBefore(calls, high - d)
    requires Tracks(c, d, Bucket(s.buckets, k), a, high)
    requires CountIn(a, x, x + c.window - 2.0 * d) <= c.maxRequests
    ensures CountIn(a + Accepted(calls, Run(c, s, calls), k), x, x + c.window - 2.0 * d) <= c.maxRequests
    decreases |calls|
  {
    if calls == [] {
      assert a + [] == a;
    } else {
      var (s', answer) := Step(c, s, calls[0]);
      var a' := a + AcceptedBy(calls[0], answer, k);
      assert calls[0] in calls;
      StepTracks(c, d, s, calls[0], k, a, high);
      StepLimits(c, d, s, calls[0], k, a, high, x);
      SkewedTail(calls, d, high);
      WindowFrom(c, d, s', calls[1..], k, a', Later(high, calls[0].now), x);
      AcceptedUnfolds(c, s, calls, k, a);
    }
  }

  // ---------------------------------------------------------------- main results

  /** Timestamps are read before the lock is taken, so calls may arrive up to `d` out of order.
      Even so no closed interval of length `window - 2d` holds more than `maxRequests` accepts. */
  lemma SkewedClockStillLimits(c: Config, d: Time, calls: seq<Call>, k: Key, x: Time)
    requires c.Valid() && d >= 0.0 && Skewed(calls, d)
    ensures CountIn(Accepted(calls, Run(c, FRESH, calls), k), x, x + c.window - 2.0 * d) <= c.maxRequests
  {
    if calls != [] {
      SkewedFromFirst(calls, d);
      WindowFrom(c, d, FRESH, calls, k, [], calls[0].now, x);
      var accepted := Accepted(calls, Run(c, FRESH, calls), k);
      assert [] + accepted == accepted;
    }
  }

  lemma SkewedFromFirst(calls: seq<Call>, d: Time)
    requires calls != [] && d >= 0.0 && Skewed(calls, d)
    ensures NoneBefore(calls, calls[0].now - d)
  {
    forall call | call in calls ensures call.now >= calls[0].now - d {
      var j :| 0 <= j < |calls| && calls[j] == call;
      if j > 0 { assert calls[j].now >= calls[0].now - d; }
    }
  }

  ghost predicate TracksAll(c: Config, s: Limiter, log: Buckets, high: Time) {
    forall k :: Tracks(c, 0.0, Bucket(s.buckets, k), Bucket(log, k), high)
  }

  /** Under a steady clock what survives pruning is exactly what the full log holds in the window. */
  lemma BucketCounts(c: Config, b: seq<Time>, a: seq<Time>, high: Time, now: Time)
    requires c.Valid() && now >= high
    requires Tracks(c, 0.0, b, a, high)
    ensures CountIn(a, now - c.window, now) == |Prune(b, now - c.window)| == CountFrom(b, now - c.window)
  {
    var cutoff := now - c.window;
    DroppedIsOutside(c, 0.0, b, a, high, cutoff, now);
    CountFromIsCountIn(b, cutoff, now);
    PrunedIsOutside(b, cutoff, cutoff, now);
    PruneTracks(c, 0.0, b, a, high, now);
    var p := Prune(b, cutoff);
    PruneIsTail(b, cutoff);
    forall i | 0 <= i < |p| ensures cutoff <= p[i] <= now {
      assert p[i] == a[|a| - |p| + i] && p[0] == a[|a| - |p|];
    }
    CountInWithin(p, cutoff, now);
  }

  lemma AnswersAgree(c: Config, s: Limiter, log: Buckets, call: Call, high: Time)
    requires c.Valid() && call.now >= high
    requires Tracks(c, 0.0, Bucket(s.buckets, call.key), Bucket(log, call.key), high)
    ensures Step(c, s, call).1 == NaiveStep(c, log, call).1
  {
    BucketCounts(c, Bucket(s.buckets, call.key), Bucket(log, call.key), high, call.now);
  }

  lemma StepRefinesNaive(c: Config, s: Limiter, log: Buckets, call: Call, high: Time)
    requires c.Valid() && call.now >= high && TracksAll(c, s, log, high)
    ensures Step(c, s, call).1 == NaiveStep(c, log, call).1
    ensures TracksAll(c, Step(c, s, call).0, NaiveStep(c, log, call).0, call.now)
  {
    AnswersAgree(c, s, log, call, high);
    forall k
      ensures Tracks(c, 0.0, Bucket(Step(c, s, call).0.buckets, k), Bucket(NaiveStep(c, log, call).0, k), call.now)
    {
      NaiveBucket(c, log, call, k);
      assert Later(high, call.now) == call.now;
      StepTracks(c, 0.0, s, call, k, Bucket(log, k), high);
    }
  }

  lemma NaiveBucket(c: Config, log: Buckets, call: Call, k: Key)
    ensures Bucket(NaiveStep(c, log, call).0, k)
            == Bucket(log, k) + AcceptedBy(call, NaiveStep(c, log, call).1, k)
  {
  }

  ghost predicate Sorted(s: seq<Time>) {
    forall i, j | 0 <= i < j < |s| :: s[i] <= s[j]
  }

  lemma TracksIsSorted(c: Config, b: seq<Time>, a: seq<Time>, high: Time)
    requires Tracks(c, 0.0, b, a, high)
    ensures Sorted(b)
  {
    forall i, j | 0 <= i < j < |b| ensures b[i] <= b[j] {
      assert b[i] == a[|a| - |b| + i] && b[j] == a[|a| - |b| + j];
    }
  }

  lemma {:induction false} RefinesNaiveFrom(c: Config, s: Limiter, log: Buckets, calls: seq<Call>, high: Time)
    requires c.Valid() && Skewed(calls, 0.0) && NoneBefore(calls, high) && TracksAll(c, s, log, high)
    ensures Run(c, s, calls) == NaiveRun(c, log, calls)
    ensures forall k :: Sorted(Bucket(Final(c, s, calls).buckets, k))
    decreases |calls|
  {
    if calls == [] {
      forall k ensures Sorted(Bucket(s.buckets, k)) {
        TracksIsSorted(c, Bucket(s.buckets, k), Bucket(log, k), high);
      }
    } else {
      assert calls[0] in calls;
      StepRefinesNaive(c, s, log, calls[0], high);
      assert high - 0.0 == high;
      SkewedTail(calls, 0.0, high);
      RefinesNaiveFrom(c, Step(c, s, calls[0]).0, NaiveStep(c, log, calls[0]).0, calls[1..], calls[0].now);
    }
  }

  /** With a clock that never steps back, pruning and eviction are unobservable: every
      `is_allowed` and `remaining` answer is the one a limiter that forgets nothing gives,
      and every bucket stays sorted. */
  lemma SteadyClockRefinesNaive(c: Config, calls: seq<Call>)
    requires c.Valid() && Skewed(calls, 0.0)
    ensures Run(c, FRESH, calls) == NaiveRun(c, map[], calls)
    ensures forall k :: Sorted(Bucket(Final(c, FRESH, calls).buckets, k))
  {
    if calls != [] {
      SkewedFromFirst(calls, 0.0);
      RefinesNaiveFrom(c, FRESH, map[], calls, calls[0].now);
    }
  }

  ghost predicate Bounded(c: Config, m: Buckets) {
    forall k | k in m :: |m[k]| <= c.maxRequests
  }

  /** Memory per key is bounded whatever the clock does. */
  lemma {:induction false} BucketsStayBounded(c: Config, s: Limiter, calls: seq<Call>)
    requires c.Valid() && Bounded(c, s.buckets)
    ensures Bounded(c, Final(c, s, calls).buckets)
    decreases |calls|
  {
    if calls != [] {
      PruneIsTail(Bucket(s.buckets, calls[0].key), calls[0].now - c.window);
      BucketsStayBounded(c, Step(c, s, calls[0]).0, calls[1..]);
    }
  }

  // ---------------------------------------------------------------- the skew counts twice

  function Repeat(n: nat, call: Call): seq<Call> { seq(n, _ => call) }

  lemma RowGrows(b: seq<Time>, now: Time, n: nat)
    requires n >= 1
    ensures [now] + seq(n - 1, _ => now) == seq(n, _ => now)
    ensures b + [now] + seq(n - 1, _ => now) == b + seq(n, _ => now)
  {
  }

  /** `n` accepts in a row on a bucket with room, at a time that prunes nothing. */
  lemma {:induction false} AdmitsInRow(c: Config, s: Limiter, k: Key, now: Time, n: nat)
    requires c.Valid() && |Bucket(s.buckets, k)| + n <= c.maxRequests
    requires forall t | t in Bucket(s.buckets, k) :: t >= now - c.window
    ensures var calls, s' := Repeat(n, Admit(k, now)), Final(c, s, Repeat(n, Admit(k, now)));
            && s'.accepts == s.accepts + n
            && Bucket(s'.buckets, k) == Bucket(s.buckets, k) + seq(n, _ => now)
            && Accepted(calls, Run(c, s, calls), k) == seq(n, _ => now)
    decreases n
  {
    var calls := Repeat(n, Admit(k, now));
    if n == 0 {
      assert Bucket(s.buckets, k) + seq(0, _ => now) == Bucket(s.buckets, k);
    } else {
      var s' := AdmitsOne(c, s, k, now);
      assert calls[0] == Admit(k, now) && calls[1..] == Repeat(n - 1, Admit(k, now));
      AdmitsInRow(c, s', k, now, n - 1);
      assert Run(c, s, calls)[1..] == Run(c, s', calls[1..]);
      RowGrows(Bucket(s.buckets, k), now, n);
    }
  }

  lemma AdmitsOne(c: Config, s: Limiter, k: Key, now: Time) returns (s': Limiter)
    requires c.Valid() && |Bucket(s.buckets, k)| < c.maxRequests
    requires forall t | t in Bucket(s.buckets, k) :: t >= now - c.window
    ensures Step(c, s, Admit(k, now)) == (s', Allowed(true))
    ensures s'.accepts == s.accepts + 1 && Bucket(s'.buckets, k) == Bucket(s.buckets, k) + [now]
    ensures s'.accepts % EVICT_INTERVAL != 0 ==>
        forall other | other != k :: Bucket(s'.buckets, other) == Bucket(s.buckets, other)
    ensures s'.accepts % EVICT_INTERVAL == 0 ==>
              forall other | other != k && Stale(Bucket(s.buckets, other), now - c.window) ::
                  Bucket(s'.buckets, other) == []
  {
    var b := Bucket(s.buckets, k);
    assert b != [] ==> b[0] in b;
    assert Prune(b, now - c.window) == b;
    s' := Step(c, s, Admit(k, now)).0;
    assert (b + [now])[|b + [now]| - 1] == now;
  }

  /** Short of the next eviction, accepts leave the buckets of other keys alone. */
  lemma {:induction false} RowLeavesOthers(c: Config, s: Limiter, k: Key, now: Time, n: nat, other: Key)
    requires c.Valid() && |Bucket(s.buckets, k)| + n <= c.maxRequests && other != k
    requires forall t | t in Bucket(s.buckets, k) :: t >= now - c.window
    requires s.accepts + n < EVICT_INTERVAL
    ensures Bucket(Final(c, s, Repeat(n, Admit(k, now))).buckets, other) == Bucket(s.buckets, other)
    ensures Accepted(Repeat(n, Admit(k, now)), Run(c, s, Repeat(n, Admit(k, now))), other) == []
    decreases n
  {
    if n > 0 {
      var calls := Repeat(n, Admit(k, now));
      var s' := AdmitsOne(c, s, k, now);
      assert calls[0] == Admit(k, now) && calls[1..] == Repeat(n - 1, Admit(k, now));
      RowLeavesOthers(c, s', k, now, n - 1, other);
      assert Run(c, s, calls)[1..] == Run(c, s', calls[1..]);
    }
  }

  lemma {:induction false} RunsCompose(c: Config, s: Limiter, a: seq<Call>, b: seq<Call>, k: Key)
    ensures Final(c, s, a + b) == Final(c, Final(c, s, a), b)
    ensures Accepted(a + b, Run(c, s, a + b), k)
            == Accepted(a, Run(c, s, a), k) + Accepted(b, Run(c, Final(c, s, a), b), k)
    decreases |a|
  {
    if a == [] {
      assert a + b == b;
    } else {
      var s' := Step(c, s, a[0]).0;
      assert (a + b)[0] == a[0] && (a + b)[1..] == a[1..] + b;
      RunsCompose(c, s', a[1..], b, k);
      assert Run(c, s, a + b)[1..] == Run(c, s', a[1..] + b);
      assert Run(c, s, a)[1..] == Run(c, s', a[1..]);
    }
  }

  /** Two accepts of "k" that arrive out of order, enough of another key to bring an eviction about
      on the hundredth accept, and a burst of "k" from a clock that is `d` behind. */
  function Burst(w: Time, d: Time, x: Time): seq<Call> {
    Opening(d) + Repeat(1, Admit("f", w + x)) + Repeat(100, Admit("k", w + x - d))
  }

  function Opening(d: Time): seq<Call> {
    Repeat(1, Admit("k", d)) + Repeat(1, Admit("k", 0.0)) + Repeat(97, Admit("f", d))
  }

  lemma TwoReach(c: Config, d: Time)
    requires c.maxRequests == 100 && c.window > 0.0 && 0.0 < d <= c.window
    ensures var calls := Repeat(1, Admit("k", d)) + Repeat(1, Admit("k", 0.0));
            var s := Final(c, FRESH, calls);
            && s.accepts == 2 && Bucket(s.buckets, "k") == [d, 0.0] && Bucket(s.buckets, "f") == []
            && Accepted(calls, Run(c, FRESH, calls), "k") == [d, 0.0]
  {
    var one, two := Repeat(1, Admit("k", d)), Repeat(1, Admit("k", 0.0));
    AdmitsInRow(c, FRESH, "k", d, 1);
    RowLeavesOthers(c, FRESH, "k", d, 1, "f");
    var s := Final(c, FRESH, one);
    assert Bucket(s.buckets, "k") == [d];
    AdmitsInRow(c, s, "k", 0.0, 1);
    RowLeavesOthers(c, s, "k", 0.0, 1, "f");
    RunsCompose(c, FRESH, one, two, "k");
  }

  lemma OpeningReaches(c: Config, d: Time)
    requires c.maxRequests == 100 && c.window > 0.0 && 0.0 < d <= c.window
    ensures var s := Final(c, FRESH, Opening(d));
            && s.accepts == 99 && Bucket(s.buckets, "k") == [d, 0.0] && Bucket(s.buckets, "f") == seq(97, _ => d)
            && Accepted(Opening(d), Run(c, FRESH, Opening(d)), "k") == [d, 0.0]
  {
    var two, fill := Repeat(1, Admit("k", d)) + Repeat(1, Admit("k", 0.0)), Repeat(97, Admit("f", d));
    TwoReach(c, d);
    var s := Final(c, FRESH, two);
    AdmitsInRow(c, s, "f", d, 97);
    RowLeavesOthers(c, s, "f", d, 97, "k");
    RunsCompose(c, FRESH, two, fill, "k");
  }

  lemma BurstIsSkewed(w: Time, d: Time, x: Time)
    requires 0.0 < x <= d && 2.0 * d <= w
    ensures Skewed(Burst(w, d, x), d)
  {
    var calls := Burst(w, d, x);
    forall i | 0 <= i < |calls|
      ensures calls[i].now == if i == 0 then d else if i == 1 then 0.0 else if i < 99 then d
                              else if i == 99 then w + x else w + x - d
    {
    }
  }

  /** The `2d` cannot be spared: for any skew and any window at least twice as long, and any excess
      `x`, a `d`-skewed run gets 101 accepts under a limit of 100 into an interval of length
      `window - 2d + x`. Half of it is the clock, the other half the eviction that judges a bucket
      by its last timestamp. */
  lemma SkewCountsTwice(w: Time, d: Time, x: Time)
    requires 0.0 < x <= d && 2.0 * d <= w
    ensures var c, calls := Config(100, w), Burst(w, d, x);
            && c.Valid() && Skewed(calls, d)
            && CountIn(Accepted(calls, Run(c, FRESH, calls), "k"), d, d + (w - 2.0 * d + x)) == 101
  {
    BurstIsSkewed(w, d, x);
    BurstAccepted(w, d, x);
    BurstCounts(w, d, x);
  }

  lemma BurstAccepted(w: Time, d: Time, x: Time)
    requires 0.0 < x <= d && 2.0 * d <= w
    ensures var c, calls := Config(100, w), Burst(w, d, x);
            Accepted(calls, Run(c, FRESH, calls), "k") == [d, 0.0] + seq(100, _ => w + x - d)
  {
    var c := Config(100, w);
    var last, burst := Repeat(1, Admit("f", w + x)), Repeat(100, Admit("k", w + x - d));
    OpeningReaches(c, d);
    EvictionForgets(c, Final(c, FRESH, Opening(d)), w, d, x);
    RunsCompose(c, FRESH, Opening(d), last, "k");
    AdmitsInRow(c, Final(c, FRESH, Opening(d) + last), "k", w + x - d, 100);
    RunsCompose(c, FRESH, Opening(d) + last, burst, "k");
  }

  /** The hundredth accept drops the bucket of "k" although its first timestamp is still recent. */
  lemma EvictionForgets(c: Config, s: Limiter, w: Time, d: Time, x: Time)
    requires c == Config(100, w) && 0.0 < x <= d && 2.0 * d <= w
    requires s.accepts == 99 && Bucket(s.buckets, "k") == [d, 0.0] && Bucket(s.buckets, "f") == seq(97, _ => d)
    ensures var last := Repeat(1, Admit("f", w + x));
            Bucket(Final(c, s, last).buckets, "k") == [] && Accepted(last, Run(c, s, last), "k") == []
  {
    var last := Repeat(1, Admit("f", w + x));
    var s' := AdmitsOne(c, s, "f", w + x);
    assert last[0] == Admit("f", w + x) && last[1..] == [];
    assert Final(c, s, last) == s';
  }

  lemma BurstCounts(w: Time, d: Time, x: Time)
    requires 0.0 < x <= d && 2.0 * d <= w
    ensures CountIn([d, 0.0] + seq(100, _ => w + x - d), d, d + (w - 2.0 * d + x)) == 101
  {
    var hi := d + (w - 2.0 * d + x);
    assert hi == w + x - d;
    CountInConcat([d, 0.0], seq(100, _ => w + x - d), d, hi);
    CountInWithin(seq(100, _ => w + x - d), d, hi);
    assert [d, 0.0][1..] == [0.0] && [0.0][1..] == [];
    assert CountIn([0.0], d, hi) == 0;
  }

  // ---------------------------------------------------------------- the class

  class RateLimiter {
    const maxRequests: int
    const window: Time
    var buckets: Buckets
    var callCount: nat

    ghost function Cfg(): Config { Config(maxRequests, window) }

    ghost function State(): Limiter
      reads this
    {
      Limiter(buckets, callCount)
    }

    constructor (maxRequests: int, window: Time)
      requires maxRequests >= 1 && window > 0.0
      ensures Cfg() == Config(maxRequests, window) && State() == FRESH
    {
      this.maxRequests, this.window := maxRequests, window;
      buckets, callCount := map[], 0;
    }

    /** Construction, with the two `ValueError`s as an error result. */
    static method Create(maxRequests: int, window: Time) returns (r: Result<RateLimiter, string>)
      ensures r.Ok? <==> Config(maxRequests, window).Valid()
      ensures r.Ok? ==> fresh(r.value) && r.value.Cfg() == Config(maxRequests, window) && r.value.State() == FRESH
    {
      if maxRequests < 1 { return Err("max_requests must be >= 1"); }
      if window <= 0.0 { return Err("window_seconds must be > 0"); }
      var limiter := new RateLimiter(maxRequests, window);
      return Ok(limiter);
    }

    method IsAllowed(ip: Key, now: Time) returns (ok: bool)
      modifies this
      ensures (State(), Allowed(ok)) == Step(Cfg(), old(State()), Admit(ip, now))
    {
      var cutoff := now - window;
      var bucket := if ip in buckets then buckets[ip] else [];
      while |bucket| > 0 && bucket[0] < cutoff
        invariant Prune(bucket, cutoff) == Prune(Bucket(old(buckets), ip), cutoff)
      {
        bucket := bucket[1..];
      }
      assert bucket == Prune(bucket, cutoff);
      buckets := buckets[ip := bucket];
      if |bucket| >= maxRequests {
        return false;
      }
      buckets := buckets[ip := bucket + [now]];
      assert buckets == old(buckets)[ip := bucket + [now]];
      callCount := callCount + 1;
      if callCount % EVICT_INTERVAL == 0 {
        EvictStale(cutoff);
      }
      return true;
    }

    method EvictStale(cutoff: Time)
      modifies this`buckets
      ensures buckets == Evict(old(buckets), cutoff)
    {
      var stale := set ip | ip in buckets && Stale(buckets[ip], cutoff);
      while stale != {}
        invariant stale <= buckets.Keys
        invariant forall ip | ip in stale :: Stale(buckets[ip], cutoff)
        invariant forall ip | ip in buckets :: ip in old(buckets) && buckets[ip] == old(buckets)[ip]
        invariant forall ip | ip in old(buckets) && ip !in buckets :: Stale(old(buckets)[ip], cutoff)
        invariant forall ip | ip in buckets && Stale(buckets[ip], cutoff) :: ip in stale
        decreases |stale|
      {
        var ip :| ip in stale;
        buckets := buckets - {ip};
        stale := stale - {ip};
      }
    }

    method Remaining(ip: Key, now: Time) returns (n: int)
      ensures (State(), Left(n)) == Step(Cfg(), State(), Query(ip, now))
    {
      var cutoff := now - window;
      var bucket := if ip in buckets then buckets[ip] else [];
      var active, rest := 0, bucket;
      while rest != []
        invariant active + CountFrom(rest, cutoff) == CountFrom(bucket, cutoff)
        decreases |rest|
      {
        if rest[0] >= cutoff { active := active + 1; }
        rest := rest[1..];
      }
      n := Max(0, maxRequests - active);
    }
  }
}
