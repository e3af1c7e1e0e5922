/** The Redis-backed rate limiter: one sorted set per key, pruned, counted and extended by a
    Lua script that runs as one step, plus a key expiry refreshed by every accept.

    A sorted-set member is a text, `<now>-<random>`, scored `now`. How the server texts a number
    is left open (`text`); it rounds, so different clock readings may text alike. Two accepts
    that build the same name share one member: that is the only way the script can undercount,
    and the theorems say exactly how much it costs. */
module RedisWindow {
  import opened Prelude

  type Key = string
  type Time = real
  type Name = string

  datatype Config = Config(maxRequests: int, window: Time, text: Time -> string)

  /** Member names and their scores, and when the key expires. */
  datatype ZSet = ZSet(scores: map<Name, Time>, expires: Time)
  type Store = map<Key, ZSet>

  /** `up` is false when Redis cannot be reached. */
  datatype Call = Call(key: Key, now: Time, rand: nat, up: bool)

  /** The member a call adds. */
  function NameOf(c: Config, call: Call): Name { c.text(call.now) + "-" + Decimal(call.rand) }

  function Ceil(x: real): int { -(-x).Floor }

  /** How long an accept keeps its key. */
  function Life(c: Config): Time { (Ceil(c.window) + 1) as real }

  /** The first whole number of seconds past the window, and no more than two seconds past it. */
  lemma LifeIsJustEnough(c: Config)
    ensures c.window + 1.0 <= Life(c) < c.window + 2.0 && Life(c) == Life(c).Floor as real
  {
    assert Life(c) == (Ceil(c.window) + 1) as real;
  }

  // ---------------------------------------------------------------- the script

  /** What the server sees under `k` at time `now`: an expired key reads as absent. */
  function Visible(store: Store, k: Key, now: Time): map<Name, Time> {
    if k in store && now < store[k].expires then store[k].scores else map[]
  }

  function Recent(scores: map<Name, Time>, cutoff: Time): map<Name, Time> {
    map n | n in scores && scores[n] > cutoff :: scores[n]
  }

  function Script(c: Config, store: Store, call: Call): (Store, int) {
    var kept := Recent(Visible(store, call.key, call.now), call.now - c.window);
    if |kept| >= c.maxRequests then
      (if kept == map[] then store - {call.key}
       else store[call.key := ZSet(kept, store[call.key].expires)], -1)
    else
      (store[call.key := ZSet(kept[NameOf(c, call) := call.now], call.now + Life(c))],
       c.maxRequests - |kept| - 1)
  }

  /** A key nothing is accepted on is gone when its life is over. */
  lemma IdleKeyVanishes(c: Config, store: Store, call: Call, now: Time)
    requires Script(c, store, call).1 >= 0 && now >= call.now + Life(c)
    ensures Visible(Script(c, store, call).0, call.key, now) == map[]
  {
  }

  /** `is_allowed`: fail-open when Redis is down, otherwise the sign of the script's reply. */
  function Step(c: Config, store: Store, call: Call): (Store, bool) {
    if !call.up then (store, true)
    else (Script(c, store, call).0, Script(c, store, call).1 >= 0)
  }

  function Run(c: Config, store: Store, calls: seq<Call>): seq<bool>
    decreases |calls|
  {
    if calls == [] then [] else
      var (store', ok) := Step(c, store, calls[0]);
      [ok] + Run(c, store', calls[1..])
  }

  // ---------------------------------------------------------------- references

  /** An accept: the name it built and the clock reading. */
  type Entry = (Name, Time)

  type Log = map<Key, seq<Entry>>

  function Entries(log: Log, k: Key): seq<Entry> { if k in log then log[k] else [] }

  /** How many accepts have a timestamp in the half-open window (lo, hi]. */
  function CountIn(a: seq<Entry>, lo: Time, hi: Time): nat {
    if a == [] then 0 else (if lo < a[0].1 <= hi then 1 else 0) + CountIn(a[1..], lo, hi)
  }

  /** The different names among them. */
  function NamesIn(a: seq<Entry>, lo: Time, hi: Time): set<Name> {
    set m | m in a && lo < m.1 <= hi :: m.0
  }

  /** Keeps every accept forever; `distinct` says whether equal names are counted once. */
  function NaiveStep(c: Config, log: Log, call: Call, distinct: bool): (Log, bool) {
    var a := Entries(log, call.key);
    var recent := if distinct then |NamesIn(a, call.now - c.window, call.now)|
                  else CountIn(a, call.now - c.window, call.now);
    if !call.up then (log, true)
    else if recent < c.maxRequests then (log[call.key := a + [(NameOf(c, call), call.now)]], true)
    else (log, false)
  }

  function NaiveRun(c: Config, log: Log, calls: seq<Call>, distinct: bool): seq<bool>
    decreases |calls|
  {
    if calls == [] then [] else
      var (log', ok) := NaiveStep(c, log, calls[0], distinct);
      [ok] + NaiveRun(c, log', calls[1..], distinct)
  }

  ghost predicate Steady(calls: seq<Call>) {
    forall i, j | 0 <= i < j < |calls| :: calls[i].now <= calls[j].now
  }

  /** No two calls on a key have readings that text alike and draw the same random number. */
  ghost predicate DistinctDraws(c: Config, calls: seq<Call>) {
    forall i, j | 0 <= i < j < |calls| && calls[i].key == calls[j].key ::
      c.text(calls[i].now) != c.text(calls[j].now) || calls[i].rand != calls[j].rand
  }

  ghost predicate DistinctNames(c: Config, calls: seq<Call>) {
    forall i, j | 0 <= i < j < |calls| && calls[i].key == calls[j].key :: NameOf(c, calls[i]) != NameOf(c, calls[j])
  }

  /** Two texts that end alike in a dash and digits agree on both parts: the last dash parts them. */
  lemma LastDashParts(s: string, a: string, t: string, b: string)
    requires '-' !in a && '-' !in b && s + "-" + a == t + "-" + b
    ensures s == t && a == b
  {
    var u, v := s + "-" + a, t + "-" + b;
    assert forall k | |s| < k < |u| :: u[k] == a[k - |s| - 1] && u[k] in a;
    assert forall k | |t| < k < |v| :: v[k] == b[k - |t| - 1] && v[k] in b;
    assert u[|s|] == '-' && v[|t|] == '-';
    assert u[..|s|] == s && v[..|t|] == t && u[|s| + 1..] == a && v[|t| + 1..] == b;
  }

  /** Two calls add the same member exactly when their readings text alike and they drew the same
      number, however the server texts numbers, dashes included. */
  lemma NamesCollideIff(c: Config, a: Call, b: Call)
    ensures NameOf(c, a) == NameOf(c, b) <==> c.text(a.now) == c.text(b.now) && a.rand == b.rand
  {
    DecimalHasDigits(a.rand);
    DecimalHasDigits(b.rand);
    if NameOf(c, a) == NameOf(c, b) {
      LastDashParts(c.text(a.now), Decimal(a.rand), c.text(b.now), Decimal(b.rand));
      DecimalInjective(a.rand, b.rand);
    }
  }

  // ---------------------------------------------------------------- invariant

  function All(a: seq<Entry>): set<Entry> {
    set m | m in a
  }

  lemma AllPush(a: seq<Entry>, m: Entry)
    ensures All(a + [m]) == All(a) + {m}
  {
  }

  /** The stored members are accepted ones, an accept that shows in none of them, under its name with
      its own or a later score, has left the window, and the key outlives every member it holds. */
  ghost predicate HoldsSet(c: Config, scores: map<Name, Time>, expires: Time, a: set<Entry>, high: Time) {
    && (forall n | n in scores :: (n, scores[n]) in a && scores[n] + Life(c) <= expires)
    && (forall m | m in a :: m.1 <= high && ((m.0 in scores && scores[m.0] >= m.1) || m.1 <= high - c.window))
  }

  ghost predicate Holds(c: Config, store: Store, k: Key, a: set<Entry>, high: Time) {
    if k in store then HoldsSet(c, store[k].scores, store[k].expires, a, high)
    else HoldsSet(c, map[], 0.0, a, high)
  }

  ghost predicate HoldsAll(c: Config, store: Store, log: Log, high: Time) {
    forall k :: Holds(c, store, k, All(Entries(log, k)), high)
  }

  /** Neither the inclusive prune nor the key's expiry can hide a member still in the window. */
  lemma VisibleIsWindow(c: Config, store: Store, k: Key, a: set<Entry>, high: Time, now: Time)
    requires Holds(c, store, k, a, high) && high <= now
    ensures var kept := Recent(Visible(store, k, now), now - c.window);
            kept.Keys == (set m | m in a && now - c.window < m.1 <= now :: m.0)
  {
    var kept := Recent(Visible(store, k, now), now - c.window);
    assert Ceil(c.window) as real >= c.window;
    forall n | n in kept ensures (n, kept[n]) in a && now - c.window < kept[n] <= now {
    }
  }

  lemma KeptHolds(c: Config, store: Store, k: Key, a: set<Entry>, high: Time, now: Time)
    requires Holds(c, store, k, a, high) && high <= now
    ensures var kept := Recent(Visible(store, k, now), now - c.window);
            HoldsSet(c, kept, if k in store then store[k].expires else 0.0, a, now)
  {
    VisibleIsWindow(c, store, k, a, high, now);
  }

  /** Adding the call's name, with the expiry refreshed. */
  lemma PushHolds(c: Config, kept: map<Name, Time>, expires: Time, a: set<Entry>, call: Call)
    requires HoldsSet(c, kept, expires, a, call.now)
    ensures HoldsSet(c, kept[NameOf(c, call) := call.now], call.now + Life(c),
                     a + {(NameOf(c, call), call.now)}, call.now)
  {
  }

  lemma AnswersAgree(c: Config, store: Store, log: Log, call: Call, high: Time)
    requires Holds(c, store, call.key, All(Entries(log, call.key)), high) && high <= call.now
    ensures Step(c, store, call).1 == NaiveStep(c, log, call, true).1
  {
    KeptCountsNames(c, store, call.key, Entries(log, call.key), high, call.now);
  }

  lemma KeptCountsNames(c: Config, store: Store, k: Key, a: seq<Entry>, high: Time, now: Time)
    requires Holds(c, store, k, All(a), high) && high <= now
    ensures |Recent(Visible(store, k, now), now - c.window)| == |NamesIn(a, now - c.window, now)|
  {
    var kept := Recent(Visible(store, k, now), now - c.window);
    VisibleIsWindow(c, store, k, All(a), high, now);
    assert NamesIn(a, now - c.window, now) == set m | m in All(a) && now - c.window < m.1 <= now :: m.0;
    assert |kept| == |kept.Keys|;
  }

  lemma AcceptHolds(c: Config, store: Store, call: Call, a: set<Entry>, high: Time)
    requires Holds(c, store, call.key, a, high) && high <= call.now
    requires call.up && Step(c, store, call).1
    ensures Holds(c, Step(c, store, call).0, call.key, a + {(NameOf(c, call), call.now)}, call.now)
  {
    var kept := Recent(Visible(store, call.key, call.now), call.now - c.window);
    assert HoldsSet(c, kept[NameOf(c, call) := call.now], call.now + Life(c),
                    a + {(NameOf(c, call), call.now)}, call.now) by {
      KeptHolds(c, store, call.key, a, high, call.now);
      PushHolds(c, kept, if call.key in store then store[call.key].expires else 0.0, a, call);
    }
    AcceptStores(c, store, call);
  }

  lemma AcceptStores(c: Config, store: Store, call: Call)
    requires call.up && Step(c, store, call).1
    ensures var store' := Step(c, store, call).0;
            var kept := Recent(Visible(store, call.key, call.now), call.now - c.window);
            && call.key in store'
            && store'[call.key] == ZSet(kept[NameOf(c, call) := call.now], call.now + Life(c))
  {
  }

  lemma RejectHolds(c: Config, store: Store, call: Call, a: set<Entry>, high: Time)
    requires Holds(c, store, call.key, a, high) && high <= call.now
    requires call.up && !Step(c, store, call).1
    ensures Holds(c, Step(c, store, call).0, call.key, a, call.now)
  {
    KeptHolds(c, store, call.key, a, high, call.now);
    var kept := Recent(Visible(store, call.key, call.now), call.now - c.window);
    if kept != map[] {
      assert Script(c, store, call).0[call.key] == ZSet(kept, store[call.key].expires);
    }
  }

  /** The stored set under the call's own key, next to everything accepted for it. */
  lemma OwnKeyHolds(c: Config, store: Store, call: Call, a: set<Entry>, high: Time)
    requires Holds(c, store, call.key, a, high) && high <= call.now
    ensures var (store', ok) := Step(c, store, call);
            Holds(c, store', call.key, if ok && call.up then a + {(NameOf(c, call), call.now)} else a, call.now)
  {
    if call.up {
      if Step(c, store, call).1 { AcceptHolds(c, store, call, a, high); }
      else { RejectHolds(c, store, call, a, high); }
    }
  }

  lemma StepHolds(c: Config, store: Store, log: Log, call: Call, high: Time, k: Key)
    requires Holds(c, store, k, All(Entries(log, k)), high) && high <= call.now
    requires Step(c, store, call).1 == NaiveStep(c, log, call, true).1
    ensures Holds(c, Step(c, store, call).0, k, All(Entries(NaiveStep(c, log, call, true).0, k)), call.now)
  {
    if k == call.key {
      OwnKeyHolds(c, store, call, All(Entries(log, k)), high);
      AllPush(Entries(log, k), (NameOf(c, call), call.now));
    } else {
      OtherKeyUntouched(c, store, log, call, k);
    }
  }

  lemma OtherKeyUntouched(c: Config, store: Store, log: Log, call: Call, k: Key)
    requires k != call.key
    ensures var store' := Step(c, store, call).0;
            (k in store' <==> k in store) && (k in store ==> store'[k] == store[k])
    ensures Entries(NaiveStep(c, log, call, true).0, k) == Entries(log, k)
  {
  }

  lemma {:induction false} RefinesFrom(c: Config, store: Store, log: Log, calls: seq<Call>, high: Time)
    requires Steady(calls) && (forall call | call in calls :: high <= call.now)
    requires HoldsAll(c, store, log, high)
    ensures Run(c, store, calls) == NaiveRun(c, log, calls, true)
    decreases |calls|
  {
    if calls != [] {
      assert calls[0] in calls;
      AnswersAgree(c, store, log, calls[0], high);
      forall k
        ensures Holds(c, Step(c, store, calls[0]).0, k, All(Entries(NaiveStep(c, log, calls[0], true).0, k)),
                      calls[0].now)
      {
        StepHolds(c, store, log, calls[0], high, k);
      }
      assert forall i | 0 <= i < |calls| - 1 :: calls[1..][i] == calls[i + 1];
      forall call | call in calls[1..] ensures calls[0].now <= call.now {
        var j :| 0 <= j < |calls| - 1 && calls[1..][j] == call;
        assert calls[j + 1] == call;
      }
      RefinesFrom(c, Step(c, store, calls[0]).0, NaiveStep(c, log, calls[0], true).0, calls[1..], calls[0].now);
    }
  }

  // ---------------------------------------------------------------- main results

  /** With one non-decreasing clock the script admits a call exactly when fewer than
      `maxRequests` different names accepted for the key lie in (now - window, now]. No bound
      on the window or the limit is needed, and outages only add unrecorded accepts. */
  lemma CountsDistinctNames(c: Config, calls: seq<Call>)
    requires Steady(calls)
    ensures Run(c, map[], calls) == NaiveRun(c, map[], calls, true)
  {
    if calls != [] {
      forall call | call in calls ensures calls[0].now <= call.now {
        var j :| 0 <= j < |calls| && calls[j] == call;
      }
      RefinesFrom(c, map[], map[], calls, calls[0].now);
    }
  }

  lemma {:induction false} NamesAtMostCount(a: seq<Entry>, lo: Time, hi: Time)
    ensures |NamesIn(a, lo, hi)| <= CountIn(a, lo, hi)
  {
    if a == [] {
      assert NamesIn(a, lo, hi) == {};
    } else {
      NamesAtMostCount(a[1..], lo, hi);
      NamesSplit(a, lo, hi);
    }
  }

  /** A served call finds fewer names than the limit in its window, though the limit's worth of
      accepts lie there. */
  ghost predicate Undercounts(c: Config, log: Log, call: Call) {
    var a := Entries(log, call.key);
    && call.up
    && |NamesIn(a, call.now - c.window, call.now)| < c.maxRequests <= CountIn(a, call.now - c.window, call.now)
  }

  /** No call does, given what was accepted before it. */
  ghost predicate NeverUndercounts(c: Config, log: Log, calls: seq<Call>)
    decreases |calls|
  {
    calls != [] ==>
      && !Undercounts(c, log, calls[0])
      && NeverUndercounts(c, NaiveStep(c, log, calls[0], true).0, calls[1..])
  }

  lemma NaiveStepsAgree(c: Config, log: Log, call: Call)
    ensures NaiveStep(c, log, call, true).1 == NaiveStep(c, log, call, false).1 <==> !Undercounts(c, log, call)
    ensures !Undercounts(c, log, call) ==> NaiveStep(c, log, call, true) == NaiveStep(c, log, call, false)
  {
    NamesAtMostCount(Entries(log, call.key), call.now - c.window, call.now);
  }

  lemma {:induction false} NaiveRunsAgree(c: Config, log: Log, calls: seq<Call>)
    ensures NaiveRun(c, log, calls, true) == NaiveRun(c, log, calls, false) <==> NeverUndercounts(c, log, calls)
    decreases |calls|
  {
    if calls != [] {
      var call := calls[0];
      NaiveStepsAgree(c, log, call);
      var with, without := NaiveStep(c, log, call, true), NaiveStep(c, log, call, false);
      NaiveRunsAgree(c, with.0, calls[1..]);
      assert NaiveRun(c, log, calls, true)[0] == with.1 && NaiveRun(c, log, calls, false)[0] == without.1;
      assert NaiveRun(c, log, calls, true)[1..] == NaiveRun(c, with.0, calls[1..], true);
      assert NaiveRun(c, log, calls, false)[1..] == NaiveRun(c, without.0, calls[1..], false);
    }
  }

  /** The limit is exact, a call being admitted if and only if fewer than `maxRequests` accepts lie in
      (now - window, now], for just those calls of which none undercounts. */
  lemma LimitExactIff(c: Config, calls: seq<Call>)
    requires Steady(calls)
    ensures Run(c, map[], calls) == NaiveRun(c, map[], calls, false) <==> NeverUndercounts(c, map[], calls)
  {
    CountsDistinctNames(c, calls);
    NaiveRunsAgree(c, map[], calls);
  }

  ghost predicate NoRepeats(a: seq<Entry>) {
    forall i, j | 0 <= i < j < |a| :: a[i].0 != a[j].0
  }

  lemma {:induction false} NamesCount(a: seq<Entry>, lo: Time, hi: Time)
    requires NoRepeats(a)
    ensures |NamesIn(a, lo, hi)| == CountIn(a, lo, hi)
  {
    if a == [] {
      assert NamesIn(a, lo, hi) == {};
    } else {
      var rest := NamesIn(a[1..], lo, hi);
      assert forall i | 0 <= i < |a| - 1 :: a[1..][i] == a[i + 1];
      assert a[0].0 !in rest;
      NamesCount(a[1..], lo, hi);
      NamesSplit(a, lo, hi);
    }
  }

  lemma NamesSplit(a: seq<Entry>, lo: Time, hi: Time)
    requires a != []
    ensures NamesIn(a, lo, hi) == NamesIn(a[1..], lo, hi) + (if lo < a[0].1 <= hi then {a[0].0} else {})
  {
    assert a == [a[0]] + a[1..];
  }

  /** Names already used and names still to come never meet. */
  ghost predicate Unused(c: Config, a: seq<Entry>, k: Key, calls: seq<Call>) {
    && NoRepeats(a)
    && (forall i, j | 0 <= i < |calls| && calls[i].key == k && 0 <= j < |a| :: NameOf(c, calls[i]) != a[j].0)
  }

  lemma {:induction false} DistinctFrom(c: Config, log: Log, calls: seq<Call>)
    requires DistinctNames(c, calls)
    requires forall k :: Unused(c, Entries(log, k), k, calls)
    ensures NeverUndercounts(c, log, calls)
    decreases |calls|
  {
    if calls != [] {
      var call := calls[0];
      assert Unused(c, Entries(log, call.key), call.key, calls);
      NamesCount(Entries(log, call.key), call.now - c.window, call.now);
      var log' := NaiveStep(c, log, call, true).0;
      forall k ensures Unused(c, Entries(log', k), k, calls[1..]) {
        UnusedTail(c, log, calls, k);
      }
      assert forall i | 0 <= i < |calls| - 1 :: calls[1..][i] == calls[i + 1];
      DistinctFrom(c, log', calls[1..]);
    }
  }

  lemma UnusedTail(c: Config, log: Log, calls: seq<Call>, k: Key)
    requires calls != [] && DistinctNames(c, calls) && Unused(c, Entries(log, k), k, calls)
    ensures Unused(c, Entries(NaiveStep(c, log, calls[0], true).0, k), k, calls[1..])
  {
    var a, a' := Entries(log, k), Entries(NaiveStep(c, log, calls[0], true).0, k);
    var entry := (NameOf(c, calls[0]), calls[0].now);
    assert a' == a || (calls[0].key == k && a' == a + [entry]);
    forall i, j | 0 <= i < |calls| - 1 && calls[1..][i].key == k && 0 <= j < |a'|
      ensures NameOf(c, calls[1..][i]) != a'[j].0
    {
      assert calls[1..][i] == calls[i + 1];
    }
  }

  /** So it is whenever no two calls on a key read times that text alike and draw the same number. */
  lemma DistinctNamesLimitExactly(c: Config, calls: seq<Call>)
    requires Steady(calls) && DistinctDraws(c, calls)
    ensures Run(c, map[], calls) == NaiveRun(c, map[], calls, false)
  {
    forall i, j | 0 <= i < j < |calls| && calls[i].key == calls[j].key
      ensures NameOf(c, calls[i]) != NameOf(c, calls[j])
    {
      NamesCollideIff(c, calls[i], calls[j]);
    }
    LimitExactIff(c, calls);
    DistinctFrom(c, map[], calls);
  }

  /** Without that the limit can be exceeded: under a limit of two, three accepts within a window, on
      clock readings that are the same or merely text alike. */
  lemma CollidingNamesOvershoot(c: Config, t: Time, u: Time)
    requires c.maxRequests == 2 && t <= u < t + c.window && c.text(t) == c.text(u)
    ensures var calls := [Call("k", t, 7, true)] + [Call("k", u, 7, true), Call("k", u, 8, true)];
            && Steady(calls)
            && Run(c, map[], calls) == [true, true, true] && NaiveRun(c, map[], calls, false) == [true, true, false]
  {
    CollidingRun(c, t, u);
    CollidingReference(c, t, u);
  }

  lemma StepAccepts(c: Config, store: Store, call: Call, kept: map<Name, Time>)
    requires call.up && kept == Recent(Visible(store, call.key, call.now), call.now - c.window)
    requires |kept| < c.maxRequests
    ensures Step(c, store, call)
            == (store[call.key := ZSet(kept[NameOf(c, call) := call.now], call.now + Life(c))], true)
  {
  }

  lemma OneVisible(store: Store, k: Key, n: Name, score: Time, now: Time, cutoff: Time)
    requires k in store && store[k].scores == map[n := score] && now < store[k].expires && score > cutoff
    ensures Recent(Visible(store, k, now), cutoff) == map[n := score]
  {
  }

  lemma ThreeSteps(c: Config, s: Store, t: Store, u: Store, a: Call, b: Call, d: Call)
    requires Step(c, s, a) == (t, true) && Step(c, t, b) == (u, true) && Step(c, u, d).1
    ensures Run(c, s, [a] + [b, d]) == [true, true, true]
  {
    assert ([a] + [b, d])[1..] == [b, d] && [b, d][1..] == [d] && [d][1..] == [];
    assert Run(c, u, [d]) == [true];
    assert Run(c, t, [b, d]) == [true, true];
  }

  lemma FirstStep(c: Config, call: Call)
    requires call.up && c.maxRequests == 2
    ensures Step(c, map[], call) == (map[call.key := ZSet(map[NameOf(c, call) := call.now], call.now + Life(c))], true)
  {
    var none: map<Name, Time> := map[];
    assert Recent(Visible(map[], call.key, call.now), call.now - c.window) == none;
    StepAccepts(c, map[], call, none);
  }

  /** A second call on a key with one member is admitted, and when the names collide leaves one. */
  lemma NextStep(c: Config, store: Store, call: Call, n: Name, score: Time, expires: Time)
    requires call.up && c.maxRequests == 2 && store == map[call.key := ZSet(map[n := score], expires)]
    requires call.now < expires && score > call.now - c.window
    ensures Step(c, store, call).1
    ensures NameOf(c, call) == n ==>
              Step(c, store, call).0 == map[call.key := ZSet(map[n := call.now], call.now + Life(c))]
  {
    OneVisible(store, call.key, n, score, call.now, call.now - c.window);
    StepAccepts(c, store, call, map[n := score]);
    if NameOf(c, call) == n {
      assert map[n := score][n := call.now] == map[n := call.now];
      assert Step(c, store, call).0 == store[call.key := ZSet(map[n := call.now], call.now + Life(c))];
    }
  }

  lemma CollidingRun(c: Config, t: Time, u: Time)
    requires c.maxRequests == 2 && t <= u < t + c.window && c.text(t) == c.text(u)
    ensures Run(c, map[], [Call("k", t, 7, true)] + [Call("k", u, 7, true), Call("k", u, 8, true)])
        == [true, true, true]
  {
    var a, b, d := Call("k", t, 7, true), Call("k", u, 7, true), Call("k", u, 8, true);
    var n := NameOf(c, a);
    assert Life(c) > c.window && NameOf(c, b) == n;
    FirstStep(c, a);
    NextStep(c, Step(c, map[], a).0, b, n, t, t + Life(c));
    NextStep(c, Step(c, Step(c, map[], a).0, b).0, d, n, u, u + Life(c));
    ThreeSteps(c, map[], Step(c, map[], a).0, Step(c, Step(c, map[], a).0, b).0, a, b, d);
  }

  lemma CollidingReference(c: Config, t: Time, u: Time)
    requires c.maxRequests == 2 && t <= u < t + c.window
    ensures NaiveRun(c, map[], [Call("k", t, 7, true)] + [Call("k", u, 7, true), Call("k", u, 8, true)], false)
            == [true, true, false]
  {
    var a, b, d := Call("k", t, 7, true), Call("k", u, 7, true), Call("k", u, 8, true);
    var l1 := NaiveStep(c, map[], a, false).0;
    var l2 := NaiveStep(c, l1, b, false).0;
    var first, second := (NameOf(c, a), t), (NameOf(c, b), u);
    assert CountIn([first], u - c.window, u) == 1;
    assert [first, second][1..] == [second] && [second][1..] == [];
    assert CountIn([second], u - c.window, u) == 1;
    assert CountIn([first, second], u - c.window, u) == 2;
    assert Entries(l1, "k") == [first];
    assert Entries(l2, "k") == [first, second];
    assert ([a] + [b, d])[1..] == [b, d] && [b, d][1..] == [d];
    assert NaiveRun(c, l2, [d], false) == [false];
    assert NaiveRun(c, l1, [b, d], false) == [true, false];
  }

  // ---------------------------------------------------------------- the classes

  /** What the prune left under a key does not matter once the key is written. */
  lemma Overwritten(store: Store, k: Key, y: ZSet, z: ZSet)
    ensures (store - {k})[k := z] == store[k := y][k := z] == store[k := z]
  {
  }

  /** The Redis server: the sorted sets all replicas share. */
  class Redis {
    var zsets: Store

    constructor ()
      ensures zsets == map[]
    {
      zsets := map[];
    }

    /** The Lua script, command by command. */
    method RunScript(c: Config, call: Call) returns (reply: int)
      modifies this
      ensures (zsets, reply) == Script(c, old(zsets), call)
    {
      ghost var before := zsets;
      var cutoff := call.now - c.window;
      var kept := Recent(Visible(zsets, call.key, call.now), cutoff);
      ghost var written := ZSet(kept, 0.0);
      if kept == map[] {
        zsets := zsets - {call.key};
      } else {
        written := ZSet(kept, zsets[call.key].expires);
        zsets := zsets[call.key := ZSet(kept, zsets[call.key].expires)];
      }
      if |kept| >= c.maxRequests {
        return -1;
      }
      var scores := kept[NameOf(c, call) := call.now];
      zsets := zsets[call.key := ZSet(scores, call.now + Life(c))];
      Overwritten(before, call.key, written, zsets[call.key]);
      return c.maxRequests - |kept| - 1;
    }
  }

  class RedisRateLimiter {
    const redis: Redis
    const cfg: Config

    constructor (redis: Redis, maxRequests: int, window: Time, text: Time -> string)
      ensures this.redis == redis && cfg == Config(maxRequests, window, text)
    {
      this.redis, cfg := redis, Config(maxRequests, window, text);
    }

    method IsAllowed(call: Call) returns (ok: bool)
      modifies redis
      ensures (redis.zsets, ok) == Step(cfg, old(redis.zsets), call)
    {
      if !call.up {
        return true;
      }
      var reply := redis.RunScript(cfg, call);
      return reply >= 0;
    }
  }
}
