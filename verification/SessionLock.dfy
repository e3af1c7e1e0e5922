/** The distributed in-flight session lock: `SET NX EX` to acquire, a token map per replica,
    a compare-and-delete to release, expiry, crashes and fail-open outages.

    The protocol is a state machine over the atomic steps of any number of replicas and one
    Redis server, so every interleaving is an event sequence. A release is two steps, the
    local pop of the token and the arrival of the delete, which may be arbitrarily late or
    never come. `issued` records, for the proofs only, who set each lock and when. */
module SessionLock {
  import opened Prelude

  type Session = string
  type Replica = nat
  type Run = nat
  type Token = nat
  type Time = int

  // ---------------------------------------------------------------- the Redis server

  datatype Lock = Lock(token: Token, expires: Time)
  type Locks = map<Session, Lock>

  /** An expired key reads as absent. */
  predicate Live(locks: Locks, now: Time, s: Session) {
    s in locks && now < locks[s].expires
  }

  /** `SET key token NX EX ttl` and whether it was set. */
  function SetNxEx(locks: Locks, now: Time, s: Session, token: Token, ttl: Time): (Locks, bool) {
    if Live(locks, now, s) then (locks, false) else (locks[s := Lock(token, now + ttl)], true)
  }

  /** The release script: delete the key only while it still holds this token. */
  function CompareAndDelete(locks: Locks, now: Time, s: Session, token: Token): Locks {
    if Live(locks, now, s) && locks[s].token == token then locks - {s} else locks
  }

  // ---------------------------------------------------------------- the system

  /** A run between a granted acquire and the start of its release. */
  datatype InFlight =
    | Acquired(replica: Replica, session: Session, token: Token, since: Time)  // SET answered, token not yet recorded
    | Holding(replica: Replica, session: Session, token: Token, since: Time)
    | Open(replica: Replica, session: Session)                                 // Redis failed, run allowed anyway

  /** A compare-and-delete on its way to Redis. */
  datatype Delete = Delete(replica: Replica, session: Session, token: Token)

  datatype Issue = Issue(replica: Replica, session: Session, at: Time)

  datatype State = State(
    now: Time,
    locks: Locks,
    tokens: map<(Replica, Session), Token>,
    runs: map<Run, InFlight>,
    deletes: set<Delete>,
    issued: map<Token, Issue>)

  datatype Event =
    | Tick(dt: nat)
    | Acquire(run: Run, replica: Replica, session: Session, token: Token)
    | FailOpen(run: Run, replica: Replica, session: Session, token: Token, applied: bool)
    | Record(run: Run)
    | BeginRelease(run: Run)
    | Deliver(delete: Delete)
    | Lose(delete: Delete)
    | Crash(replica: Replica)

  const INIT := State(0, map[], map[], map[], {}, map[])

  predicate Enabled(s: State, e: Event) {
    match e
    case Tick(_) => true
    case Acquire(run, _, _, token) => run !in s.runs && token !in s.issued
    case FailOpen(run, _, _, token, _) => run !in s.runs && token !in s.issued
    case Record(run) => run in s.runs && s.runs[run].Acquired?
    case BeginRelease(run) => run in s.runs && !s.runs[run].Acquired?
    case Deliver(d) => d in s.deletes
    case Lose(d) => d in s.deletes
    case Crash(_) => true
  }

  function Apply(ttl: Time, s: State, e: Event): State
    requires Enabled(s, e)
  {
    match e
    case Tick(dt) => s.(now := s.now + dt)
    case Acquire(run, p, k, token) =>
      var (locks, ok) := SetNxEx(s.locks, s.now, k, token, ttl);
      if !ok then s else
        s.(locks := locks, runs := s.runs[run := Acquired(p, k, token, s.now)],
           issued := s.issued[token := Issue(p, k, s.now)])
    case FailOpen(run, p, k, token, applied) =>
      // The command may still have taken effect before the connection broke.
      var (locks, ok) := SetNxEx(s.locks, s.now, k, token, ttl);
      var s' := s.(runs := s.runs[run := Open(p, k)]);
      if applied && ok then s'.(locks := locks, issued := s.issued[token := Issue(p, k, s.now)]) else s'
    case Record(run) =>
      var r := s.runs[run];
      s.(tokens := s.tokens[(r.replica, r.session) := r.token],
         runs := s.runs[run := Holding(r.replica, r.session, r.token, r.since)])
    case BeginRelease(run) =>
      var key := (s.runs[run].replica, s.runs[run].session);
      var s' := s.(runs := s.runs - {run});
      if key !in s.tokens then s' else
        s'.(tokens := s.tokens - {key}, deletes := s.deletes + {Delete(key.0, key.1, s.tokens[key])})
    case Deliver(d) =>
      s.(locks := CompareAndDelete(s.locks, s.now, d.session, d.token), deletes := s.deletes - {d})
    case Lose(d) => s.(deletes := s.deletes - {d})
    case Crash(p) =>
      s.(tokens := map key | key in s.tokens && key.0 != p :: s.tokens[key],
         runs := map r | r in s.runs && s.runs[r].replica != p :: s.runs[r])
  }

  /** A delete is sent by a release that finds its token recorded, and is on its way until it is
      delivered or lost, once. */
  lemma DeletesArriveOnce(ttl: Time, s: State, e: Event, d: Delete)
    requires Enabled(s, e)
    ensures d in Apply(ttl, s, e).deletes <==>
            || (d in s.deletes && e != Deliver(d) && e != Lose(d))
            || (&& e.BeginRelease? && s.runs[e.run].replica == d.replica && s.runs[e.run].session == d.session
                && (d.replica, d.session) in s.tokens && s.tokens[(d.replica, d.session)] == d.token)
  {
  }

  /** A replica can crash at any moment. Its runs and tokens are gone, and nothing else: its locks stay
      until they expire, and its deletes are still on their way. */
  lemma CrashForgetsOneReplica(ttl: Time, s: State, p: Replica)
    ensures Enabled(s, Crash(p))
    ensures var s' := Apply(ttl, s, Crash(p));
            && s'.locks == s.locks && s'.deletes == s.deletes && s'.now == s.now
            && (forall r :: r in s'.runs <==> r in s.runs && s.runs[r].replica != p)
            && (forall r | r in s'.runs :: s'.runs[r] == s.runs[r])
            && (forall key :: key in s'.tokens <==> key in s.tokens && key.0 != p)
            && (forall key | key in s'.tokens :: s'.tokens[key] == s.tokens[key])
  {
  }

  /** `es` can happen from `s`, in this order. */
  predicate Possible(ttl: Time, s: State, es: seq<Event>)
    decreases |es|
  {
    es != [] ==> Enabled(s, es[0]) && Possible(ttl, Apply(ttl, s, es[0]), es[1..])
  }

  function After(ttl: Time, s: State, es: seq<Event>): State
    requires Possible(ttl, s, es)
    decreases |es|
  {
    if es == [] then s else After(ttl, Apply(ttl, s, es[0]), es[1..])
  }

  // ---------------------------------------------------------------- what is asked of a run

  /** Every run in flight that holds a lock is still inside the lock's lifetime. */
  ghost predicate Timely(ttl: Time, s: State) {
    forall r | r in s.runs && !s.runs[r].Open? :: s.now < s.runs[r].since + ttl
  }

  ghost predicate AlwaysTimely(ttl: Time, s: State, es: seq<Event>)
    requires Possible(ttl, s, es)
    decreases |es|
  {
    Timely(ttl, s) && (es != [] ==> AlwaysTimely(ttl, Apply(ttl, s, es[0]), es[1..]))
  }

  ghost predicate NeverFailsOpen(es: seq<Event>) {
    forall i | 0 <= i < |es| :: !es[i].FailOpen?
  }

  ghost predicate OnePerSession(s: State) {
    forall r, r' | r in s.runs && r' in s.runs && s.runs[r].session == s.runs[r'].session :: r == r'
  }

  // ---------------------------------------------------------------- who may delete what

  ghost predicate IssuedTo(s: State, token: Token, p: Replica, k: Session) {
    token in s.issued && s.issued[token].replica == p && s.issued[token].session == k
  }

  /** Holds in every execution: a token stored anywhere was issued to the replica and session it
      is stored under, and a lock expires one lifetime after it was set. */
  ghost predicate Owned(ttl: Time, s: State) {
    && (forall k | k in s.locks :: s.locks[k].token in s.issued && s.issued[s.locks[k].token].session == k
                                   && s.locks[k].expires == s.issued[s.locks[k].token].at + ttl)
    && (forall key | key in s.tokens :: IssuedTo(s, s.tokens[key], key.0, key.1))
    && (forall d | d in s.deletes :: IssuedTo(s, d.token, d.replica, d.session))
    && (forall r | r in s.runs && !s.runs[r].Open? ::
          s.runs[r].token in s.issued
          && s.issued[s.runs[r].token] == Issue(s.runs[r].replica, s.runs[r].session, s.runs[r].since))
  }

  /** Two runs never share a token. */
  ghost predicate OwnTokens(s: State) {
    forall r, r' | r in s.runs && r' in s.runs && !s.runs[r].Open? && !s.runs[r'].Open?
                   && s.runs[r].token == s.runs[r'].token :: r == r'
  }

  /** A new lock and its issue, nothing else. */
  lemma SetKeepsOwned(ttl: Time, s: State, p: Replica, k: Session, token: Token)
    requires Owned(ttl, s) && token !in s.issued
    ensures Owned(ttl, s.(locks := s.locks[k := Lock(token, s.now + ttl)],
                          issued := s.issued[token := Issue(p, k, s.now)]))
  {
    assert forall key | key in s.tokens :: IssuedTo(s, s.tokens[key], key.0, key.1);
    assert forall d | d in s.deletes :: IssuedTo(s, d.token, d.replica, d.session);
  }

  lemma AcquireKeepsOwned(ttl: Time, s: State, e: Event)
    requires Owned(ttl, s) && Enabled(s, e) && (e.Acquire? || e.FailOpen?)
    ensures Owned(ttl, Apply(ttl, s, e))
  {
    SetKeepsOwned(ttl, s, e.replica, e.session, e.token);
    var issue := s.(locks := s.locks[e.session := Lock(e.token, s.now + ttl)],
                   issued := s.issued[e.token := Issue(e.replica, e.session, s.now)]);
    var s' := Apply(ttl, s, e);
    assert (s'.locks == issue.locks && s'.issued == issue.issued) || (s'.locks == s.locks && s'.issued == s.issued);
    if s'.issued == issue.issued && s'.locks == issue.locks {
      RunsApart(ttl, issue, s');
    } else {
      RunsApart(ttl, s, s');
    }
  }

  /** Owned looks at runs one by one. */
  lemma RunsApart(ttl: Time, s: State, s': State)
    requires Owned(ttl, s) && s'.locks == s.locks && s'.issued == s.issued && s'.tokens == s.tokens
        && s'.deletes == s.deletes
    requires forall r | r in s'.runs && !s'.runs[r].Open? ::
               (r in s.runs && s'.runs[r] == s.runs[r])
               || (s'.runs[r].token in s.issued
                   && s.issued[s'.runs[r].token] == Issue(s'.runs[r].replica, s'.runs[r].session, s'.runs[r].since))
    ensures Owned(ttl, s')
  {
    assert forall key | key in s.tokens :: IssuedTo(s, s.tokens[key], key.0, key.1);
    assert forall d | d in s.deletes :: IssuedTo(s, d.token, d.replica, d.session);
  }

  lemma RecordKeepsOwned(ttl: Time, s: State, e: Event)
    requires Owned(ttl, s) && Enabled(s, e) && e.Record?
    ensures Owned(ttl, Apply(ttl, s, e))
  {
    var s', f := Apply(ttl, s, e), s.runs[e.run];
    assert IssuedTo(s', f.token, f.replica, f.session);
    assert forall key | key in s'.tokens && key != (f.replica, f.session) :: IssuedTo(s, s'.tokens[key], key.0, key.1);
    assert forall d | d in s'.deletes :: IssuedTo(s, d.token, d.replica, d.session);
  }

  lemma ReleaseKeepsOwned(ttl: Time, s: State, e: Event)
    requires Owned(ttl, s) && Enabled(s, e) && e.BeginRelease?
    ensures Owned(ttl, Apply(ttl, s, e))
  {
    var s', key := Apply(ttl, s, e), (s.runs[e.run].replica, s.runs[e.run].session);
    assert key in s.tokens ==> IssuedTo(s, s.tokens[key], key.0, key.1);
    assert forall k | k in s'.tokens :: IssuedTo(s, s'.tokens[k], k.0, k.1);
    assert forall d | d in s'.deletes && d in s.deletes :: IssuedTo(s, d.token, d.replica, d.session);
  }

  lemma OtherStepKeepsOwned(ttl: Time, s: State, e: Event)
    requires Owned(ttl, s) && Enabled(s, e) && (e.Tick? || e.Deliver? || e.Lose? || e.Crash?)
    ensures Owned(ttl, Apply(ttl, s, e))
  {
    var s' := Apply(ttl, s, e);
    assert forall k | k in s'.tokens :: IssuedTo(s, s'.tokens[k], k.0, k.1);
    assert forall d | d in s'.deletes :: IssuedTo(s, d.token, d.replica, d.session);
  }

  lemma StepKeepsOwned(ttl: Time, s: State, e: Event)
    requires Owned(ttl, s) && Enabled(s, e)
    ensures Owned(ttl, Apply(ttl, s, e))
  {
    match e
    case Acquire(_, _, _, _) => AcquireKeepsOwned(ttl, s, e);
    case FailOpen(_, _, _, _, _) => AcquireKeepsOwned(ttl, s, e);
    case Record(_) => RecordKeepsOwned(ttl, s, e);
    case BeginRelease(_) => ReleaseKeepsOwned(ttl, s, e);
    case _ => OtherStepKeepsOwned(ttl, s, e);
  }

  lemma StepKeepsOwnTokens(ttl: Time, s: State, e: Event)
    requires Owned(ttl, s) && OwnTokens(s) && Enabled(s, e)
    ensures OwnTokens(Apply(ttl, s, e))
  {
    var s' := Apply(ttl, s, e);
    if e.Acquire? && s' != s {
      assert forall r | r in s.runs && !s.runs[r].Open? :: s.runs[r].token in s.issued;
    }
  }

  lemma {:induction false} RunKeepsOwned(ttl: Time, s: State, es: seq<Event>)
    requires Owned(ttl, s) && Possible(ttl, s, es)
    ensures Owned(ttl, After(ttl, s, es))
    decreases |es|
  {
    if es != [] {
      StepKeepsOwned(ttl, s, es[0]);
      RunKeepsOwned(ttl, Apply(ttl, s, es[0]), es[1..]);
    }
  }

  /** In every execution, outages, expiry, crashes and fail-open included: when a delete removes a
      lock, that lock was set by the replica that sent the delete, for that very session. */
  lemma ReleaseDeletesOnlyOwnLock(ttl: Time, es: seq<Event>, d: Delete, k: Session)
    requires Possible(ttl, INIT, es)
    requires var s := After(ttl, INIT, es); Enabled(s, Deliver(d)) && k in s.locks
    requires k !in Apply(ttl, After(ttl, INIT, es), Deliver(d)).locks
    ensures var s := After(ttl, INIT, es);
            k == d.session && s.locks[k].token == d.token && IssuedTo(s, d.token, d.replica, k)
  {
    RunKeepsOwned(ttl, INIT, es);
  }

  /** The lock stored for `k` was set less than one lifetime ago. */
  ghost predicate SetRecently(ttl: Time, s: State, k: Session) {
    k in s.locks && s.locks[k].token in s.issued && s.now < s.issued[s.locks[k].token].at + ttl
  }

  /** In every execution an acquire is refused exactly when a lock set less than one lifetime ago
      is still stored: a crashed holder or a lost delete never blocks a session for longer. */
  lemma BlockedForAtMostOneLifetime(ttl: Time, es: seq<Event>, e: Event)
    requires Possible(ttl, INIT, es) && e.Acquire? && Enabled(After(ttl, INIT, es), e)
    ensures var s := After(ttl, INIT, es);
            if SetRecently(ttl, s, e.session) then Apply(ttl, s, e) == s
            else Apply(ttl, s, e).runs == s.runs[e.run := Acquired(e.replica, e.session, e.token, s.now)]
  {
    RunKeepsOwned(ttl, INIT, es);
  }

  // ---------------------------------------------------------------- mutual exclusion

  /** The run owns the lock stored for its session, and its replica remembers the token. */
  ghost predicate OwnsLock(ttl: Time, s: State, r: Run)
    requires r in s.runs
  {
    var f := s.runs[r];
    && !f.Open?
    && f.session in s.locks && s.locks[f.session] == Lock(f.token, f.since + ttl)
    && (f.Holding? ==> (f.replica, f.session) in s.tokens && s.tokens[(f.replica, f.session)] == f.token)
  }

  /** A recorded token belongs to a run in flight. */
  ghost predicate Recorded(s: State, key: (Replica, Session)) {
    exists r :: r in s.runs && s.runs[r].Holding? && s.runs[r].replica == key.0 && s.runs[r].session == key.1
  }

  /** A delete on its way names no run in flight. */
  ghost predicate Outdated(s: State, d: Delete) {
    forall r | r in s.runs && !s.runs[r].Open? :: s.runs[r].token != d.token
  }

  ghost predicate Exclusive(ttl: Time, s: State) {
    && (forall r | r in s.runs :: OwnsLock(ttl, s, r))
    && OnePerSession(s)
    && (forall key | key in s.tokens :: Recorded(s, key))
    && (forall d | d in s.deletes :: Outdated(s, d))
  }

  lemma AcquireKeepsExclusive(ttl: Time, s: State, e: Event)
    requires Owned(ttl, s) && Exclusive(ttl, s) && Timely(ttl, s) && e.Acquire? && Enabled(s, e)
    ensures Exclusive(ttl, Apply(ttl, s, e))
  {
    var s' := Apply(ttl, s, e);
    if s' != s {
      forall r | r in s.runs ensures s.runs[r].session != e.session && OwnsLock(ttl, s', r) {
        assert OwnsLock(ttl, s, r);
      }
      forall key | key in s'.tokens ensures Recorded(s', key) {
        assert Recorded(s, key);
        var r :| r in s.runs && s.runs[r].Holding? && s.runs[r].replica == key.0 && s.runs[r].session == key.1;
        assert r in s'.runs && s'.runs[r] == s.runs[r];
      }
      forall d | d in s'.deletes ensures Outdated(s', d) {
        assert Outdated(s, d) && IssuedTo(s, d.token, d.replica, d.session);
      }
    }
  }

  lemma RecordKeepsExclusive(ttl: Time, s: State, e: Event)
    requires Exclusive(ttl, s) && e.Record? && Enabled(s, e)
    ensures Exclusive(ttl, Apply(ttl, s, e))
  {
    var s', f := Apply(ttl, s, e), s.runs[e.run];
    var own := (f.replica, f.session);
    forall r | r in s'.runs ensures OwnsLock(ttl, s', r) {
      assert OwnsLock(ttl, s, r);
    }
    forall key | key in s'.tokens ensures Recorded(s', key) {
      if key == own {
        assert s'.runs[e.run].Holding?;
      } else {
        assert Recorded(s, key);
        var r :| r in s.runs && s.runs[r].Holding? && s.runs[r].replica == key.0 && s.runs[r].session == key.1;
        assert s'.runs[r] == s.runs[r];
      }
    }
    forall d | d in s'.deletes ensures Outdated(s', d) {
      assert Outdated(s, d);
    }
  }

  lemma ReleaseKeepsExclusive(ttl: Time, s: State, e: Event)
    requires Owned(ttl, s) && Exclusive(ttl, s) && e.BeginRelease? && Enabled(s, e)
    ensures Exclusive(ttl, Apply(ttl, s, e))
  {
    var s', f := Apply(ttl, s, e), s.runs[e.run];
    assert OwnsLock(ttl, s, e.run);
    forall r | r in s'.runs ensures OwnsLock(ttl, s', r) && s'.runs[r].token != f.token {
      // A shared token would be a shared session, hence the same run.
      assert OwnsLock(ttl, s, r);
    }
    forall key | key in s'.tokens ensures Recorded(s', key) {
      assert Recorded(s, key);
      var r :| r in s.runs && s.runs[r].Holding? && s.runs[r].replica == key.0 && s.runs[r].session == key.1;
      assert r in s'.runs && s'.runs[r] == s.runs[r];
    }
    forall d | d in s'.deletes ensures Outdated(s', d) {
      assert d in s.deletes ==> Outdated(s, d);
    }
  }

  lemma DeliverKeepsExclusive(ttl: Time, s: State, e: Event)
    requires Owned(ttl, s) && Exclusive(ttl, s) && e.Deliver? && Enabled(s, e)
    ensures Exclusive(ttl, Apply(ttl, s, e))
  {
    var s' := Apply(ttl, s, e);
    assert Outdated(s, e.delete);
    forall r | r in s'.runs ensures OwnsLock(ttl, s', r) {
      assert OwnsLock(ttl, s, r);
    }
    assert forall key | key in s'.tokens :: Recorded(s, key) && Recorded(s', key);
    assert forall d | d in s'.deletes :: Outdated(s, d) && Outdated(s', d);
  }

  lemma CrashKeepsExclusive(ttl: Time, s: State, e: Event)
    requires Exclusive(ttl, s) && e.Crash? && Enabled(s, e)
    ensures Exclusive(ttl, Apply(ttl, s, e))
  {
    var s' := Apply(ttl, s, e);
    forall r | r in s'.runs ensures OwnsLock(ttl, s', r) {
      assert OwnsLock(ttl, s, r);
    }
    forall key | key in s'.tokens ensures Recorded(s', key) {
      assert Recorded(s, key);
      var r :| r in s.runs && s.runs[r].Holding? && s.runs[r].replica == key.0 && s.runs[r].session == key.1;
      assert r in s'.runs && s'.runs[r] == s.runs[r];
    }
    assert forall d | d in s'.deletes :: Outdated(s, d);
  }

  lemma StepKeepsExclusive(ttl: Time, s: State, e: Event)
    requires Owned(ttl, s) && Exclusive(ttl, s) && Timely(ttl, s)
    requires Enabled(s, e) && !e.FailOpen?
    ensures Exclusive(ttl, Apply(ttl, s, e))
  {
    match e
    case Acquire(_, _, _, _) => AcquireKeepsExclusive(ttl, s, e);
    case Record(_) => RecordKeepsExclusive(ttl, s, e);
    case BeginRelease(_) => ReleaseKeepsExclusive(ttl, s, e);
    case Deliver(_) => DeliverKeepsExclusive(ttl, s, e);
    case Crash(_) => CrashKeepsExclusive(ttl, s, e);
    case Tick(_) =>
      var s' := Apply(ttl, s, e);
      assert forall r | r in s'.runs :: OwnsLock(ttl, s, r) && OwnsLock(ttl, s', r);
      assert forall key | key in s'.tokens :: Recorded(s, key) && Recorded(s', key);
      assert forall d | d in s'.deletes :: Outdated(s, d) && Outdated(s', d);
    case Lose(_) =>
      var s' := Apply(ttl, s, e);
      assert forall r | r in s'.runs :: OwnsLock(ttl, s, r) && OwnsLock(ttl, s', r);
      assert forall key | key in s'.tokens :: Recorded(s, key) && Recorded(s', key);
      assert forall d | d in s'.deletes :: Outdated(s, d) && Outdated(s', d);
  }

  lemma {:induction false} RunKeepsExclusive(ttl: Time, s: State, es: seq<Event>)
    requires Owned(ttl, s) && Exclusive(ttl, s)
    requires Possible(ttl, s, es) && AlwaysTimely(ttl, s, es) && NeverFailsOpen(es)
    ensures Exclusive(ttl, After(ttl, s, es))
    decreases |es|
  {
    if es != [] {
      StepKeepsOwned(ttl, s, es[0]);
      StepKeepsExclusive(ttl, s, es[0]);
      assert forall i | 0 <= i < |es| - 1 :: es[1..][i] == es[i + 1];
      RunKeepsExclusive(ttl, Apply(ttl, s, es[0]), es[1..]);
    }
  }

  /** If no acquire fails open and every run starts its release within the lock's lifetime, then
      in every interleaving at most one run per session is in flight on all replicas together,
      however late the deletes of earlier runs arrive. */
  lemma AtMostOneRunPerSession(ttl: Time, es: seq<Event>)
    requires Possible(ttl, INIT, es) && AlwaysTimely(ttl, INIT, es) && NeverFailsOpen(es)
    ensures OnePerSession(After(ttl, INIT, es))
  {
    RunKeepsExclusive(ttl, INIT, es);
  }

  // ---------------------------------------------------------------- which deletes take a lock from its run

  /** Under the same conditions no delete takes a lock from the run that set it: after any delivery
      every run in flight still has its own token stored, with its own expiry. */
  lemma TimelyRunsKeepTheirLocks(ttl: Time, es: seq<Event>, d: Delete, r: Run)
    requires Possible(ttl, INIT, es) && AlwaysTimely(ttl, INIT, es) && NeverFailsOpen(es)
    requires Enabled(After(ttl, INIT, es), Deliver(d)) && r in After(ttl, INIT, es).runs
    ensures OwnsLock(ttl, Apply(ttl, After(ttl, INIT, es), Deliver(d)), r)
  {
    RunKeepsOwned(ttl, INIT, es);
    RunKeepsExclusive(ttl, INIT, es);
    DeliverKeepsExclusive(ttl, After(ttl, INIT, es), Deliver(d));
  }

  /** In every execution: a delete takes the live lock of a run if and only if it carries that run's
      token. */
  lemma DeleteTakesLockIff(ttl: Time, es: seq<Event>, d: Delete, r: Run)
    requires Possible(ttl, INIT, es) && Enabled(After(ttl, INIT, es), Deliver(d))
    requires var s := After(ttl, INIT, es);
             && r in s.runs && !s.runs[r].Open? && Live(s.locks, s.now, s.runs[r].session)
             && s.locks[s.runs[r].session].token == s.runs[r].token
    ensures var s := After(ttl, INIT, es);
            s.runs[r].session !in Apply(ttl, s, Deliver(d)).locks <==> d.token == s.runs[r].token
  {
    RunKeepsOwned(ttl, INIT, es);
    var s := After(ttl, INIT, es);
    assert IssuedTo(s, d.token, d.replica, d.session);
  }

  /** A release strays when the token its replica has recorded for the session is not the token of
      the run that releases, but that of another run in flight. */
  ghost predicate Strays(s: State, e: Event) {
    && e.BeginRelease? && e.run in s.runs
    && var key := (s.runs[e.run].replica, s.runs[e.run].session);
       key in s.tokens
       && exists r :: r in s.runs && r != e.run && !s.runs[r].Open? && s.runs[r].token == s.tokens[key]
  }

  ghost predicate NeverStrays(ttl: Time, s: State, es: seq<Event>)
    requires Possible(ttl, s, es)
    decreases |es|
  {
    es != [] ==> !Strays(s, es[0]) && NeverStrays(ttl, Apply(ttl, s, es[0]), es[1..])
  }

  ghost predicate NoneThreatened(s: State) { forall d | d in s.deletes :: Outdated(s, d) }

  ghost predicate NeverThreatened(ttl: Time, s: State, es: seq<Event>)
    requires Possible(ttl, s, es)
    decreases |es|
  {
    NoneThreatened(s) && (es != [] ==> NeverThreatened(ttl, Apply(ttl, s, es[0]), es[1..]))
  }

  lemma ReleaseThreatensIffStrays(ttl: Time, s: State, e: Event)
    requires Owned(ttl, s) && OwnTokens(s) && NoneThreatened(s) && Enabled(s, e) && e.BeginRelease?
    ensures NoneThreatened(Apply(ttl, s, e)) <==> !Strays(s, e)
  {
    var s', f := Apply(ttl, s, e), s.runs[e.run];
    var key := (f.replica, f.session);
    if Strays(s, e) {
      var r :| r in s.runs && r != e.run && !s.runs[r].Open? && s.runs[r].token == s.tokens[key];
      assert r in s'.runs && Delete(key.0, key.1, s.tokens[key]) in s'.deletes;
    } else {
      forall d | d in s'.deletes ensures Outdated(s', d) {
        assert d in s.deletes ==> Outdated(s, d);
      }
    }
  }

  lemma StepThreatensIffStrays(ttl: Time, s: State, e: Event)
    requires Owned(ttl, s) && OwnTokens(s) && NoneThreatened(s) && Enabled(s, e)
    ensures NoneThreatened(Apply(ttl, s, e)) <==> !Strays(s, e)
  {
    if e.BeginRelease? {
      ReleaseThreatensIffStrays(ttl, s, e);
    } else {
      var s' := Apply(ttl, s, e);
      forall d | d in s'.deletes ensures Outdated(s', d) {
        assert Outdated(s, d) && IssuedTo(s, d.token, d.replica, d.session);
      }
    }
  }

  lemma {:induction false} NeverThreatenedIff(ttl: Time, s: State, es: seq<Event>)
    requires Owned(ttl, s) && OwnTokens(s) && NoneThreatened(s) && Possible(ttl, s, es)
    ensures NeverThreatened(ttl, s, es) <==> NeverStrays(ttl, s, es)
    decreases |es|
  {
    if es != [] {
      var s' := Apply(ttl, s, es[0]);
      StepKeepsOwned(ttl, s, es[0]);
      StepKeepsOwnTokens(ttl, s, es[0]);
      StepThreatensIffStrays(ttl, s, es[0]);
      if NoneThreatened(s') {
        NeverThreatenedIff(ttl, s', es[1..]);
      }
    }
  }

  /** When the documented promise holds per run, in every execution, outages, overruns and crashes
      included: no delete carrying the token of a run in flight is ever on its way if and only if no
      release strays. By `DeleteTakesLockIff` these are the deletes that would take its live lock. */
  lemma DeletesSpareRunsIffNoneStrays(ttl: Time, es: seq<Event>)
    requires Possible(ttl, INIT, es)
    ensures NeverThreatened(ttl, INIT, es) <==> NeverStrays(ttl, INIT, es)
  {
    NeverThreatenedIff(ttl, INIT, es);
  }

  // ---------------------------------------------------------------- exactly when exclusion holds

  ghost predicate InFlightFor(s: State, k: Session) { exists r :: r in s.runs && s.runs[r].session == k }

  /** A run is let in beside another one of its session: past a lock that is gone, or past Redis. */
  ghost predicate Overlaps(s: State, e: Event) {
    || (e.Acquire? && InFlightFor(s, e.session) && !Live(s.locks, s.now, e.session))
    || (e.FailOpen? && InFlightFor(s, e.session))
  }

  lemma EntryOverlapsIff(ttl: Time, s: State, e: Event)
    requires OnePerSession(s) && Enabled(s, e) && (e.Acquire? || e.FailOpen?)
    ensures OnePerSession(Apply(ttl, s, e)) <==> !Overlaps(s, e)
  {
    var s' := Apply(ttl, s, e);
    if Overlaps(s, e) {
      var r :| r in s.runs && s.runs[r].session == e.session;
      assert r in s'.runs && e.run in s'.runs && s'.runs[r].session == s'.runs[e.run].session;
    }
  }

  lemma StepOverlapsIff(ttl: Time, s: State, e: Event)
    requires OnePerSession(s) && Enabled(s, e)
    ensures OnePerSession(Apply(ttl, s, e)) <==> !Overlaps(s, e)
  {
    if e.Acquire? || e.FailOpen? {
      EntryOverlapsIff(ttl, s, e);
    } else {
      var s' := Apply(ttl, s, e);
      assert forall r | r in s'.runs :: r in s.runs && s'.runs[r].session == s.runs[r].session;
    }
  }

  ghost predicate AlwaysOnePerSession(ttl: Time, s: State, es: seq<Event>)
    requires Possible(ttl, s, es)
    decreases |es|
  {
    OnePerSession(s) && (es != [] ==> AlwaysOnePerSession(ttl, Apply(ttl, s, es[0]), es[1..]))
  }

  ghost predicate NeverOverlaps(ttl: Time, s: State, es: seq<Event>)
    requires Possible(ttl, s, es)
    decreases |es|
  {
    es != [] ==> !Overlaps(s, es[0]) && NeverOverlaps(ttl, Apply(ttl, s, es[0]), es[1..])
  }

  lemma {:induction false} AlwaysOneIff(ttl: Time, s: State, es: seq<Event>)
    requires OnePerSession(s) && Possible(ttl, s, es)
    ensures AlwaysOnePerSession(ttl, s, es) <==> NeverOverlaps(ttl, s, es)
    decreases |es|
  {
    if es != [] {
      StepOverlapsIff(ttl, s, es[0]);
      if OnePerSession(Apply(ttl, s, es[0])) {
        AlwaysOneIff(ttl, Apply(ttl, s, es[0]), es[1..]);
      }
    }
  }

  /** In every execution whatever: a session never has two runs in flight if and only if no acquire
      finds its lock gone, and no outage its Redis gone, while another run of it is in flight. */
  lemma ExclusionHoldsIff(ttl: Time, es: seq<Event>)
    requires Possible(ttl, INIT, es)
    ensures AlwaysOnePerSession(ttl, INIT, es) <==> NeverOverlaps(ttl, INIT, es)
  {
    AlwaysOneIff(ttl, INIT, es);
  }

  lemma {:induction false} FreshNat(s: set<nat>) returns (n: nat)
    ensures forall x | x in s :: x < n
    decreases |s|
  {
    if s == {} {
      n := 0;
    } else {
      var x :| x in s;
      var m := FreshNat(s - {x});
      n := if m > x then m else x + 1;
      forall y | y in s ensures y < n {
        assert y == x || y in s - {x};
      }
    }
  }

  /** Nothing that may happen next as an acquire lets a second run in. */
  ghost predicate SafeToAcquire(ttl: Time, s: State) {
    forall e: Event | e.Acquire? && Enabled(s, e) :: OnePerSession(Apply(ttl, s, e))
  }

  /** Being timely is the weakest condition under which every next acquire is harmless. */
  lemma SafeToAcquireIffTimely(ttl: Time, s: State)
    requires Exclusive(ttl, s)
    ensures SafeToAcquire(ttl, s) <==> Timely(ttl, s)
  {
    if Timely(ttl, s) {
      forall e: Event | e.Acquire? && Enabled(s, e) ensures OnePerSession(Apply(ttl, s, e)) {
        EntryOverlapsIff(ttl, s, e);
        if InFlightFor(s, e.session) {
          var r :| r in s.runs && s.runs[r].session == e.session;
          assert OwnsLock(ttl, s, r);
        }
      }
    } else {
      var r :| r in s.runs && !s.runs[r].Open? && s.now >= s.runs[r].since + ttl;
      assert OwnsLock(ttl, s, r);
      var run := FreshNat(s.runs.Keys);
      var token := FreshNat(s.issued.Keys);
      var e := Acquire(run, 0, s.runs[r].session, token);
      assert Enabled(s, e);
      assert InFlightFor(s, e.session);
      EntryOverlapsIff(ttl, s, e);
      assert !OnePerSession(Apply(ttl, s, e));
    }
  }

  ghost predicate AlwaysSafeToAcquire(ttl: Time, s: State, es: seq<Event>)
    requires Possible(ttl, s, es)
    decreases |es|
  {
    SafeToAcquire(ttl, s) && (es != [] ==> AlwaysSafeToAcquire(ttl, Apply(ttl, s, es[0]), es[1..]))
  }

  lemma {:induction false} AlwaysSafeIff(ttl: Time, s: State, es: seq<Event>)
    requires Owned(ttl, s) && Exclusive(ttl, s) && Possible(ttl, s, es) && NeverFailsOpen(es)
    ensures AlwaysSafeToAcquire(ttl, s, es) <==> AlwaysTimely(ttl, s, es)
    decreases |es|
  {
    SafeToAcquireIffTimely(ttl, s);
    if es != [] && Timely(ttl, s) {
      StepKeepsOwned(ttl, s, es[0]);
      StepKeepsExclusive(ttl, s, es[0]);
      assert forall i | 0 <= i < |es| - 1 :: es[1..][i] == es[i + 1];
      AlwaysSafeIff(ttl, Apply(ttl, s, es[0]), es[1..]);
    }
  }

  /** Without outages, in every execution: all its runs are timely if and only if at no moment an
      acquire could have let a second run of a session in. */
  lemma ExclusionIsSafeIffTimely(ttl: Time, es: seq<Event>)
    requires Possible(ttl, INIT, es) && NeverFailsOpen(es)
    ensures AlwaysSafeToAcquire(ttl, INIT, es) <==> AlwaysTimely(ttl, INIT, es)
  {
    AlwaysSafeIff(ttl, INIT, es);
  }

  /** After any such execution with timely runs, an outage keeps exclusion if and only if it meets
      no run of its session in flight. */
  lemma FailOpenKeepsExclusionIff(ttl: Time, es: seq<Event>, e: Event)
    requires Possible(ttl, INIT, es) && AlwaysTimely(ttl, INIT, es) && NeverFailsOpen(es)
    requires e.FailOpen? && Enabled(After(ttl, INIT, es), e)
    ensures Possible(ttl, INIT, es + [e])
    ensures OnePerSession(After(ttl, INIT, es + [e])) <==> !InFlightFor(After(ttl, INIT, es), e.session)
  {
    RunKeepsExclusive(ttl, INIT, es);
    AfterAppend(ttl, INIT, es, e);
    EntryOverlapsIff(ttl, After(ttl, INIT, es), e);
  }

  // ---------------------------------------------------------------- runs that break exclusion

  lemma {:induction false} AfterAppend(ttl: Time, s: State, es: seq<Event>, e: Event)
    requires Possible(ttl, s, es) && Enabled(After(ttl, s, es), e)
    ensures Possible(ttl, s, es + [e]) && After(ttl, s, es + [e]) == Apply(ttl, After(ttl, s, es), e)
    decreases |es|
  {
    if es == [] {
      assert [] + [e] == [e] && [e][1..] == [];
    } else {
      AfterAppend(ttl, Apply(ttl, s, es[0]), es[1..], e);
      assert (es + [e])[1..] == es[1..] + [e];
    }
  }

  /** One outage is enough for two runs of a session to overlap, well inside the lifetime. */
  lemma FailOpenBreaksExclusion()
    ensures var es := [Acquire(1, 0, "s", 7)] + [FailOpen(2, 1, "s", 8, false)];
            Possible(300, INIT, es) && AlwaysTimely(300, INIT, es) && !OnePerSession(After(300, INIT, es))
  {
    var e1, e2 := Acquire(1, 0, "s", 7), FailOpen(2, 1, "s", 8, false);
    var s1 := Apply(300, INIT, e1);
    assert [e1][1..] == [] && ([e1] + [e2])[1..] == [e2] && [e2][1..] == [];
    assert After(300, INIT, [e1]) == s1;
    AfterAppend(300, INIT, [e1], e2);
    assert AlwaysTimely(300, s1, [e2]);
    var s2 := Apply(300, s1, e2);
    assert 1 in s2.runs && 2 in s2.runs;
  }

  ghost function Overrun(): seq<Event> {
    [Acquire(1, 0, "s", 7)] + [Record(1)] + [Tick(300)] + [Acquire(2, 0, "s", 8)] + [Record(2)]
  }

  lemma OverrunReaches()
    ensures Possible(300, INIT, Overrun()) && NeverFailsOpen(Overrun())
    ensures After(300, INIT, Overrun()) ==
            State(300, map["s" := Lock(8, 600)], map[(0, "s") := 8],
                  map[1 := Holding(0, "s", 7, 0), 2 := Holding(0, "s", 8, 300)], {},
                  map[7 := Issue(0, "s", 0), 8 := Issue(0, "s", 300)])
  {
    var es1 := [Acquire(1, 0, "s", 7)];
    assert es1[1..] == [];
    var s1 := State(0, map["s" := Lock(7, 300)], map[], map[1 := Acquired(0, "s", 7, 0)], {},
                    map[7 := Issue(0, "s", 0)]);
    assert After(300, INIT, es1) == s1;
    AfterAppend(300, INIT, es1, Record(1));
    var s2 := s1.(tokens := map[(0, "s") := 7], runs := map[1 := Holding(0, "s", 7, 0)]);
    assert Apply(300, s1, Record(1)) == s2;
    AfterAppend(300, INIT, es1 + [Record(1)], Tick(300));
    var s3 := s2.(now := 300);
    AfterAppend(300, INIT, es1 + [Record(1)] + [Tick(300)], Acquire(2, 0, "s", 8));
    var s4 := Apply(300, s3, Acquire(2, 0, "s", 8));
    assert s4.runs[2] == Acquired(0, "s", 8, 300);
    AfterAppend(300, INIT, es1 + [Record(1)] + [Tick(300)] + [Acquire(2, 0, "s", 8)], Record(2));
    assert Apply(300, s4, Record(2)).runs == map[1 := Holding(0, "s", 7, 0), 2 := Holding(0, "s", 8, 300)];
  }

  /** A run that outlives its lock overlaps the next one. */
  lemma OverrunBreaksExclusion()
    ensures Possible(300, INIT, Overrun()) && NeverFailsOpen(Overrun())
    ensures !OnePerSession(After(300, INIT, Overrun()))
  {
    OverrunReaches();
    var s := After(300, INIT, Overrun());
    assert 1 in s.runs && 2 in s.runs;
  }

  /** On one replica its release then deletes the next run's live lock, because tokens are
      remembered per session and not per run. */
  lemma OverrunDeletesNextLock()
    ensures var es := Overrun() + [BeginRelease(1)];
            && Possible(300, INIT, es) && NeverFailsOpen(es)
            && var s := After(300, INIT, es);
               && Enabled(s, Deliver(Delete(0, "s", 8)))
               && 2 in s.runs && s.runs[2].Holding? && SetRecently(300, s, "s")
               && s.locks["s"].token == s.runs[2].token
               && "s" !in Apply(300, s, Deliver(Delete(0, "s", 8))).locks
  {
    OverrunReaches();
    AfterAppend(300, INIT, Overrun(), BeginRelease(1));
    OverrunReleases(After(300, INIT, Overrun()));
  }

  lemma OverrunReleases(s: State)
    requires s == State(300, map["s" := Lock(8, 600)], map[(0, "s") := 8],
                        map[1 := Holding(0, "s", 7, 0), 2 := Holding(0, "s", 8, 300)], {},
                        map[7 := Issue(0, "s", 0), 8 := Issue(0, "s", 300)])
    ensures Apply(300, s, BeginRelease(1)) ==
            s.(tokens := map[], runs := map[2 := Holding(0, "s", 8, 300)], deletes := {Delete(0, "s", 8)})
  {
  }

  // ---------------------------------------------------------------- the classes

  class RedisLocks {
    var locks: Locks

    constructor ()
      ensures locks == map[]
    {
      locks := map[];
    }

    method Set(now: Time, s: Session, token: Token, ttl: Time) returns (ok: bool)
      modifies this
      ensures (locks, ok) == SetNxEx(old(locks), now, s, token, ttl)
    {
      ok := !Live(locks, now, s);
      if ok { locks := locks[s := Lock(token, now + ttl)]; }
    }

    method Release(now: Time, s: Session, token: Token)
      modifies this
      ensures locks == CompareAndDelete(old(locks), now, s, token)
    {
      if Live(locks, now, s) && locks[s].token == token { locks := locks - {s}; }
    }
  }

  /** How Redis takes a command: it answers, or the connection breaks, before the command took
      effect or after. */
  datatype Network = Answers | Fails(applied: bool)

  /** The registry of one replica. */
  class RedisSessionRegistry {
    const redis: RedisLocks
    const ttl: Time
    ghost const replica: Replica
    var tokens: map<Session, Token>

    constructor (redis: RedisLocks, ttl: Time, ghost replica: Replica)
      ensures this.redis == redis && this.ttl == ttl && this.replica == replica && tokens == map[]
    {
      this.redis, this.ttl, this.replica, tokens := redis, ttl, replica, map[];
    }

    /** The protocol's state, as far as Redis and this replica show it. */
    ghost predicate Shows(s: State)
      reads this, redis
    {
      && redis.locks == s.locks
      && forall k :: if k in tokens then (replica, k) in s.tokens && s.tokens[(replica, k)] == tokens[k]
                     else (replica, k) !in s.tokens
    }

    /** A granted acquire is the protocol's acquire and the recording of the token; a broken
        connection is its failing open. */
    method TryAcquire(now: Time, session: Session, token: Token, network: Network, ghost s: State, ghost run: Run)
      returns (granted: bool)
      requires Shows(s) && s.now == now && run !in s.runs && token !in s.issued
      modifies this, redis
      ensures network.Answers? ==>
                var acquired := Apply(ttl, s, Acquire(run, replica, session, token));
                if granted then run in acquired.runs && Shows(Apply(ttl, acquired, Record(run)))
                else acquired == s && Shows(s)
      ensures network.Fails? ==>
                granted && Shows(Apply(ttl, s, FailOpen(run, replica, session, token, network.applied)))
    {
      if network.Fails? {
        if network.applied { var _ := redis.Set(now, session, token, ttl); }
        return true;
      }
      var acquired := redis.Set(now, session, token, ttl);
      if !acquired { return false; }
      tokens := tokens[session := token];
      return true;
    }

    /** The pop and the delete are the protocol's release and its delivery, or its loss. */
    method Release(now: Time, session: Session, network: Network, ghost s: State, ghost run: Run)
      requires Shows(s) && s.now == now
      requires run in s.runs && !s.runs[run].Acquired?
      requires s.runs[run].replica == replica && s.runs[run].session == session
      modifies this, redis
      ensures var begun := Apply(ttl, s, BeginRelease(run));
              if session !in old(tokens) then Shows(begun)
              else
                var d := Delete(replica, session, old(tokens)[session]);
                && Enabled(begun, Deliver(d))
                && Shows(Apply(ttl, begun, if network == Fails(false) then Lose(d) else Deliver(d)))
    {
      if session !in tokens { return; }
      var token := tokens[session];
      tokens := tokens - {session};
      if network != Fails(false) { redis.Release(now, session, token); }
    }
  }
}
