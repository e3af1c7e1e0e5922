/** When a session with a saved version is pinned to it, in the machine of `StickySessions`: as long
    as no save overtakes a header-less run of its session that is still under way, and no class is
    replaced under one. Callers that wait for their answers and saves overtake none. On one worker with
    working marks a save may overtake a run that is about to enter, but that run will be refused. */
module OrderlySessions {
  import opened Prelude
  import opened PackRegistry
  import opened StickySessions
  import PinnedSessions
  import WeightedRouting

  /** It may still record a version. */
  ghost predicate Open(stage: Stage) {
    stage.Asked? || stage.Chosen? || stage.Named? || stage.Running? || stage.Writing? || stage.Late?
  }

  /** A save becomes the last one, of whichever run, while another, header-less one is under way. */
  ghost predicate Overtakes(s: State, e: Event, k: Session, p: PackId)
    requires Enabled(s, e)
  {
    && Tops(s, e, k, p)
    && exists r :: Follows(s, r, k, p) && r != e.run && Open(s.runs[r].stage)
  }

  ghost predicate Careful(s: State, es: seq<Event>, k: Session, p: PackId)
    requires Feasible(s, es)
    decreases |es|
  {
    es != [] ==> !Overtakes(s, es[0], k, p) && Careful(Apply(s, es[0]), es[1..], k, p)
  }

  ghost predicate Unreplaced(s: State, es: seq<Event>, k: Session, p: PackId)
    requires Feasible(s, es)
    decreases |es|
  {
    es != [] ==> !Replaces(s, es[0], k, p) && Unreplaced(Apply(s, es[0]), es[1..], k, p)
  }

  /** Once there is a last version, the pending header-less runs agree with it. */
  ghost predicate Agreed(s: State, k: Session, p: PackId) {
    LastVersion(s, k, p).Some? ==> Settled(s, k, p, LastVersion(s, k, p).value)
  }

  lemma SaveAgrees(s: State, e: Event, k: Session, p: PackId)
    requires Dated(s) && Enabled(s, e) && Tops(s, e, k, p) && !Overtakes(s, e, k, p)
    ensures Agreed(Apply(s, e), k, p)
  {
    var s' := Apply(s, e);
    TopsBecomesLast(s, e, k, p);
    forall r | Follows(s', r, k, p) ensures !Open(s'.runs[r].stage) {
      assert r != e.run ==> Follows(s, r, k, p);
    }
  }

  lemma StepKeepsAgreed(s: State, e: Event, k: Session, p: PackId)
    requires Consistent(s) && Dated(s) && Enabled(s, e) && Agreed(s, k, p)
    requires !Replaces(s, e, k, p) && !Overtakes(s, e, k, p)
    ensures Agreed(Apply(s, e), k, p)
  {
    if Tops(s, e, k, p) {
      SaveAgrees(s, e, k, p);
    } else {
      LastStays(s, e, k, p);
      if LastVersion(s, k, p).Some? {
        StepKeepsSettled(s, e, k, p, LastVersion(s, k, p).value);
      }
    }
  }

  lemma {:induction false} RunKeepsAgreed(s: State, es: seq<Event>, k: Session, p: PackId)
    requires Consistent(s) && Dated(s) && Feasible(s, es) && Agreed(s, k, p)
    requires Careful(s, es, k, p) && Unreplaced(s, es, k, p)
    ensures Agreed(After(s, es), k, p)
    decreases |es|
  {
    if es != [] {
      StepKeepsConsistent(s, es[0]);
      StepKeepsDated(s, es[0]);
      StepKeepsAgreed(s, es[0], k, p);
      RunKeepsAgreed(Apply(s, es[0]), es[1..], k, p);
    }
  }

  /** If no save has overtaken a header-less run and no class was replaced under one, a session whose
      last saved version is a real one is pinned to it, and so keeps it through any undisturbed future,
      careful or not. */
  lemma {:induction false} CarefulSessionSticks(es: seq<Event>, k: Session, p: PackId, v: Version)
    requires Feasible(INIT, es) && Careful(INIT, es, k, p) && Unreplaced(INIT, es, k, p)
    requires v != UNKNOWN && LastVersion(After(INIT, es), k, p) == Some(v)
    ensures Pinned(After(INIT, es), k, p, v) && PinnedSessions.Sticks(After(INIT, es), k, p, v)
  {
    var s := After(INIT, es);
    RunKeepsConsistent(INIT, es);
    RunKeepsAgreed(INIT, es, k, p);
    assert Recordable(s.table, p, v);
    PinnedSessions.SticksIffPinned(es, k, p, v);
  }

  // ---------------------------------------------------------------- callers that wait

  /** A run that starts while another one of its session and pack is under way, one of them header-less. */
  ghost predicate Crosses(s: State, e: Event, k: Session, p: PackId) {
    && e.Ask? && e.session == k && e.packId == p
    && exists r :: Of(s, r, k, p) && Open(s.runs[r].stage) && (e.header.None? || s.runs[r].header.None?)
  }

  ghost predicate InTurn(s: State, es: seq<Event>, k: Session, p: PackId)
    requires Feasible(s, es)
    decreases |es|
  {
    es != [] ==> !Crosses(s, es[0], k, p) && InTurn(Apply(s, es[0]), es[1..], k, p)
  }

  /** A header-less run has the session to itself. */
  ghost predicate Alone(s: State, k: Session, p: PackId) {
    forall r, q | Follows(s, r, k, p) && Open(s.runs[r].stage) && Of(s, q, k, p) && Open(s.runs[q].stage) :: r == q
  }

  lemma StepKeepsAlone(s: State, e: Event, k: Session, p: PackId)
    requires Enabled(s, e) && Alone(s, k, p) && !Crosses(s, e, k, p)
    ensures Alone(Apply(s, e), k, p)
  {
    var s' := Apply(s, e);
    forall r, q | Follows(s', r, k, p) && Open(s'.runs[r].stage) && Of(s', q, k, p) && Open(s'.runs[q].stage)
      ensures r == q
    {
      assert r in s.runs ==> Follows(s, r, k, p) && Open(s.runs[r].stage);
      assert q in s.runs ==> Of(s, q, k, p) && Open(s.runs[q].stage);
    }
  }

  lemma {:induction false} InTurnIsCareful(s: State, es: seq<Event>, k: Session, p: PackId)
    requires Feasible(s, es) && Alone(s, k, p) && InTurn(s, es, k, p)
    ensures Careful(s, es, k, p)
    decreases |es|
  {
    if es != [] {
      StepKeepsAlone(s, es[0], k, p);
      InTurnIsCareful(Apply(s, es[0]), es[1..], k, p);
    }
  }

  /** A session whose header-less runs never cross another of its runs, late saves included, and
      whose classes are not replaced under them, is pinned to whatever it was last saved with, on any
      number of workers and even without marks. */
  lemma {:induction false} InTurnSessionSticks(es: seq<Event>, k: Session, p: PackId, v: Version)
    requires Feasible(INIT, es) && InTurn(INIT, es, k, p) && Unreplaced(INIT, es, k, p)
    requires v != UNKNOWN && LastVersion(After(INIT, es), k, p) == Some(v)
    ensures Pinned(After(INIT, es), k, p, v) && PinnedSessions.Sticks(After(INIT, es), k, p, v)
  {
    InTurnIsCareful(INIT, es, k, p);
    CarefulSessionSticks(es, k, p, v);
  }

  // ---------------------------------------------------------------- one worker

  /** The handler is between reading the history and setting the mark, where it never waits. */
  ghost predicate Entering(stage: Stage) { stage.Asked? || stage.Chosen? || stage.Named? }

  ghost predicate Quiet(runs: map<Run, Pending>, run: Run) {
    forall r | r in runs && Entering(runs[r].stage) :: r == run
  }

  /** What goes on besides the event loop: other threads' use of the registry, and the threads that
      stamp and store saves. */
  ghost predicate OnThread(s: State, e: Event)
    requires Enabled(s, e)
  {
    || e.Registering? || e.Weighting? || e.StampRun? || Saves(e)
    || (e.Drop? && s.runs[e.run].stage.Late?)
  }

  /** While a handler enters, no other takes a step. */
  ghost predicate Waits(s: State, e: Event)
    requires Enabled(s, e)
  {
    OnThread(s, e) || Quiet(s.runs, e.run)
  }

  /** No handler is interrupted while it enters. */
  ghost predicate Undivided(s: State, es: seq<Event>)
    requires Feasible(s, es)
    decreases |es|
  {
    es != [] ==> Waits(s, es[0]) && Undivided(Apply(s, es[0]), es[1..])
  }

  /** One run enters at a time, and those that have entered hold their marks. */
  ghost predicate Guarded(s: State) {
    && MarksHeld(s)
    && (forall r | r in s.runs && Entering(s.runs[r].stage) :: Quiet(s.runs, r))
    && (forall r | r in s.runs :: !s.runs[r].stage.Late?
                                  && (Marking(s.runs[r].stage) ==> s.runs[r].stage.marked))
  }

  lemma StepKeepsGuarded(s: State, e: Event)
    requires Enabled(s, e) && Guarded(s) && Waits(s, e) && Seen([e]) && InTime([e])
    ensures Guarded(Apply(s, e))
  {
    assert [e][0] == e;
    StepKeepsMarksHeld(s, e);
    var s' := Apply(s, e);
    forall r, q | r in s'.runs && Entering(s'.runs[r].stage) && q in s'.runs && Entering(s'.runs[q].stage)
      ensures r == q
    {
      assert r in s.runs ==> Entering(s.runs[r].stage);
      assert q in s.runs ==> Entering(s.runs[q].stage);
    }
  }

  /** The run has asked before the last version was saved, but its session is marked: it will be
      refused. */
  ghost predicate Doomed(s: State, r: Pending) { Entering(r.stage) && r.session in s.marks }

  /** Once there is a last version, the pending header-less runs agree with it or are doomed. */
  ghost predicate Tracked(s: State, k: Session, p: PackId) {
    LastVersion(s, k, p).Some? ==>
      forall r | Follows(s, r, k, p) :: Agrees(s, s.runs[r], LastVersion(s, k, p).value) || Doomed(s, s.runs[r])
  }

  /** A save in time has the session's mark, and is the only one of the session under way. */
  lemma SaveTracks(s: State, e: Event, k: Session, p: PackId)
    requires Dated(s) && Enabled(s, e) && Guarded(s) && Tops(s, e, k, p)
    ensures Tracked(Apply(s, e), k, p)
  {
    var s' := Apply(s, e);
    TopsBecomesLast(s, e, k, p);
    assert HoldsMark(s, e.run, k);
    forall r | Follows(s', r, k, p) && Open(s'.runs[r].stage) ensures Doomed(s', s'.runs[r]) {
      assert r in s.runs && s.runs[r] == s'.runs[r];
      if Marking(s.runs[r].stage) { assert HoldsMark(s, r, k); }
    }
  }

  /** The mark stays until the doomed run has been refused: clearing it would be a step of the loop. */
  lemma DoomedStays(s: State, e: Event, r: Run)
    requires Enabled(s, e) && Guarded(s) && Waits(s, e) && Seen([e])
    requires r in s.runs && r in Apply(s, e).runs && Doomed(s, s.runs[r])
    ensures var r' := Apply(s, e).runs[r]; Doomed(Apply(s, e), r') || r'.stage.Rejected? || r'.stage.Refused?
  {
    assert [e][0] == e;
  }

  lemma StepKeepsTracked(s: State, e: Event, k: Session, p: PackId)
    requires Consistent(s) && Dated(s) && Enabled(s, e) && Guarded(s) && Tracked(s, k, p)
    requires Waits(s, e) && Seen([e]) && !Replaces(s, e, k, p)
    ensures Tracked(Apply(s, e), k, p)
  {
    var s' := Apply(s, e);
    if Tops(s, e, k, p) {
      SaveTracks(s, e, k, p);
    } else if LastVersion(s, k, p).Some? {
      var v := LastVersion(s, k, p).value;
      LastStays(s, e, k, p);
      forall r | Follows(s', r, k, p) ensures Agrees(s', s'.runs[r], v) || Doomed(s', s'.runs[r]) {
        if r in s.runs {
          assert Follows(s, r, k, p);
          if Agrees(s, s.runs[r], v) { RunStaysAgreed(s, e, r, v); } else { DoomedStays(s, e, r); }
        }
      }
    } else {
      LastStays(s, e, k, p);
    }
  }

  /** What the executions of one worker with working marks keep. */
  ghost predicate Ordered(s: State, k: Session, p: PackId) {
    Consistent(s) && Dated(s) && Guarded(s) && Tracked(s, k, p)
  }

  ghost predicate OneWorker(s: State, es: seq<Event>, k: Session, p: PackId)
    requires Feasible(s, es)
  {
    Undivided(s, es) && Seen(es) && InTime(es) && Unreplaced(s, es, k, p)
  }

  lemma StepKeepsOrdered(s: State, es: seq<Event>, k: Session, p: PackId)
    requires es != [] && Feasible(s, es) && OneWorker(s, es, k, p) && Ordered(s, k, p)
    ensures Ordered(Apply(s, es[0]), k, p) && OneWorker(Apply(s, es[0]), es[1..], k, p)
  {
    assert Seen([es[0]]) && InTime([es[0]]);
    StepKeepsConsistent(s, es[0]);
    StepKeepsDated(s, es[0]);
    StepKeepsGuarded(s, es[0]);
    StepKeepsTracked(s, es[0], k, p);
  }

  lemma {:induction false} RunKeepsOrdered(s: State, es: seq<Event>, k: Session, p: PackId)
    requires Feasible(s, es) && OneWorker(s, es, k, p) && Ordered(s, k, p)
    ensures Ordered(After(s, es), k, p)
    decreases |es|
  {
    if es != [] {
      StepKeepsOrdered(s, es, k, p);
      RunKeepsOrdered(Apply(s, es[0]), es[1..], k, p);
    }
  }

  /** A header-less run never becomes the last one with another version. */
  lemma OrderedLastStays(s: State, e: Event, k: Session, p: PackId, v: Version)
    requires Enabled(s, e) && Ordered(s, k, p) && LastVersion(s, k, p) == Some(v) && !Overrides(s, e, k, p, v)
    ensures LastVersion(Apply(s, e), k, p) == Some(v)
  {
    if Tops(s, e, k, p) {
      TopsBecomesLast(s, e, k, p);
      assert Follows(s, e.run, k, p) ==> Agrees(s, s.runs[e.run], v);
    } else {
      LastStays(s, e, k, p);
    }
  }

  ghost predicate Overridden(s: State, es: seq<Event>, k: Session, p: PackId, v: Version)
    requires Feasible(s, es)
    decreases |es|
  {
    es != [] && (Overrides(s, es[0], k, p, v) || Overridden(Apply(s, es[0]), es[1..], k, p, v))
  }

  lemma {:induction false} OrderedKeepsVersion(s: State, es: seq<Event>, k: Session, p: PackId, v: Version)
    requires Feasible(s, es) && OneWorker(s, es, k, p) && Ordered(s, k, p)
    requires LastVersion(s, k, p) == Some(v) && !Overridden(s, es, k, p, v)
    ensures LastVersion(After(s, es), k, p) == Some(v)
    decreases |es|
  {
    if es != [] {
      StepKeepsOrdered(s, es, k, p);
      OrderedLastStays(s, es[0], k, p, v);
      OrderedKeepsVersion(Apply(s, es[0]), es[1..], k, p, v);
    }
  }

  /** On one worker, where a handler that has read the history takes no pause before it sets the mark,
      every run sees the marks, no save is given up and no class is replaced under a header-less run
      of the session: from its first save on the session keeps its version for as long as no run that
      named another one in its header becomes the last, however requests overlap and whenever the
      threads store their saves. */
  lemma {:induction false} OneWorkerKeepsVersion(es: seq<Event>, later: seq<Event>, k: Session, p: PackId, v: Version)
    requires Feasible(INIT, es) && OneWorker(INIT, es, k, p)
    requires Feasible(After(INIT, es), later) && OneWorker(After(INIT, es), later, k, p)
    requires LastVersion(After(INIT, es), k, p) == Some(v) && !Overridden(After(INIT, es), later, k, p, v)
    ensures LastVersion(After(After(INIT, es), later), k, p) == Some(v)
  {
    RunKeepsOrdered(INIT, es, k, p);
    OrderedKeepsVersion(After(INIT, es), later, k, p, v);
  }

  /** Whenever such a session is not marked, or no header-less run of it is about to enter, it is pinned
      to its version, and so keeps it through any undisturbed future, on one worker or not. */
  lemma {:induction false} OneWorkerSessionSticks(es: seq<Event>, k: Session, p: PackId, v: Version)
    requires Feasible(INIT, es) && OneWorker(INIT, es, k, p)
    requires v != UNKNOWN && LastVersion(After(INIT, es), k, p) == Some(v)
    requires var s := After(INIT, es); k !in s.marks || forall r | Follows(s, r, k, p) :: !Entering(s.runs[r].stage)
    ensures Pinned(After(INIT, es), k, p, v) && PinnedSessions.Sticks(After(INIT, es), k, p, v)
  {
    var s := After(INIT, es);
    RunKeepsOrdered(INIT, es, k, p);
    assert Recordable(s.table, p, v);
    PinnedSessions.SticksIffPinned(es, k, p, v);
  }

  // ---------------------------------------------------------------- no session is locked out

  /** A registration that replaces the class of any run, with a header or without, between its two
      registry calls. */
  ghost predicate Swaps(s: State, e: Event, k: Session, p: PackId) {
    exists r :: Of(s, r, k, p) && Displaces(s, e, s.runs[r])
  }

  ghost predicate Unswapped(s: State, es: seq<Event>, k: Session, p: PackId)
    requires Feasible(s, es)
    decreases |es|
  {
    es != [] ==> !Swaps(s, es[0], k, p) && Unswapped(Apply(s, es[0]), es[1..], k, p)
  }

  ghost predicate KnownRun(t: Table, r: Pending) {
    match r.stage
    case Chosen(cls) => Holds(t, r.packId, cls)
    case Named(used) => PackRegistry.Registered(t, r.packId, used)
    case Running(used, _) => PackRegistry.Registered(t, r.packId, used)
    case Writing(used, _, _) => PackRegistry.Registered(t, r.packId, used)
    case Late(used, _) => PackRegistry.Registered(t, r.packId, used)
    case _ => true
  }

  /** The versions a session's runs record and have recorded are registered. */
  ghost predicate Known(s: State, k: Session, p: PackId) {
    && (forall r | Of(s, r, k, p) :: KnownRun(s.table, s.runs[r]))
    && (LastVersion(s, k, p).Some? ==> PackRegistry.Registered(s.table, p, LastVersion(s, k, p).value))
  }

  lemma TableStepKeepsKnown(s: State, e: Event, k: Session, p: PackId)
    requires Consistent(s) && Enabled(s, e) && (e.Registering? || e.Weighting?)
    requires Known(s, k, p) && !Swaps(s, e, k, p)
    ensures Known(Apply(s, e), k, p)
  {
    var s' := Apply(s, e);
    forall v | PackRegistry.Registered(s.table, p, v) ensures PackRegistry.Registered(s'.table, p, v) {
      StepKeepsRegistered(s, e, p, v);
    }
    forall r | Of(s', r, k, p) ensures KnownRun(s'.table, s'.runs[r]) {
      assert Of(s, r, k, p) && KnownRun(s.table, s.runs[r]);
      if s.runs[r].stage.Chosen? { ClassKept(s, e, s.runs[r]); }
    }
  }

  lemma GetIsHeld(t: Table, p: PackId, version: Option<Version>, prefix: nat)
    requires Sound(t) && PackRegistry.Possible(t, p, Sticky(prefix)) && Get(t, p, version, Sticky(prefix)).Ok?
    ensures Holds(t, p, Get(t, p, version, Sticky(prefix)).value)
  {
    if version.Some? {
      ChoiceIsHeld(t, p, version.value, Sticky(prefix));
    } else if |t[p]| > 1 {
      WeightedRouting.PickIsOwner(WeightsOf(t[p]), prefix);
    }
  }

  lemma RunStepKeepsKnown(s: State, e: Event, k: Session, p: PackId)
    requires Consistent(s) && Dated(s) && Enabled(s, e) && !e.Registering? && !e.Weighting? && Known(s, k, p)
    ensures Known(Apply(s, e), k, p)
  {
    var s' := Apply(s, e);
    assert s'.table == s.table;
    if Tops(s, e, k, p) {
      TopsBecomesLast(s, e, k, p);
      assert KnownRun(s.table, s.runs[e.run]);
    } else {
      LastStays(s, e, k, p);
    }
    forall r | Of(s', r, k, p) ensures KnownRun(s'.table, s'.runs[r]) {
      assert r in s.runs ==> Of(s, r, k, p) && KnownRun(s.table, s.runs[r]);
      if r == e.run { MovedRunKnown(s, e); }
    }
  }

  lemma MovedRunKnown(s: State, e: Event)
    requires Consistent(s) && Enabled(s, e) && !e.Registering? && !e.Weighting?
    requires e.run in s.runs ==> KnownRun(s.table, s.runs[e.run])
    ensures e.run in Apply(s, e).runs ==> KnownRun(s.table, Apply(s, e).runs[e.run])
  {
    if e.Choose? {
      var r := s.runs[e.run];
      if Get(s.table, r.packId, r.stage.requested, Sticky(e.prefix)).Ok? {
        GetIsHeld(s.table, r.packId, r.stage.requested, e.prefix);
      }
    } else if e.Name? {
      assert ConsistentRun(s.table, s.runs[e.run]);
      NamesItsVersion(s, e);
    }
  }

  lemma {:induction false} RunKeepsKnown(s: State, es: seq<Event>, k: Session, p: PackId)
    requires Consistent(s) && Dated(s) && Feasible(s, es) && Unswapped(s, es, k, p) && Known(s, k, p)
    ensures Known(After(s, es), k, p)
    decreases |es|
  {
    if es != [] {
      StepKeepsConsistent(s, es[0]);
      StepKeepsDated(s, es[0]);
      if es[0].Registering? || es[0].Weighting? {
        TableStepKeepsKnown(s, es[0], k, p);
      } else {
        RunStepKeepsKnown(s, es[0], k, p);
      }
      RunKeepsKnown(Apply(s, es[0]), es[1..], k, p);
    }
  }

  /** Unless a class is replaced under one of its runs, a session is never locked out: the registry
      serves its last saved version, whatever that is, then and at any later time. */
  lemma {:induction false} UnswappedSessionIsServed(es: seq<Event>, later: seq<Event>, k: Session, p: PackId,
                                                    choice: Choice)
    requires Feasible(INIT, es) && Unswapped(INIT, es, k, p) && Feasible(After(INIT, es), later)
    requires LastVersion(After(INIT, es), k, p).Some?
    requires PackRegistry.Possible(After(After(INIT, es), later).table, p, choice)
    ensures var v := LastVersion(After(INIT, es), k, p);
            var got := Get(After(After(INIT, es), later).table, p, v, choice);
            got.Ok? && got.value.version == v.value
  {
    var s := After(INIT, es);
    RunKeepsConsistent(INIT, es);
    RunKeepsKnown(INIT, es, k, p);
    RunKeepsConsistent(s, later);
    RegistrationsLast(s, later, p, LastVersion(s, k, p).value);
    GetExactVersion(After(s, later).table, p, LastVersion(s, k, p).value, choice);
  }
}
