/** Version stickiness: which pack version a run of a session gets, over any interleaving of runs,
    registrations and weight changes.

    A run reads the requested version (header, else the session's history), asks the registry for
    the class, looks the class up again to learn the version to record, and marks its session in
    flight, or is refused. Then it works, is saved or not, and clears the mark. The lookup records
    "unknown" if the class was replaced since it was chosen. The mark may not be seen by every run:
    it lives in one process, or in a Redis that fails open.

    A save stamps its record first and stores it later, and the history goes by the stamps. A save
    that takes too long is given up by the request and may still be stamped and stored after the
    mark is cleared. */
module StickySessions {
  import opened Prelude
  import opened PackRegistry
  import WeightedRouting

  type Session = string
  type Run = nat

  const UNKNOWN: Version := "unknown"

  /** The place of a save in the order of creation times. */
  type Stamp = nat

  datatype Save = Save(session: Session, packId: PackId, version: Version)

  datatype Stage =
    | Asked(requested: Option<Version>)
    | Chosen(cls: PackClass)
    | Named(used: Version)
    | Running(used: Version, marked: bool)
    | Writing(used: Version, marked: bool, stamp: Stamp)  // its record stamped, not yet stored
    | Done(marked: bool)                                  // stored, its mark not yet cleared
    | Late(used: Version, stamped: Option<Stamp>)         // answered, its save still on the way
    | Rejected(error: Error)                              // answered 404
    | Refused                                             // answered 409

  /** `header` is the version the caller named, if any. */
  datatype Pending = Pending(session: Session, packId: PackId, header: Option<Version>, stage: Stage)

  /** The history holds the stored saves by their stamps; `clock` is the next stamp. */
  datatype State = State(table: Table, history: map<Stamp, Save>, clock: Stamp, marks: set<Session>,
                         runs: map<Run, Pending>)

  datatype Event =
    | Registering(cls: PackClass)
    | Weighting(packId: PackId, items: Items)
    | Ask(run: Run, session: Session, packId: PackId, header: Option<Version>)
    | Choose(run: Run, prefix: nat)  // the prefix of the digest of the caller's affinity key, which is never empty
    | Name(run: Run)
    | Enter(run: Run, seen: bool)    // whether the mark is seen and set
    | StampRun(run: Run)
    | SaveRun(run: Run)
    | TimeOut(run: Run)
    | End(run: Run)                  // after the save, without one because it failed, or because the run did
    | Land(run: Run)                 // a late save is stored
    | Drop(run: Run)                 // a late save that fails, or a body that is turned down before entering

  const INIT := State(map[], map[], 0, {}, map[])

  ghost predicate Made(history: map<Stamp, Save>, t: Stamp, k: Session, p: PackId) {
    t in history && history[t].session == k && history[t].packId == p
  }

  /** The latest stamp below `n` of a stored save of this session and pack. */
  function LastStamp(history: map<Stamp, Save>, n: nat, k: Session, p: PackId): (r: Option<Stamp>)
    ensures r.Some? ==> r.value < n && Made(history, r.value, k, p)
    ensures forall t: nat | t < n && Made(history, t, k, p) :: r.Some? && t <= r.value
  {
    if n == 0 then None
    else if n - 1 in history && history[n - 1].session == k && history[n - 1].packId == p then Some(n - 1)
    else LastStamp(history, n - 1, k, p)
  }

  /** The version of the newest stored run of this session and pack. */
  function LastVersion(s: State, k: Session, p: PackId): Option<Version> {
    match LastStamp(s.history, s.clock, k, p)
    case Some(t) => Some(s.history[t].version)
    case None => None
  }

  /** The version recorded for a class: the first entry holding that very class. */
  function NameOf(vs: Versions, cls: PackClass): Version {
    if vs == [] then UNKNOWN
    else if vs[0].cls == cls then vs[0].version
    else NameOf(vs[1..], cls)
  }

  /** The run has passed the mark and not yet left. */
  predicate Marking(stage: Stage) { stage.Running? || stage.Writing? || stage.Done? }

  /** The stamp of a save on its way. */
  function StampOf(stage: Stage): Option<Stamp> {
    match stage
    case Writing(_, _, stamp) => Some(stamp)
    case Late(_, stamped) => stamped
    case _ => None
  }

  ghost predicate Enabled(s: State, e: Event) {
    match e
    case Registering(_) => true
    case Weighting(_, _) => true
    case Ask(run, _, _, _) => run !in s.runs
    case Choose(run, prefix) =>
      && run in s.runs && s.runs[run].stage.Asked?
      && PackRegistry.Possible(s.table, s.runs[run].packId, Sticky(prefix))
    case Name(run) => run in s.runs && s.runs[run].stage.Chosen? && s.runs[run].packId in s.table
    case Enter(run, _) => run in s.runs && s.runs[run].stage.Named?
    case StampRun(run) =>
      run in s.runs && (s.runs[run].stage.Running? || s.runs[run].stage.Late?) && StampOf(s.runs[run].stage).None?
    case SaveRun(run) => run in s.runs && s.runs[run].stage.Writing?
    case TimeOut(run) => run in s.runs && (s.runs[run].stage.Running? || s.runs[run].stage.Writing?)
    case End(run) => run in s.runs && Marking(s.runs[run].stage)
    case Land(run) => run in s.runs && s.runs[run].stage.Late? && StampOf(s.runs[run].stage).Some?
    case Drop(run) => run in s.runs && (s.runs[run].stage.Named? || s.runs[run].stage.Late?)
  }

  function At(s: State, run: Run, stage: Stage): map<Run, Pending>
    requires run in s.runs
  {
    s.runs[run := s.runs[run].(stage := stage)]
  }

  /** The marks once the run has cleared its own, if it set one. */
  function Cleared(s: State, run: Run): set<Session>
    requires run in s.runs && Marking(s.runs[run].stage)
  {
    if s.runs[run].stage.marked then s.marks - {s.runs[run].session} else s.marks
  }

  function Stored(s: State, run: Run): map<Stamp, Save>
    requires run in s.runs && StampOf(s.runs[run].stage).Some?
  {
    var r := s.runs[run];
    s.history[StampOf(r.stage).value := Save(r.session, r.packId, r.stage.used)]
  }

  ghost function Apply(s: State, e: Event): State
    requires Enabled(s, e)
  {
    match e
    case Registering(cls) =>
      (match PackRegistry.Register(s.table, cls) case Ok(t) => s.(table := t) case Err(_) => s)
    case Weighting(p, items) => s.(table := SetWeights(s.table, p, items).0)
    case Ask(run, k, p, header) =>
      var requested := if header.Some? then header else LastVersion(s, k, p);
      s.(runs := s.runs[run := Pending(k, p, header, Asked(requested))])
    case Choose(run, prefix) =>
      s.(runs := At(s, run, match Get(s.table, s.runs[run].packId, s.runs[run].stage.requested, Sticky(prefix))
                            case Ok(cls) => Chosen(cls)
                            case Err(error) => Rejected(error)))
    case Name(run) => s.(runs := At(s, run, Named(NameOf(s.table[s.runs[run].packId], s.runs[run].stage.cls))))
    case Enter(run, seen) =>
      var r := s.runs[run];
      if seen && r.session in s.marks then s.(runs := At(s, run, Refused))
      else s.(marks := if seen then s.marks + {r.session} else s.marks,
              runs := At(s, run, Running(r.stage.used, seen)))
    case StampRun(run) =>
      var stage := s.runs[run].stage;
      s.(clock := s.clock + 1,
         runs := At(s, run, if stage.Running? then Writing(stage.used, stage.marked, s.clock)
                            else Late(stage.used, Some(s.clock))))
    case SaveRun(run) => s.(history := Stored(s, run), runs := At(s, run, Done(s.runs[run].stage.marked)))
    case TimeOut(run) =>
      var stage := s.runs[run].stage;
      s.(marks := Cleared(s, run), runs := At(s, run, Late(stage.used, StampOf(stage))))
    case End(run) => s.(marks := Cleared(s, run), runs := s.runs - {run})
    case Land(run) => s.(history := Stored(s, run), runs := s.runs - {run})
    case Drop(run) => s.(runs := s.runs - {run})
  }

  ghost predicate Feasible(s: State, es: seq<Event>)
    decreases |es|
  {
    es != [] ==> Enabled(s, es[0]) && Feasible(Apply(s, es[0]), es[1..])
  }

  ghost function After(s: State, es: seq<Event>): State
    requires Feasible(s, es)
    decreases |es|
  {
    if es == [] then s else After(Apply(s, es[0]), es[1..])
  }

  /** Registering, reweighting and asking are always possible, whatever is under way. */
  lemma CallersAreFree(s: State, cls: PackClass, p: PackId, items: Items, run: Run, k: Session, header: Option<Version>)
    ensures Enabled(s, Registering(cls)) && Enabled(s, Weighting(p, items))
    ensures run !in s.runs ==> Enabled(s, Ask(run, k, p, header))
  {
  }

  /** A run that ends, whose late save is stored or lost, or that is turned down, takes no further step. */
  lemma EndedRunsAreGone(s: State, e: Event)
    requires Enabled(s, e) && (e.End? || e.Land? || e.Drop?)
    ensures e.run !in Apply(s, e).runs && forall run | run != e.run :: run in Apply(s, e).runs <==> run in s.runs
  {
  }

  // ---------------------------------------------------------------- every execution

  /** A class known to the registry's pack, by its version. */
  ghost predicate Recordable(t: Table, p: PackId, v: Version) {
    v == UNKNOWN || PackRegistry.Registered(t, p, v)
  }

  ghost predicate ConsistentRun(t: Table, r: Pending) {
    match r.stage
    case Chosen(cls) => PackRegistry.Registered(t, r.packId, cls.version)
    case Named(used) => Recordable(t, r.packId, used)
    case Running(used, _) => Recordable(t, r.packId, used)
    case Writing(used, _, _) => Recordable(t, r.packId, used)
    case Late(used, _) => Recordable(t, r.packId, used)
    case _ => true
  }

  ghost predicate Consistent(s: State) {
    && Sound(s.table) && "" !in s.table
    && (forall t | t in s.history :: Recordable(s.table, s.history[t].packId, s.history[t].version))
    && (forall r | r in s.runs :: ConsistentRun(s.table, s.runs[r]))
  }

  lemma {:induction false} NameIsRecordable(t: Table, p: PackId, cls: PackClass, vs: Versions)
    requires Sound(t) && p in t && |vs| <= |t[p]| && vs == t[p][|t[p]| - |vs|..]
    ensures Recordable(t, p, NameOf(vs, cls))
    ensures NameOf(vs, cls) == UNKNOWN || NameOf(vs, cls) == cls.version
  {
    if vs != [] {
      assert vs[0] == t[p][|t[p]| - |vs|];
      NameIsRecordable(t, p, cls, vs[1..]);
    }
  }

  lemma GetIsRegistered(t: Table, p: PackId, version: Option<Version>, choice: Choice)
    requires Sound(t) && PackRegistry.Possible(t, p, choice) && Get(t, p, version, choice).Ok?
    ensures PackRegistry.Registered(t, p, Get(t, p, version, choice).value.version)
  {
    if version.Some? {
      GetExactVersion(t, p, version.value, choice);
    } else if |t[p]| > 1 && choice.Sticky? {
      WeightedRouting.PickIsOwner(WeightsOf(t[p]), choice.prefix);
    }
  }

  lemma TableStepKeepsConsistent(s: State, e: Event)
    requires Consistent(s) && Enabled(s, e) && (e.Registering? || e.Weighting?)
    ensures Consistent(Apply(s, e)) && TableExtends(s.table, Apply(s, e).table)
  {
    var s' := Apply(s, e);
    if e.Registering? { MutationsKeepSound(s.table, e.cls, "", []); }
    else { MutationsKeepSound(s.table, PackClass(0, "", "", "", ""), e.packId, e.items); }
    forall p, v | PackRegistry.Registered(s.table, p, v) ensures PackRegistry.Registered(s'.table, p, v) {
      RegisteredStays(s.table, s'.table, p, v);
    }
    assert forall r | r in s'.runs :: ConsistentRun(s.table, s'.runs[r]) && ConsistentRun(s'.table, s'.runs[r]);
  }

  lemma ChooseKeepsConsistent(s: State, e: Event)
    requires Consistent(s) && Enabled(s, e) && e.Choose?
    ensures Consistent(Apply(s, e))
  {
    var s', r := Apply(s, e), s.runs[e.run];
    if Get(s.table, r.packId, r.stage.requested, Sticky(e.prefix)).Ok? {
      GetIsRegistered(s.table, r.packId, r.stage.requested, Sticky(e.prefix));
    }
    assert forall q | q in s'.runs && q != e.run :: ConsistentRun(s.table, s.runs[q]);
  }

  lemma NameKeepsConsistent(s: State, e: Event)
    requires Consistent(s) && Enabled(s, e) && e.Name?
    ensures Consistent(Apply(s, e))
  {
    var s', r := Apply(s, e), s.runs[e.run];
    NameIsRecordable(s.table, r.packId, r.stage.cls, s.table[r.packId]);
    assert forall q | q in s'.runs && q != e.run :: ConsistentRun(s.table, s.runs[q]);
  }

  lemma OtherStepKeepsConsistent(s: State, e: Event)
    requires Consistent(s) && Enabled(s, e) && !e.Registering? && !e.Weighting? && !e.Choose? && !e.Name?
    ensures Consistent(Apply(s, e))
  {
    var s' := Apply(s, e);
    assert e.run in s.runs ==> ConsistentRun(s.table, s.runs[e.run]);
    assert forall q | q in s'.runs && q != e.run :: ConsistentRun(s.table, s.runs[q]);
  }

  lemma StepKeepsConsistent(s: State, e: Event)
    requires Consistent(s) && Enabled(s, e)
    ensures Consistent(Apply(s, e))
  {
    match e
    case Registering(_) => TableStepKeepsConsistent(s, e);
    case Weighting(_, _) => TableStepKeepsConsistent(s, e);
    case Choose(_, _) => ChooseKeepsConsistent(s, e);
    case Name(_) => NameKeepsConsistent(s, e);
    case _ => OtherStepKeepsConsistent(s, e);
  }

  lemma {:induction false} RunKeepsConsistent(s: State, es: seq<Event>)
    requires Consistent(s) && Feasible(s, es)
    ensures Consistent(After(s, es))
    decreases |es|
  {
    if es != [] {
      StepKeepsConsistent(s, es[0]);
      RunKeepsConsistent(Apply(s, es[0]), es[1..]);
    }
  }

  /** In every execution a header-less run of a session with history asks for the last version
      saved, now or at any later time, and is served that version if and only if it is
      registered; it can only be turned away if what was saved is "unknown". */
  lemma HeaderlessRunIsServed(es: seq<Event>, later: seq<Event>, k: Session, p: PackId, choice: Choice)
    requires Feasible(INIT, es) && Feasible(After(INIT, es), later)
    requires LastVersion(After(INIT, es), k, p).Some?
    requires PackRegistry.Possible(After(After(INIT, es), later).table, p, choice)
    ensures var v := LastVersion(After(INIT, es), k, p).value;
            var t := After(After(INIT, es), later).table;
            var got := Get(t, p, Some(v), choice);
            && (got.Ok? ==> got.value.version == v)
            && (got.Err? <==> v == UNKNOWN && !PackRegistry.Registered(t, p, UNKNOWN))
  {
    var s := After(INIT, es);
    var v := LastVersion(s, k, p).value;
    RunKeepsConsistent(INIT, es);
    RunKeepsConsistent(s, later);
    assert Recordable(s.table, p, v);
    RegistrationsLast(s, later, p, v);
    GetExactVersion(After(s, later).table, p, v, choice);
  }

  lemma {:induction false} RegistrationsLast(s: State, es: seq<Event>, p: PackId, v: Version)
    requires Consistent(s) && Feasible(s, es)
    ensures PackRegistry.Registered(s.table, p, v) ==> PackRegistry.Registered(After(s, es).table, p, v)
    decreases |es|
  {
    if es != [] {
      StepKeepsConsistent(s, es[0]);
      if PackRegistry.Registered(s.table, p, v) { StepKeepsRegistered(s, es[0], p, v); }
      RegistrationsLast(Apply(s, es[0]), es[1..], p, v);
    }
  }

  // ---------------------------------------------------------------- the marks

  /** The run has set the session's mark and not cleared it yet. */
  ghost predicate HoldsMark(s: State, r: Run, k: Session) {
    && r in s.runs && s.runs[r].session == k
    && Marking(s.runs[r].stage) && s.runs[r].stage.marked
  }

  /** The marks are those of runs in flight that saw the registry, one each. */
  ghost predicate MarksHeld(s: State) {
    && (forall k | k in s.marks :: exists r :: HoldsMark(s, r, k))
    && (forall r, k | HoldsMark(s, r, k) :: k in s.marks)
    && (forall r, r', k | HoldsMark(s, r, k) && HoldsMark(s, r', k) :: r == r')
  }

  /** Every run that enters sees the marks. */
  ghost predicate Seen(es: seq<Event>) { forall i | 0 <= i < |es| :: es[i].Enter? ==> es[i].seen }

  /** No request gives up on its save. */
  ghost predicate InTime(es: seq<Event>) { forall i | 0 <= i < |es| :: !es[i].TimeOut? }

  lemma StepMarks(s: State, e: Event, r: Run, k: Session)
    requires Enabled(s, e) && MarksHeld(s)
    ensures var s' := Apply(s, e);
            var enters := e.Enter? && e.seen && s.runs[e.run].session == k && k !in s.marks;
            var leaves := (e.TimeOut? || e.End?) && HoldsMark(s, e.run, k);
            && (HoldsMark(s', r, k) <==>
                  if enters && r == e.run then true else if leaves && r == e.run then false else HoldsMark(s, r, k))
            && (k in s'.marks <==> (k in s.marks || enters) && !leaves)
  {
    if e.TimeOut? || e.End? {
      assert s.runs[e.run].stage.marked ==> HoldsMark(s, e.run, s.runs[e.run].session);
    }
  }

  lemma StepKeepsMarksHeld(s: State, e: Event)
    requires Enabled(s, e) && MarksHeld(s)
    ensures MarksHeld(Apply(s, e))
  {
    var s' := Apply(s, e);
    forall r, k ensures HoldsMark(s', r, k) ==> k in s'.marks {
      StepMarks(s, e, r, k);
    }
    forall r, r', k | HoldsMark(s', r, k) && HoldsMark(s', r', k) ensures r == r' {
      StepMarks(s, e, r, k);
      StepMarks(s, e, r', k);
    }
    forall k | k in s'.marks ensures exists r :: HoldsMark(s', r, k) {
      if k in s.marks {
        var r :| HoldsMark(s, r, k);
        StepMarks(s, e, r, k);
        assert HoldsMark(s', r, k);
      } else {
        StepMarks(s, e, e.run, k);
        assert HoldsMark(s', e.run, k);
      }
    }
  }

  lemma {:induction false} RunKeepsMarksHeld(s: State, es: seq<Event>)
    requires MarksHeld(s) && Feasible(s, es)
    ensures MarksHeld(After(s, es))
    decreases |es|
  {
    if es != [] {
      StepKeepsMarksHeld(s, es[0]);
      RunKeepsMarksHeld(Apply(s, es[0]), es[1..]);
    }
  }

  // ---------------------------------------------------------------- the stamps

  /** Stored saves and saves on their way have stamps of the past, no two the same. */
  ghost predicate Dated(s: State) {
    && (forall t | t in s.history :: t < s.clock)
    && (forall r | r in s.runs && StampOf(s.runs[r].stage).Some? ::
          StampOf(s.runs[r].stage).value < s.clock && StampOf(s.runs[r].stage).value !in s.history)
    && (forall r, q | r in s.runs && q in s.runs && StampOf(s.runs[r].stage).Some? && r != q ::
          StampOf(s.runs[r].stage) != StampOf(s.runs[q].stage))
  }

  lemma StampsMove(s: State, e: Event, r: Run)
    requires Enabled(s, e) && r in Apply(s, e).runs && StampOf(Apply(s, e).runs[r].stage).Some?
    ensures var stamp := StampOf(Apply(s, e).runs[r].stage);
            if e.StampRun? && r == e.run then stamp == Some(s.clock)
            else r in s.runs && stamp == StampOf(s.runs[r].stage) && !(Saves(e) && r == e.run)
  {
  }

  lemma HistoryGrows(s: State, e: Event)
    requires Enabled(s, e)
    ensures Apply(s, e).clock == if e.StampRun? then s.clock + 1 else s.clock
    ensures Apply(s, e).history == if Saves(e) then Stored(s, e.run) else s.history
  {
  }

  lemma StepKeepsDated(s: State, e: Event)
    requires Dated(s) && Enabled(s, e)
    ensures Dated(Apply(s, e))
  {
    var s' := Apply(s, e);
    HistoryGrows(s, e);
    forall r | r in s'.runs && StampOf(s'.runs[r].stage).Some?
      ensures StampOf(s'.runs[r].stage).value < s'.clock && StampOf(s'.runs[r].stage).value !in s'.history
    {
      StampsMove(s, e, r);
    }
    forall r, q | r in s'.runs && q in s'.runs && StampOf(s'.runs[r].stage).Some? && r != q
      ensures StampOf(s'.runs[r].stage) != StampOf(s'.runs[q].stage)
    {
      StampsMove(s, e, r);
      if StampOf(s'.runs[q].stage).Some? { StampsMove(s, e, q); }
    }
  }

  lemma {:induction false} RunKeepsDated(s: State, es: seq<Event>)
    requires Dated(s) && Feasible(s, es)
    ensures Dated(After(s, es))
    decreases |es|
  {
    if es != [] {
      StepKeepsDated(s, es[0]);
      RunKeepsDated(Apply(s, es[0]), es[1..]);
    }
  }

  ghost predicate Of(s: State, r: Run, k: Session, p: PackId) {
    r in s.runs && s.runs[r].session == k && s.runs[r].packId == p
  }

  /** A save on its way whose stamp is older than that of the last stored one can no longer become the
      last. */
  ghost predicate Outdated(s: State, r: Pending) {
    && StampOf(r.stage).Some?
    && LastStamp(s.history, s.clock, r.session, r.packId).Some?
    && StampOf(r.stage).value < LastStamp(s.history, s.clock, r.session, r.packId).value
  }

  /** A save is stored, of whichever run. */
  ghost predicate Saves(e: Event) { e.SaveRun? || e.Land? }

  /** It becomes the last one of its session and pack. */
  ghost predicate Tops(s: State, e: Event, k: Session, p: PackId)
    requires Enabled(s, e)
  {
    Saves(e) && Of(s, e.run, k, p) && !Outdated(s, s.runs[e.run])
  }

  lemma TopsBecomesLast(s: State, e: Event, k: Session, p: PackId)
    requires Dated(s) && Enabled(s, e) && Tops(s, e, k, p)
    ensures LastStamp(Apply(s, e).history, s.clock, k, p) == StampOf(s.runs[e.run].stage)
    ensures LastVersion(Apply(s, e), k, p) == Some(s.runs[e.run].stage.used)
  {
    var h, h', t := s.history, Apply(s, e).history, StampOf(s.runs[e.run].stage).value;
    assert Made(h', t, k, p);
    assert forall u | u != t :: Made(h', u, k, p) <==> Made(h, u, k, p);
  }

  /** Nothing else changes the last version. */
  lemma LastStays(s: State, e: Event, k: Session, p: PackId)
    requires Dated(s) && Enabled(s, e) && !Tops(s, e, k, p)
    ensures LastStamp(Apply(s, e).history, Apply(s, e).clock, k, p) == LastStamp(s.history, s.clock, k, p)
    ensures LastVersion(Apply(s, e), k, p) == LastVersion(s, k, p)
  {
    HistoryGrows(s, e);
    if Saves(e) { StoredBelow(s, e.run, k, p); }
  }

  lemma StoredBelow(s: State, run: Run, k: Session, p: PackId)
    requires Dated(s) && run in s.runs && StampOf(s.runs[run].stage).Some?
    requires Of(s, run, k, p) ==> Outdated(s, s.runs[run])
    ensures var h := Stored(s, run);
            && LastStamp(h, s.clock, k, p) == LastStamp(s.history, s.clock, k, p)
            && forall t | Made(s.history, t, k, p) :: h[t] == s.history[t]
  {
    var h, t := Stored(s, run), StampOf(s.runs[run].stage).value;
    assert forall u | u != t :: Made(h, u, k, p) <==> Made(s.history, u, k, p);
    assert Of(s, run, k, p) <==> Made(h, t, k, p);
  }

  /** Once outdated, always outdated. */
  lemma OutdatedStays(s: State, e: Event, r: Run)
    requires Dated(s) && Enabled(s, e) && r in s.runs && r in Apply(s, e).runs && Outdated(s, s.runs[r])
    ensures Apply(s, e).runs[r].stage.Done? || Outdated(Apply(s, e), Apply(s, e).runs[r])
  {
    var k, p := s.runs[r].session, s.runs[r].packId;
    if Tops(s, e, k, p) {
      TopsBecomesLast(s, e, k, p);
    } else {
      LastStays(s, e, k, p);
    }
  }

  // ---------------------------------------------------------------- stickiness

  /** The run records `v` if nothing goes wrong. */
  ghost predicate Agrees(s: State, r: Pending, v: Version) {
    match r.stage
    case Asked(requested) => requested == Some(v)
    case Chosen(cls) => cls.version == v && Holds(s.table, r.packId, cls)
    case Named(used) => used == v
    case Running(used, _) => used == v
    case Writing(used, _, _) => used == v
    case Late(used, _) => used == v
    case _ => true
  }

  /** A run of this session and pack whose caller named no version. */
  ghost predicate Follows(s: State, r: Run, k: Session, p: PackId) {
    Of(s, r, k, p) && s.runs[r].header == None
  }

  /** The last stored run says `v`, and no pending header-less run disagrees, unless outdated. */
  ghost predicate Settled(s: State, k: Session, p: PackId, v: Version) {
    && LastVersion(s, k, p) == Some(v)
    && forall r | Follows(s, r, k, p) :: Agrees(s, s.runs[r], v) || Outdated(s, s.runs[r])
  }

  /** The session is pinned to `v`. */
  ghost predicate Pinned(s: State, k: Session, p: PackId, v: Version) {
    PackRegistry.Registered(s.table, p, v) && Settled(s, k, p, v)
  }

  /** A registration that replaces the class of the run between its two registry calls. */
  ghost predicate Displaces(s: State, e: Event, r: Pending) {
    && e.Registering? && e.cls.packId == r.packId && PackRegistry.Register(s.table, e.cls).Ok?
    && r.stage.Chosen? && r.stage.cls != e.cls && r.stage.cls.version == e.cls.version
  }

  ghost predicate Replaces(s: State, e: Event, k: Session, p: PackId) {
    exists r :: Follows(s, r, k, p) && Displaces(s, e, s.runs[r])
  }

  /** A run that named its version in a header becomes the last one, with another version than `v`. */
  ghost predicate Overrides(s: State, e: Event, k: Session, p: PackId, v: Version)
    requires Enabled(s, e)
  {
    Tops(s, e, k, p) && s.runs[e.run].header.Some? && s.runs[e.run].stage.used != v
  }

  /** Neither happens. A run that asks for another version, but is refused, fails or is not saved,
      disturbs nothing. */
  ghost predicate Undisturbed(s: State, es: seq<Event>, k: Session, p: PackId, v: Version)
    requires Feasible(s, es)
    decreases |es|
  {
    es != [] ==>
      && !Replaces(s, es[0], k, p) && !Overrides(s, es[0], k, p, v)
      && Undisturbed(Apply(s, es[0]), es[1..], k, p, v)
  }

  lemma {:induction false} NameFound(p: PackId, vs: Versions, cls: PackClass, all: Versions)
    requires SoundVersions(p, all) && |vs| <= |all| && vs == all[|all| - |vs|..]
    requires exists i | 0 <= i < |vs| :: vs[i].cls == cls
    ensures NameOf(vs, cls) == cls.version
  {
    assert vs[0] == all[|all| - |vs|];
    if vs[0].cls != cls {
      var i :| 0 <= i < |vs| && vs[i].cls == cls;
      assert vs[1..][i - 1].cls == cls;
      NameFound(p, vs[1..], cls, all);
    }
  }

  ghost predicate Holds(t: Table, p: PackId, cls: PackClass) {
    p in t && exists i | 0 <= i < |t[p]| :: t[p][i].cls == cls
  }

  lemma WeightingKeepsClass(t: Table, p: PackId, cls: PackClass, q: PackId, items: Items)
    requires Sound(t) && Holds(t, p, cls)
    ensures Holds(SetWeights(t, q, items).0, p, cls)
  {
    var i :| 0 <= i < |t[p]| && t[p][i].cls == cls;
    if p == q { ApplySound(p, t[p], items); }
    assert SetWeights(t, q, items).0[p][i].cls == cls;
  }

  lemma RegisteringKeepsClass(t: Table, p: PackId, cls: PackClass, other: PackClass)
    requires Sound(t) && Holds(t, p, cls) && PackRegistry.Register(t, other).Ok?
    requires other.packId == p && other.version == cls.version ==> other == cls
    ensures Holds(PackRegistry.Register(t, other).value, p, cls)
  {
    var i :| 0 <= i < |t[p]| && t[p][i].cls == cls;
    assert SoundVersions(p, t[p]);
    assert PackRegistry.Register(t, other).value[p][i].cls == cls;
  }

  /** A table step that does not replace the class of a run keeps it in the table. */
  lemma ClassKept(s: State, e: Event, r: Pending)
    requires Sound(s.table) && Enabled(s, e) && (e.Registering? || e.Weighting?)
    requires r.stage.Chosen? && Holds(s.table, r.packId, r.stage.cls)
    requires !Displaces(s, e, r)
    ensures Holds(Apply(s, e).table, r.packId, r.stage.cls)
  {
    if e.Weighting? {
      WeightingKeepsClass(s.table, r.packId, r.stage.cls, e.packId, e.items);
    } else if PackRegistry.Register(s.table, e.cls).Ok? {
      RegisteringKeepsClass(s.table, r.packId, r.stage.cls, e.cls);
    }
  }

  /** A run that asks for a version is given a class of it that the table holds, if any. */
  lemma ChoiceIsHeld(t: Table, p: PackId, v: Version, choice: Choice)
    requires Sound(t) && PackRegistry.Possible(t, p, choice) && Get(t, p, Some(v), choice).Ok?
    ensures var cls := Get(t, p, Some(v), choice).value; cls.version == v && Holds(t, p, cls)
  {
    GetExactVersion(t, p, v, choice);
    var i := PackRegistry.Index(t[p], v).value;
    assert t[p][i].cls == Get(t, p, Some(v), choice).value;
  }

  /** A run whose class is still in the table records the version of that class. */
  lemma NamesItsVersion(s: State, e: Event)
    requires Consistent(s) && Enabled(s, e) && e.Name? && Holds(s.table, s.runs[e.run].packId, s.runs[e.run].stage.cls)
    ensures Apply(s, e).runs[e.run].stage == Named(s.runs[e.run].stage.cls.version)
  {
    var vs := s.table[s.runs[e.run].packId];
    NameFound(s.runs[e.run].packId, vs, s.runs[e.run].stage.cls, vs);
  }

  /** A run that would record `v` still does after any step that does not replace its class. */
  lemma RunStaysAgreed(s: State, e: Event, r: Run, v: Version)
    requires Consistent(s) && Enabled(s, e) && r in s.runs && r in Apply(s, e).runs
    requires Agrees(s, s.runs[r], v) && !Displaces(s, e, s.runs[r])
    ensures Agrees(Apply(s, e), Apply(s, e).runs[r], v)
  {
    if e.Registering? || e.Weighting? {
      if s.runs[r].stage.Chosen? { ClassKept(s, e, s.runs[r]); }
    } else if r == e.run {
      OwnStepStaysAgreed(s, e, v);
    }
  }

  lemma OwnStepStaysAgreed(s: State, e: Event, v: Version)
    requires Consistent(s) && Enabled(s, e) && !e.Registering? && !e.Weighting?
    requires e.run in s.runs && e.run in Apply(s, e).runs && Agrees(s, s.runs[e.run], v)
    ensures Agrees(Apply(s, e), Apply(s, e).runs[e.run], v)
  {
    if e.Choose? {
      var p := s.runs[e.run].packId;
      if Get(s.table, p, Some(v), Sticky(e.prefix)).Ok? { ChoiceIsHeld(s.table, p, v, Sticky(e.prefix)); }
    } else if e.Name? {
      NamesItsVersion(s, e);
    }
  }

  /** An undisturbed step leaves the last version as it is. */
  lemma SettledLastStays(s: State, e: Event, k: Session, p: PackId, v: Version)
    requires Dated(s) && Enabled(s, e) && Settled(s, k, p, v) && !Overrides(s, e, k, p, v)
    ensures LastVersion(Apply(s, e), k, p) == Some(v)
  {
    if Tops(s, e, k, p) {
      TopsBecomesLast(s, e, k, p);
      assert Follows(s, e.run, k, p) ==> Agrees(s, s.runs[e.run], v);
    } else {
      LastStays(s, e, k, p);
    }
  }

  lemma StepKeepsSettled(s: State, e: Event, k: Session, p: PackId, v: Version)
    requires Consistent(s) && Dated(s) && Enabled(s, e) && Settled(s, k, p, v)
    requires !Replaces(s, e, k, p) && !Overrides(s, e, k, p, v)
    ensures Settled(Apply(s, e), k, p, v)
  {
    var s' := Apply(s, e);
    SettledLastStays(s, e, k, p, v);
    forall r | Follows(s', r, k, p) ensures Agrees(s', s'.runs[r], v) || Outdated(s', s'.runs[r]) {
      if r in s.runs {
        assert Follows(s, r, k, p);
        if Agrees(s, s.runs[r], v) { RunStaysAgreed(s, e, r, v); } else { OutdatedStays(s, e, r); }
      }
    }
  }

  lemma StepKeepsRegistered(s: State, e: Event, p: PackId, v: Version)
    requires Consistent(s) && Enabled(s, e) && PackRegistry.Registered(s.table, p, v)
    ensures PackRegistry.Registered(Apply(s, e).table, p, v)
  {
    if e.Registering? || e.Weighting? {
      TableStepKeepsConsistent(s, e);
      RegisteredStays(s.table, Apply(s, e).table, p, v);
    }
  }

  /** Once a session is pinned to a registered version it stays pinned, whatever is registered,
      reweighted, asked for, refused, run, saved late or lost, until a run that named another version
      in its header becomes the last one saved, or a class is replaced under a header-less run that has
      chosen it. */
  lemma {:induction false} StaysPinned(s: State, es: seq<Event>, k: Session, p: PackId, v: Version)
    requires Consistent(s) && Dated(s) && Pinned(s, k, p, v) && Feasible(s, es) && Undisturbed(s, es, k, p, v)
    ensures Pinned(After(s, es), k, p, v)
    decreases |es|
  {
    if es != [] {
      StepKeepsConsistent(s, es[0]);
      StepKeepsDated(s, es[0]);
      StepKeepsRegistered(s, es[0], p, v);
      StepKeepsSettled(s, es[0], k, p, v);
      StaysPinned(Apply(s, es[0]), es[1..], k, p, v);
    }
  }

  /** The same for runs from the empty system: until then every header-less run of a pinned session is
      given a class of version `v`, never rejected, and what becomes the last one records `v`. */
  lemma PinnedSessionAlwaysGets(es: seq<Event>, later: seq<Event>, k: Session, p: PackId, v: Version, e: Event)
    requires Feasible(INIT, es) && Pinned(After(INIT, es), k, p, v)
    requires Feasible(After(INIT, es), later) && Undisturbed(After(INIT, es), later, k, p, v)
    requires var s := After(After(INIT, es), later);
             Enabled(s, e) && (e.Choose? || Tops(s, e, k, p)) && Follows(s, e.run, k, p)
    ensures var s := After(After(INIT, es), later);
            if e.Choose? then Apply(s, e).runs[e.run].stage.Chosen? && Apply(s, e).runs[e.run].stage.cls.version == v
            else s.runs[e.run].stage.used == v
  {
    var s := After(After(INIT, es), later);
    RunKeepsConsistent(INIT, es);
    RunKeepsConsistent(After(INIT, es), later);
    RunKeepsDated(INIT, es);
    StaysPinned(After(INIT, es), later, k, p, v);
    assert Agrees(s, s.runs[e.run], v);
    if e.Choose? {
      GetExactVersion(s.table, p, v, Sticky(e.prefix));
    }
  }

  lemma {:induction false} AfterAppend(s: State, es: seq<Event>, e: Event)
    requires Feasible(s, es) && Enabled(After(s, es), e)
    ensures Feasible(s, es + [e]) && After(s, es + [e]) == Apply(After(s, es), e)
    decreases |es|
  {
    if es == [] {
      assert [] + [e] == [e] && [e][1..] == [];
    } else {
      AfterAppend(Apply(s, es[0]), es[1..], e);
      assert (es + [e])[1..] == es[1..] + [e];
    }
  }
}
