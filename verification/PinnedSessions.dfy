/** Exactly when a session of `StickySessions` keeps its version: any pending run that disagrees with
    it can be carried on to a save that changes it, and without one nothing can. */
module PinnedSessions {
  import opened Prelude
  import opened PackRegistry
  import opened StickySessions
  import WeightedRouting

  /** From here on nothing short of a disturbance can change the session's version. */
  ghost predicate Sticks(s: State, k: Session, p: PackId, v: Version) {
    forall es | Feasible(s, es) && Undisturbed(s, es, k, p, v) :: LastVersion(After(s, es), k, p) == Some(v)
  }

  /** The same, as long as every entering run sees the marks and no save comes late. */
  ghost predicate SticksWhileMarksWork(s: State, k: Session, p: PackId, v: Version) {
    forall es | Feasible(s, es) && Undisturbed(s, es, k, p, v) && Seen(es) && InTime(es) ::
      LastVersion(After(s, es), k, p) == Some(v)
  }

  /** An undisturbed future, with working marks, in which the session's last version is another one. */
  ghost predicate Flips(s: State, es: seq<Event>, k: Session, p: PackId, v: Version) {
    && Feasible(s, es) && Undisturbed(s, es, k, p, v) && Seen(es) && InTime(es)
    && LastVersion(After(s, es), k, p) != Some(v)
  }

  lemma {:induction false} FlipsLater(s: State, e: Event, es: seq<Event>, k: Session, p: PackId, v: Version)
    requires Enabled(s, e) && !Replaces(s, e, k, p) && !Overrides(s, e, k, p, v) && Seen([e]) && InTime([e])
    requires Flips(Apply(s, e), es, k, p, v)
    ensures Flips(s, [e] + es, k, p, v)
  {
    assert ([e] + es)[1..] == es;
    assert forall i | 0 < i < |[e] + es| :: ([e] + es)[i] == es[i - 1];
  }

  /** What every execution keeps. */
  ghost predicate Proper(s: State) { Consistent(s) && MarksHeld(s) && Dated(s) }

  lemma StepKeepsProper(s: State, e: Event)
    requires Proper(s) && Enabled(s, e)
    ensures Proper(Apply(s, e))
  {
    StepKeepsConsistent(s, e);
    StepKeepsMarksHeld(s, e);
    StepKeepsDated(s, e);
  }

  /** The run can still record another version as the session's last. */
  ghost predicate Dissents(s: State, r: Run, k: Session, p: PackId, v: Version) {
    Follows(s, r, k, p) && !Agrees(s, s.runs[r], v) && !Outdated(s, s.runs[r])
  }

  /** A run that would record another version, and is stamped, need only be stored. */
  lemma {:induction false} StampedFlips(s: State, r: Run, k: Session, p: PackId, v: Version) returns (es: seq<Event>)
    requires Proper(s) && Dissents(s, r, k, p, v) && StampOf(s.runs[r].stage).Some?
    ensures Flips(s, es, k, p, v)
  {
    var e := if s.runs[r].stage.Writing? then SaveRun(r) else Land(r);
    TopsBecomesLast(s, e, k, p);
    es := [e];
    assert es[1..] == [];
    assert After(s, es) == Apply(s, e);
  }

  /** One that is not gets the newest stamp. */
  lemma {:induction false} EnteredFlips(s: State, r: Run, k: Session, p: PackId, v: Version) returns (es: seq<Event>)
    requires Proper(s) && Dissents(s, r, k, p, v) && (s.runs[r].stage.Running? || s.runs[r].stage.Late?)
    ensures Flips(s, es, k, p, v)
  {
    if StampOf(s.runs[r].stage).Some? {
      es := StampedFlips(s, r, k, p, v);
    } else {
      var e := StampRun(r);
      StepKeepsProper(s, e);
      LastStays(s, e, k, p);
      var rest := StampedFlips(Apply(s, e), r, k, p, v);
      FlipsLater(s, e, rest, k, p, v);
      es := [e] + rest;
    }
  }

  lemma {:induction false} FreeFlips(s: State, r: Run, k: Session, p: PackId, v: Version) returns (es: seq<Event>)
    requires Proper(s) && Dissents(s, r, k, p, v) && s.runs[r].stage.Named? && k !in s.marks
    ensures Flips(s, es, k, p, v)
  {
    var e := Enter(r, true);
    StepKeepsProper(s, e);
    var rest := EnteredFlips(Apply(s, e), r, k, p, v);
    FlipsLater(s, e, rest, k, p, v);
    es := [e] + rest;
  }

  /** One that has yet to enter waits for the run that holds the mark to end. */
  lemma {:induction false} NamedFlips(s: State, r: Run, k: Session, p: PackId, v: Version) returns (es: seq<Event>)
    requires Proper(s) && Dissents(s, r, k, p, v) && s.runs[r].stage.Named?
    ensures Flips(s, es, k, p, v)
  {
    if k in s.marks {
      var h :| HoldsMark(s, h, k);
      StepKeepsProper(s, End(h));
      var rest := FreeFlips(Apply(s, End(h)), r, k, p, v);
      FlipsLater(s, End(h), rest, k, p, v);
      es := [End(h)] + rest;
    } else {
      es := FreeFlips(s, r, k, p, v);
    }
  }

  lemma {:induction false} NameWithoutEntry(vs: Versions, cls: PackClass)
    requires forall i | 0 <= i < |vs| :: vs[i].cls != cls
    ensures NameOf(vs, cls) == UNKNOWN
  {
    if vs != [] { NameWithoutEntry(vs[1..], cls); }
  }

  /** A class of another version, or one the table no longer holds, is not recorded as `v`. */
  lemma OtherNameRecorded(t: Table, p: PackId, cls: PackClass, v: Version)
    requires Sound(t) && p in t && v != UNKNOWN && !(cls.version == v && Holds(t, p, cls))
    ensures NameOf(t[p], cls) != v
  {
    NameIsRecordable(t, p, cls, t[p]);
    if !Holds(t, p, cls) { NameWithoutEntry(t[p], cls); }
  }

  lemma {:induction false} ChosenFlips(s: State, r: Run, k: Session, p: PackId, v: Version) returns (es: seq<Event>)
    requires Proper(s) && v != UNKNOWN && PackRegistry.Registered(s.table, p, v)
    requires Follows(s, r, k, p) && s.runs[r].stage.Chosen? && !Agrees(s, s.runs[r], v)
    ensures Flips(s, es, k, p, v)
  {
    var e := Name(r);
    OtherNameRecorded(s.table, p, s.runs[r].stage.cls, v);
    StepKeepsProper(s, e);
    var rest := NamedFlips(Apply(s, e), r, k, p, v);
    FlipsLater(s, e, rest, k, p, v);
    es := [e] + rest;
  }

  lemma {:induction false} RequestedFlips(s: State, r: Run, u: Version, k: Session, p: PackId, v: Version)
    returns (es: seq<Event>)
    requires Proper(s) && v != UNKNOWN && PackRegistry.Registered(s.table, p, v)
    requires Follows(s, r, k, p) && s.runs[r].stage == Asked(Some(u)) && u != v
    requires PackRegistry.Registered(s.table, p, u)
    ensures Flips(s, es, k, p, v)
  {
    SoundHasWeights(s.table, p);
    var e := Choose(r, 0);
    GetExactVersion(s.table, p, u, Sticky(0));
    StepKeepsProper(s, e);
    var rest := ChosenFlips(Apply(s, e), r, k, p, v);
    FlipsLater(s, e, rest, k, p, v);
    es := [e] + rest;
  }

  lemma {:induction false} LongerThanAll(vs: Versions) returns (n: nat)
    ensures forall i | 0 <= i < |vs| :: |vs[i].version| < n
  {
    if vs == [] {
      n := 0;
    } else {
      var m := LongerThanAll(vs[1..]);
      n := if m > |vs[0].version| then m else |vs[0].version| + 1;
      forall i | 0 <= i < |vs| ensures |vs[i].version| < n {
        assert i == 0 || vs[i] == vs[1..][i - 1];
      }
    }
  }

  /** A pack can always be given one more version, last in its list, and no run notices. */
  lemma {:induction false} NewVersion(s: State, u: Version, k: Session, p: PackId, v: Version) returns (e: Event)
    requires Proper(s)
    requires PackRegistry.Registered(s.table, p, v) && !PackRegistry.Registered(s.table, p, u)
    ensures e.Registering? && Enabled(s, e) && !Replaces(s, e, k, p)
    ensures Proper(Apply(s, e)) && PackRegistry.Registered(Apply(s, e).table, p, v)
    ensures var s' := Apply(s, e);
            && s'.runs == s.runs && s'.history == s.history && s'.marks == s.marks && s'.clock == s.clock
            && s'.table == s.table[p := s.table[p] + [PackVersion(u, e.cls, 1.0)]] && e.cls.version == u
  {
    e := Registering(PackClass(0, p, "n", "d", u));
    var vs := s.table[p];
    forall r | Follows(s, r, k, p) && s.runs[r].stage.Chosen? ensures s.runs[r].stage.cls.version != u {
      assert ConsistentRun(s.table, s.runs[r]);
    }
    StepKeepsProper(s, e);
    StepKeepsRegistered(s, e, p, v);
  }

  lemma {:induction false} AskedFlips(s: State, r: Run, k: Session, p: PackId, v: Version) returns (es: seq<Event>)
    requires Proper(s) && v != UNKNOWN && PackRegistry.Registered(s.table, p, v)
    requires Follows(s, r, k, p) && s.runs[r].stage.Asked? && s.runs[r].stage.requested != Some(v)
    ensures Flips(s, es, k, p, v)
  {
    var requested := s.runs[r].stage.requested;
    if requested.None? {
      es := HeaderlessFlips(s, r, k, p, v);
    } else if PackRegistry.Registered(s.table, p, requested.value) {
      es := RequestedFlips(s, r, requested.value, k, p, v);
    } else {
      var e := NewVersion(s, requested.value, k, p, v);
      var s' := Apply(s, e);
      assert s'.table[p][|s'.table[p]| - 1].version == requested.value;
      var rest := RequestedFlips(s', r, requested.value, k, p, v);
      FlipsLater(s, e, rest, k, p, v);
      es := [e] + rest;
    }
  }

  /** A run that asked before there was any history takes whatever version its caller's key picks. */
  lemma {:induction false} HeaderlessFlips(s: State, r: Run, k: Session, p: PackId, v: Version) returns (es: seq<Event>)
    requires Proper(s) && v != UNKNOWN && PackRegistry.Registered(s.table, p, v)
    requires Follows(s, r, k, p) && s.runs[r].stage == Asked(None)
    ensures Flips(s, es, k, p, v)
  {
    var n := LongerThanAll(s.table[p]);
    var u: Version := seq(n, _ => 'x');
    assert forall i | 0 <= i < |s.table[p]| :: s.table[p][i].version != u;
    var e := NewVersion(s, u, k, p, v);
    var rest := LastPickedFlips(Apply(s, e), r, k, p, v);
    FlipsLater(s, e, rest, k, p, v);
    es := [e] + rest;
  }

  lemma {:induction false} LastPickedFlips(s: State, r: Run, k: Session, p: PackId, v: Version) returns (es: seq<Event>)
    requires Proper(s) && v != UNKNOWN && PackRegistry.Registered(s.table, p, v)
    requires Follows(s, r, k, p) && s.runs[r].stage == Asked(None)
    requires |s.table[p]| > 1 && s.table[p][|s.table[p]| - 1].weight > 0.0
    requires s.table[p][|s.table[p]| - 1].cls.version != v
    ensures Flips(s, es, k, p, v)
  {
    var e := Choose(r, WeightedRouting.MAX_PREFIX);
    LastVersionPicked(s.table, p);
    StepKeepsProper(s, e);
    assert Apply(s, e).runs[r].stage == Chosen(s.table[p][|s.table[p]| - 1].cls);
    var rest := ChosenFlips(Apply(s, e), r, k, p, v);
    FlipsLater(s, e, rest, k, p, v);
    es := [e] + rest;
  }

  lemma {:induction false} LastVersionPicked(t: Table, p: PackId)
    requires Sound(t) && p in t && |t[p]| > 1 && t[p][|t[p]| - 1].weight > 0.0
    ensures var key := Sticky(WeightedRouting.MAX_PREFIX);
            PackRegistry.Possible(t, p, key) && Get(t, p, None, key) == Ok(t[p][|t[p]| - 1].cls)
  {
    var ws := WeightsOf(t[p]);
    SoundHasWeights(t, p);
    WeightedRouting.PickAtEnds(ws);
    WeightedRouting.CumulativeGrows(ws, 0, |ws| - 1);
    assert WeightedRouting.Total(ws) > 0.0;
  }

  /** Any pending header-less run of the session that does not agree with its version, and is not
      outdated, can still flip it with the marks working, however far it has got: with a save on its
      way, late or not, with a version entered, named or chosen, with a class that is gone, with another
      version asked for, or with none because there was no history yet. */
  lemma {:induction false} DissenterFlips(s: State, r: Run, k: Session, p: PackId, v: Version) returns (es: seq<Event>)
    requires Proper(s) && v != UNKNOWN && PackRegistry.Registered(s.table, p, v)
    requires Dissents(s, r, k, p, v)
    ensures Flips(s, es, k, p, v)
  {
    match s.runs[r].stage
    case Asked(_) => es := AskedFlips(s, r, k, p, v);
    case Chosen(_) => es := ChosenFlips(s, r, k, p, v);
    case Named(_) => es := NamedFlips(s, r, k, p, v);
    case Running(_, _) => es := EnteredFlips(s, r, k, p, v);
    case Writing(_, _, _) => es := StampedFlips(s, r, k, p, v);
    case Late(_, _) => es := EnteredFlips(s, r, k, p, v);
  }

  /** After any execution, a session whose last saved version is the registered `v` keeps it, until a
      disturbance, if and only if no pending header-less run of it disagrees, other than one whose save
      is outdated. That the marks work from here on, and saves come in time, makes no difference. */
  lemma {:induction false} SticksIffPinned(es: seq<Event>, k: Session, p: PackId, v: Version)
    requires Feasible(INIT, es) && v != UNKNOWN
    requires var s := After(INIT, es); PackRegistry.Registered(s.table, p, v) && LastVersion(s, k, p) == Some(v)
    ensures var s := After(INIT, es);
            && (Sticks(s, k, p, v) <==> Pinned(s, k, p, v))
            && (SticksWhileMarksWork(s, k, p, v) <==> Pinned(s, k, p, v))
  {
    var s := After(INIT, es);
    RunKeepsConsistent(INIT, es);
    RunKeepsMarksHeld(INIT, es);
    RunKeepsDated(INIT, es);
    if Pinned(s, k, p, v) {
      forall later | Feasible(s, later) && Undisturbed(s, later, k, p, v)
        ensures LastVersion(After(s, later), k, p) == Some(v)
      {
        StaysPinned(s, later, k, p, v);
      }
    } else {
      var r :| Follows(s, r, k, p) && !Agrees(s, s.runs[r], v) && !Outdated(s, s.runs[r]);
      var later := DissenterFlips(s, r, k, p, v);
      assert !SticksWhileMarksWork(s, k, p, v) && !Sticks(s, k, p, v);
    }
  }
}
