/** Four executions without headers in which a session loses the version it was saved with. Each
    breaks just one of the conditions under which one worker keeps it (`OneWorkerSessionSticks`): a
    class is replaced under a run, two runs cross before they enter, an entering run does not see the
    marks, a save is stored after its request was answered. In each the saves are stored in the order
    of their stamps. */
module UnpinnedRuns {
  import opened Prelude
  import opened PackRegistry
  import opened StickySessions
  import opened OrderlySessions
  import WeightedRouting

  // ---------------------------------------------------------------- an execution and its conditions

  datatype Conditions = Conditions(unreplaced: bool, undivided: bool, seen: bool, inTime: bool)

  const ALL := Conditions(true, true, true, true)

  ghost predicate Meets(es: seq<Event>, c: Conditions)
    requires Feasible(INIT, es)
  {
    && c.unreplaced == Unreplaced(INIT, es, "s", "p")
    && c.undivided == Undivided(INIT, es)
    && c.seen == Seen(es)
    && c.inTime == InTime(es)
  }

  ghost predicate Headerless(es: seq<Event>) { forall i | 0 <= i < |es| :: es[i].Ask? ==> es[i].header.None? }

  /** The execution leads to the state, no run sends a header, and the conditions hold or not as told. */
  ghost predicate Reached(es: seq<Event>, s: State, c: Conditions) {
    Feasible(INIT, es) && After(INIT, es) == s && Headerless(es) && Meets(es, c)
  }

  lemma {:induction false} ConditionsAppend(s: State, es: seq<Event>, e: Event, k: Session, p: PackId)
    requires Feasible(s, es) && Enabled(After(s, es), e) && Feasible(s, es + [e])
    ensures Unreplaced(s, es + [e], k, p) <==> Unreplaced(s, es, k, p) && !Replaces(After(s, es), e, k, p)
    ensures Undivided(s, es + [e]) <==> Undivided(s, es) && Waits(After(s, es), e)
    decreases |es|
  {
    if es == [] {
      assert [] + [e] == [e] && [e][1..] == [];
    } else {
      assert (es + [e])[1..] == es[1..] + [e];
      ConditionsAppend(Apply(s, es[0]), es[1..], e, k, p);
    }
  }

  lemma {:induction false} Step(es: seq<Event>, s: State, c: Conditions, e: Event) returns (longer: seq<Event>)
    requires Reached(es, s, c) && Enabled(s, e) && (e.Ask? ==> e.header.None?)
    ensures longer == es + [e]
    ensures Reached(longer, Apply(s, e),
                    Conditions(c.unreplaced && !Replaces(s, e, "s", "p"), c.undivided && Waits(s, e),
                               c.seen && (e.Enter? ==> e.seen), c.inTime && !e.TimeOut?))
  {
    AfterAppend(INIT, es, e);
    ConditionsAppend(INIT, es, e, "s", "p");
    longer := es + [e];
    assert longer[|es|] == e;
    assert forall i | 0 <= i < |es| :: longer[i] == es[i];
  }

  // ---------------------------------------------------------------- two versions, two callers

  ghost function Class(id: nat, v: Version): PackClass { PackClass(id, "p", "n", "d", v) }

  /** A header-less run of the one session and pack. */
  ghost function At(stage: Stage): Pending { Pending("s", "p", None, stage) }

  ghost function TwoEntries(): Versions {
    [PackVersion("1.0", Class(1, "1.0"), 1.0), PackVersion("2.0", Class(2, "2.0"), 1.0)]
  }

  /** Nothing is stored yet. */
  ghost function With(clock: Stamp, marks: set<Session>, runs: map<Run, Pending>): State {
    State(map["p" := TwoEntries()], map[], clock, marks, runs)
  }

  ghost function Used(run: Run): Version { if run == 1 then "1.0" else "2.0" }

  ghost function Prefix(run: Run): nat { if run == 1 then 0 else WeightedRouting.MAX_PREFIX }

  lemma {:induction false} TwoVersions() returns (es: seq<Event>)
    ensures Reached(es, With(0, {}, map[]), ALL)
  {
    var c1, c2 := Class(1, "1.0"), Class(2, "2.0");
    var vs1 := [PackVersion("1.0", c1, 1.0)];
    es := Step([], INIT, ALL, Registering(c1));
    assert Apply(INIT, Registering(c1)) == State(map["p" := vs1], map[], 0, {}, map[]);
    es := Step(es, State(map["p" := vs1], map[], 0, {}, map[]), ALL, Registering(c2));
    assert vs1[1..] == [] && Index(vs1, "2.0") == None;
    assert vs1 + [PackVersion("2.0", c2, 1.0)] == TwoEntries();
  }

  lemma TwoEqualWeights(vs: Versions)
    requires |vs| == 2 && vs[0].weight == 1.0 && vs[1].weight == 1.0
    ensures WeightedRouting.Weights(WeightsOf(vs)) && WeightedRouting.Total(WeightsOf(vs)) == 2.0
  {
    var ws := WeightsOf(vs);
    assert WeightedRouting.Cumulative(ws, 1) == 1.0;
    assert WeightedRouting.Cumulative(ws, 2) == 2.0;
  }

  /** The first run's caller has a key of the first version, the second run's one of the second. */
  lemma PrefixChooses(s: State, run: Run)
    requires s.table == map["p" := TwoEntries()] && (run == 1 || run == 2)
    requires run in s.runs && s.runs[run] == At(Asked(None))
    ensures var e := Choose(run, Prefix(run));
            Enabled(s, e) && Apply(s, e) == s.(runs := s.runs[run := At(Chosen(Class(run, Used(run))))])
  {
    TwoEqualWeights(TwoEntries());
    WeightedRouting.PickAtEnds(WeightsOf(TwoEntries()));
  }

  lemma QuietAt(runs: map<Run, Pending>, run: Run, r: Pending)
    ensures Quiet(runs[run := r], run) == Quiet(runs, run)
  {
    var runs' := runs[run := r];
    assert forall q | q != run :: q in runs' <==> q in runs;
    assert forall q | q in runs && q != run :: runs'[q] == runs[q];
  }

  lemma {:induction false} Asks(es: seq<Event>, c: Conditions, run: Run, clock: Stamp,
                                marks: set<Session>, runs: map<Run, Pending>)
    returns (longer: seq<Event>)
    requires Reached(es, With(clock, marks, runs), c) && run !in runs
    ensures Reached(longer, With(clock, marks, runs[run := At(Asked(None))]),
                    c.(undivided := c.undivided && Quiet(runs, run)))
  {
    longer := Step(es, With(clock, marks, runs), c, Ask(run, "s", "p", None));
  }

  lemma {:induction false} Picks(es: seq<Event>, c: Conditions, run: Run, clock: Stamp,
                                 marks: set<Session>, runs: map<Run, Pending>)
    returns (longer: seq<Event>)
    requires Reached(es, With(clock, marks, runs), c) && (run == 1 || run == 2)
    requires run in runs && runs[run] == At(Asked(None))
    ensures Reached(longer, With(clock, marks, runs[run := At(Chosen(Class(run, Used(run))))]),
                    c.(undivided := c.undivided && Quiet(runs, run)))
  {
    PrefixChooses(With(clock, marks, runs), run);
    longer := Step(es, With(clock, marks, runs), c, Choose(run, Prefix(run)));
  }

  lemma {:induction false} Chooses(es: seq<Event>, c: Conditions, run: Run, clock: Stamp,
                                   marks: set<Session>, runs: map<Run, Pending>)
    returns (longer: seq<Event>)
    requires Reached(es, With(clock, marks, runs), c) && (run == 1 || run == 2) && run !in runs
    ensures Reached(longer, With(clock, marks, runs[run := At(Chosen(Class(run, Used(run))))]),
                    c.(undivided := c.undivided && Quiet(runs, run)))
  {
    var r1 := runs[run := At(Asked(None))];
    longer := Asks(es, c, run, clock, marks, runs);
    longer := Picks(longer, c.(undivided := c.undivided && Quiet(runs, run)), run, clock, marks, r1);
    QuietAt(runs, run, r1[run]);
    assert r1[run := At(Chosen(Class(run, Used(run))))] == runs[run := At(Chosen(Class(run, Used(run))))];
  }

  lemma {:induction false} Names(es: seq<Event>, c: Conditions, run: Run, clock: Stamp,
                                 marks: set<Session>, runs: map<Run, Pending>)
    returns (longer: seq<Event>)
    requires Reached(es, With(clock, marks, runs), c) && (run == 1 || run == 2)
    requires run in runs && runs[run] == At(Chosen(Class(run, Used(run))))
    ensures Reached(longer, With(clock, marks, runs[run := At(Named(Used(run)))]),
                    c.(undivided := c.undivided && Quiet(runs, run)))
  {
    assert TwoEntries()[1..] == [PackVersion("2.0", Class(2, "2.0"), 1.0)];
    longer := Step(es, With(clock, marks, runs), c, Name(run));
  }

  lemma {:induction false} Enters(es: seq<Event>, c: Conditions, run: Run, seen: bool, s: State, v: Version)
    returns (longer: seq<Event>)
    requires Reached(es, s, c) && run in s.runs && s.runs[run] == At(Named(v)) && !(seen && "s" in s.marks)
    ensures Reached(longer,
                    s.(marks := if seen then s.marks + {"s"} else s.marks, runs := s.runs[run := At(Running(v, seen))]),
                    c.(undivided := c.undivided && Quiet(s.runs, run), seen := c.seen && seen))
  {
    longer := Step(es, s, c, Enter(run, seen));
  }

  /** A run that asks with nobody else entering comes to know its version. */
  lemma {:induction false} Settles(es: seq<Event>, c: Conditions, run: Run, clock: Stamp,
                                   marks: set<Session>, runs: map<Run, Pending>)
    returns (longer: seq<Event>)
    requires Reached(es, With(clock, marks, runs), c) && (run == 1 || run == 2) && run !in runs && Quiet(runs, run)
    ensures Reached(longer, With(clock, marks, runs[run := At(Named(Used(run)))]), c)
  {
    var r1 := runs[run := At(Chosen(Class(run, Used(run))))];
    longer := Chooses(es, c, run, clock, marks, runs);
    QuietAt(runs, run, r1[run]);
    longer := Names(longer, c, run, clock, marks, r1);
    assert r1[run := At(Named(Used(run)))] == runs[run := At(Named(Used(run)))];
  }

  /** And then enters. */
  lemma {:induction false} Starts(es: seq<Event>, c: Conditions, run: Run, seen: bool, clock: Stamp,
                                  marks: set<Session>, runs: map<Run, Pending>)
    returns (longer: seq<Event>)
    requires Reached(es, With(clock, marks, runs), c) && (run == 1 || run == 2) && run !in runs && Quiet(runs, run)
    requires !(seen && "s" in marks)
    ensures Reached(longer,
                    With(clock, if seen then marks + {"s"} else marks, runs[run := At(Running(Used(run), seen))]),
                    c.(seen := c.seen && seen))
  {
    var r1 := runs[run := At(Named(Used(run)))];
    longer := Settles(es, c, run, clock, marks, runs);
    QuietAt(runs, run, r1[run]);
    longer := Enters(longer, c, run, seen, With(clock, marks, r1), Used(run));
    assert r1[run := At(Running(Used(run), seen))] == runs[run := At(Running(Used(run), seen))];
  }

  /** A save moves the session from one version to another. */
  ghost predicate Moves(es: seq<Event>, e: Event, c: Conditions, v: Version, w: Version) {
    && Feasible(INIT, es + [e]) && Headerless(es + [e]) && Meets(es + [e], c) && Saves(e)
    && Feasible(INIT, es) && LastVersion(After(INIT, es), "s", "p") == Some(v)
    && LastVersion(After(INIT, es + [e]), "s", "p") == Some(w)
  }

  /** A run that has entered is stamped, and becomes the last one when it is stored. */
  lemma {:induction false} StoreMoves(es: seq<Event>, s: State, c: Conditions, run: Run, v: Version)
    returns (longer: seq<Event>, e: Event)
    requires Reached(es, s, c) && Of(s, run, "s", "p") && s.runs[run].stage.Running?
    requires LastVersion(s, "s", "p") == Some(v)
    ensures Moves(longer, e, c, v, s.runs[run].stage.used) && After(INIT, longer + [e]).table == s.table
  {
    RunKeepsDated(INIT, es);
    StepKeepsDated(s, StampRun(run));
    LastStays(s, StampRun(run), "s", "p");
    longer := Step(es, s, c, StampRun(run));
    e := SaveRun(run);
    SaveMoves(longer, Apply(s, StampRun(run)), c, e, v);
  }

  lemma {:induction false} SaveMoves(es: seq<Event>, s: State, c: Conditions, e: Event, v: Version)
    requires Reached(es, s, c) && Dated(s) && Enabled(s, e) && Tops(s, e, "s", "p")
    requires LastVersion(s, "s", "p") == Some(v)
    ensures Moves(es, e, c, v, s.runs[e.run].stage.used) && After(INIT, es + [e]).table == s.table
  {
    var longer := Step(es, s, c, e);
    TopsBecomesLast(s, e, "s", "p");
  }

  ghost function Saved(v: Version): Save { Save("s", "p", v) }

  /** A run that has entered is stamped and stored. */
  lemma {:induction false} Stores(es: seq<Event>, c: Conditions, run: Run, s: State, v: Version)
    returns (longer: seq<Event>)
    requires Reached(es, s, c) && run in s.runs && s.runs[run] == At(Running(v, true))
    ensures Reached(longer,
                    s.(history := s.history[s.clock := Saved(v)], clock := s.clock + 1,
                       runs := s.runs[run := At(Done(true))]), c)
  {
    var s1 := s.(clock := s.clock + 1, runs := s.runs[run := At(Writing(v, true, s.clock))]);
    longer := Step(es, s, c, StampRun(run));
    assert Apply(s, StampRun(run)) == s1;
    longer := Step(longer, s1, c, SaveRun(run));
    assert s1.runs[run := At(Done(true))] == s.runs[run := At(Done(true))];
  }

  // ---------------------------------------------------------------- runs that cross

  lemma {:induction false} BothNamed() returns (es: seq<Event>)
    ensures Reached(es, With(0, {}, map[1 := At(Named("1.0")), 2 := At(Named("2.0"))]), ALL.(undivided := false))
  {
    var c1, c2 := At(Chosen(Class(1, "1.0"))), At(Chosen(Class(2, "2.0")));
    es := TwoVersions();
    es := Chooses(es, ALL, 1, 0, {}, map[]);
    assert Entering(map[1 := c1][1].stage);
    es := Chooses(es, ALL, 2, 0, {}, map[1 := c1]);
    es := Names(es, ALL.(undivided := false), 1, 0, {}, map[1 := c1, 2 := c2]);
    es := Names(es, ALL.(undivided := false), 2, 0, {}, map[1 := At(Named("1.0")), 2 := c2]);
  }

  lemma {:induction false} FirstEnded() returns (es: seq<Event>)
    ensures Reached(es, With(1, {}, map[2 := At(Named("2.0"))]).(history := map[0 := Saved("1.0")]),
                    ALL.(undivided := false))
  {
    var c, n2 := ALL.(undivided := false), At(Named("2.0"));
    es := BothNamed();
    es := Enters(es, c, 1, true, With(0, {}, map[1 := At(Named("1.0")), 2 := n2]), "1.0");
    var s := With(0, {"s"}, map[1 := At(Running("1.0", true)), 2 := n2]);
    es := Stores(es, c, 1, s, "1.0");
    var s1 := With(1, {"s"}, map[1 := At(Done(true)), 2 := n2]).(history := map[0 := Saved("1.0")]);
    assert Reached(es, s1, c);
    es := Step(es, s1, c, End(1));
  }

  /** Two runs that cross on two workers before either enters, although they share the marks. */
  lemma {:induction false} CrossingRunsFlipVersion() returns (es: seq<Event>, e: Event)
    ensures Moves(es, e, ALL.(undivided := false), "1.0", "2.0")
  {
    var c, history := ALL.(undivided := false), map[0 := Saved("1.0")];
    es := FirstEnded();
    es := Enters(es, c, 2, true, With(1, {}, map[2 := At(Named("2.0"))]).(history := history), "2.0");
    var s := With(1, {"s"}, map[2 := At(Running("2.0", true))]).(history := history);
    es, e := StoreMoves(es, s, c, 2, "1.0");
  }

  // ---------------------------------------------------------------- one worker

  /** A second run enters because the marks' store has failed. */
  lemma {:induction false} UnseenMarkFlipsVersion() returns (es: seq<Event>, e: Event)
    ensures Moves(es, e, ALL.(seen := false), "1.0", "2.0")
  {
    var c, r1, r2 := ALL.(seen := false), At(Running("1.0", true)), At(Running("2.0", false));
    es := TwoVersions();
    es := Starts(es, ALL, 1, true, 0, {}, map[]);
    es := Starts(es, ALL, 2, false, 0, {"s"}, map[1 := r1]);
    es := Stores(es, c, 1, With(0, {"s"}, map[1 := r1, 2 := r2]), "1.0");
    var s := With(1, {"s"}, map[1 := At(Done(true)), 2 := r2]).(history := map[0 := Saved("1.0")]);
    assert Reached(es, s, c);
    es, e := StoreMoves(es, s, c, 2, "1.0");
  }

  lemma {:induction false} Unsaved() returns (es: seq<Event>)
    ensures Reached(es, With(1, {}, map[1 := At(Late("1.0", Some(0)))]), ALL.(inTime := false))
  {
    es := TwoVersions();
    es := Starts(es, ALL, 1, true, 0, {}, map[]);
    es := Step(es, With(0, {"s"}, map[1 := At(Running("1.0", true))]), ALL, StampRun(1));
    var s := With(1, {"s"}, map[1 := At(Writing("1.0", true, 0))]);
    assert Reached(es, s, ALL);
    es := Step(es, s, ALL, TimeOut(1));
  }

  /** Two runs one after the other: the first one's save is given up by its request, the second run
      starts without a history, the first save is stored, and then the second. */
  lemma {:induction false} LateSaveFlipsVersion() returns (es: seq<Event>, e: Event)
    ensures Moves(es, e, ALL.(inTime := false), "1.0", "2.0")
  {
    var c, late, r2 := ALL.(inTime := false), At(Late("1.0", Some(0))), At(Running("2.0", true));
    es := Unsaved();
    es := Starts(es, c, 2, true, 1, {}, map[1 := late]);
    var s := With(1, {"s"}, map[1 := late, 2 := r2]);
    es := Step(es, s, c, Land(1));
    var s1 := With(1, {"s"}, map[2 := r2]).(history := map[0 := Saved("1.0")]);
    assert Apply(s, Land(1)) == s1;
    es, e := StoreMoves(es, s1, c, 2, "1.0");
  }

  // ---------------------------------------------------------------- a class replaced under a run

  ghost function OneEntry(cls: PackClass): Table { map["p" := [PackVersion("1.0", cls, 1.0)]] }

  lemma OneEntryServes(cls: PackClass)
    requires cls.version == "1.0"
    ensures Get(OneEntry(cls), "p", None, Sticky(0)) == Get(OneEntry(cls), "p", Some("1.0"), Sticky(0)) == Ok(cls)
    ensures Index(OneEntry(cls)["p"], "1.0") == Some(0) && Index(OneEntry(cls)["p"], UNKNOWN) == None
    ensures NameOf(OneEntry(cls)["p"], cls) == "1.0"
    ensures forall other | other != cls :: NameOf(OneEntry(cls)["p"], other) == UNKNOWN
  {
    assert OneEntry(cls)["p"][1..] == [];
  }

  lemma {:induction false} OneAsked() returns (es: seq<Event>)
    ensures Reached(es, State(OneEntry(Class(1, "1.0")), map[], 0, {}, map[1 := At(Asked(None))]), ALL)
  {
    var c1 := Class(1, "1.0");
    es := Step([], INIT, ALL, Registering(c1));
    assert Apply(INIT, Registering(c1)) == State(OneEntry(c1), map[], 0, {}, map[]);
    es := Step(es, State(OneEntry(c1), map[], 0, {}, map[]), ALL, Ask(1, "s", "p", None));
  }

  lemma {:induction false} OneNamed() returns (es: seq<Event>)
    ensures Reached(es, State(OneEntry(Class(1, "1.0")), map[], 0, {}, map[1 := At(Named("1.0"))]), ALL)
  {
    var c1 := Class(1, "1.0");
    OneEntryServes(c1);
    es := OneAsked();
    es := Step(es, State(OneEntry(c1), map[], 0, {}, map[1 := At(Asked(None))]), ALL, Choose(1, 0));
    es := Step(es, State(OneEntry(c1), map[], 0, {}, map[1 := At(Chosen(c1))]), ALL, Name(1));
  }

  /** A first run is saved with the one version there is. */
  lemma {:induction false} OneSaved() returns (es: seq<Event>)
    ensures Reached(es, State(OneEntry(Class(1, "1.0")), map[0 := Saved("1.0")], 1, {}, map[]), ALL)
  {
    var t := OneEntry(Class(1, "1.0"));
    es := OneNamed();
    es := Enters(es, ALL, 1, true, State(t, map[], 0, {}, map[1 := At(Named("1.0"))]), "1.0");
    es := Stores(es, ALL, 1, State(t, map[], 0, {"s"}, map[1 := At(Running("1.0", true))]), "1.0");
    var s := State(t, map[0 := Saved("1.0")], 1, {"s"}, map[1 := At(Done(true))]);
    assert Reached(es, s, ALL);
    es := Step(es, s, ALL, End(1));
  }

  /** A second run has chosen its class. */
  lemma {:induction false} NextChosen() returns (es: seq<Event>)
    ensures Reached(es, State(OneEntry(Class(1, "1.0")), map[0 := Saved("1.0")], 1, {},
                              map[2 := At(Chosen(Class(1, "1.0")))]), ALL)
  {
    var c1, history := Class(1, "1.0"), map[0 := Saved("1.0")];
    var t := OneEntry(c1);
    OneEntryServes(c1);
    es := OneSaved();
    es := Step(es, State(t, history, 1, {}, map[]), ALL, Ask(2, "s", "p", None));
    es := Step(es, State(t, history, 1, {}, map[2 := At(Asked(Some("1.0")))]), ALL, Choose(2, 0));
  }

  /** Its class is registered anew, and it is named. */
  lemma {:induction false} NextUnnamed() returns (es: seq<Event>)
    ensures Reached(es, State(OneEntry(Class(2, "1.0")), map[0 := Saved("1.0")], 1, {}, map[2 := At(Named(UNKNOWN))]),
                    ALL.(unreplaced := false))
  {
    var c1, c2, history := Class(1, "1.0"), Class(2, "1.0"), map[0 := Saved("1.0")];
    var runs := map[2 := At(Chosen(c1))];
    OneEntryServes(c1);
    OneEntryServes(c2);
    es := NextChosen();
    var s := State(OneEntry(c1), history, 1, {}, runs);
    assert Follows(s, 2, "s", "p") && Displaces(s, Registering(c2), s.runs[2]);
    es := Step(es, s, ALL, Registering(c2));
    assert s.table["p"][0 := PackVersion("1.0", c2, 1.0)] == OneEntry(c2)["p"];
    assert Apply(s, Registering(c2)) == State(OneEntry(c2), history, 1, {}, runs);
    es := Step(es, State(OneEntry(c2), history, 1, {}, runs), ALL.(unreplaced := false), Name(2));
  }

  /** Re-registering a version while a run is between its two registry calls records "unknown" for
      the session, and every later header-less run of it is then rejected. */
  lemma {:induction false} ReplacedClassLocksSessionOut() returns (es: seq<Event>, e: Event)
    ensures Moves(es, e, ALL.(unreplaced := false), "1.0", "unknown")
    ensures var t := After(INIT, es + [e]).table;
            forall choice | PackRegistry.Possible(t, "p", choice) ::
              Get(t, "p", Some("unknown"), choice) == Err(UnknownVersion)
  {
    var c, t, history := ALL.(unreplaced := false), OneEntry(Class(2, "1.0")), map[0 := Saved("1.0")];
    es := NextUnnamed();
    es := Enters(es, c, 2, true, State(t, history, 1, {}, map[2 := At(Named(UNKNOWN))]), UNKNOWN);
    var s := State(t, history, 1, {"s"}, map[2 := At(Running(UNKNOWN, true))]);
    es, e := StoreMoves(es, s, c, 2, "1.0");
    OneEntryServes(Class(2, "1.0"));
  }
}
