/** The handler's part in version stickiness, proved to take the steps of `StickySessions`. */
module VersionRouter {
  import opened Prelude
  import opened PackRegistry
  import opened StickySessions
  import InFlight
  import WeightedRouting

  /** What the rest of the handler comes to: the body is turned down, the pack's run fails, or it
      succeeds and its record is stored, lost, or still on its way when the request gives up on it;
      `stamped` tells whether it has been stamped by then. */
  datatype Work = TurnsDown | Fails | Stores | Loses(stamped: bool) | GivesUp(stamped: bool) {
    predicate Stamps() { Stores? || (Loses? && stamped) || (GivesUp? && stamped) }
  }

  datatype Answer = NotFound | TurnedDown | Conflict | Failed | Served(version: Version)

  ghost function Resolved(run: Run, k: Session, p: PackId, header: Option<Version>, prefix: nat,
                          found: bool): seq<Event>
  {
    var chosen := [] + [Ask(run, k, p, header)] + [Choose(run, prefix)];
    if found then chosen + [Name(run)] else chosen
  }

  /** The steps so far, and those of a run that goes on to enter. */
  ghost function Entered(es: seq<Event>, run: Run, answer: Answer, work: Work): seq<Event> {
    var entered := es + [Enter(run, true)];
    if answer.Conflict? then entered
    else
      var stamped := if work.Stamps() then entered + [StampRun(run)] else entered;
      match work
      case Stores => stamped + [SaveRun(run)] + [End(run)]
      case GivesUp(_) => stamped + [TimeOut(run)]
      case _ => stamped + [End(run)]
  }

  ghost function Course(run: Run, k: Session, p: PackId, header: Option<Version>, prefix: nat, answer: Answer,
                        work: Work): seq<Event>
  {
    match answer
    case NotFound => Resolved(run, k, p, header, prefix, false)
    case TurnedDown => Resolved(run, k, p, header, prefix, true) + [Drop(run)]
    case _ => Entered(Resolved(run, k, p, header, prefix, true), run, answer, work)
  }

  ghost method Extend(s: State, es: seq<Event>, e: Event) returns (longer: seq<Event>)
    requires Feasible(s, es) && Enabled(After(s, es), e)
    ensures longer == es + [e] && Feasible(s, longer) && After(s, longer) == Apply(After(s, es), e)
  {
    AfterAppend(s, es, e);
    longer := es + [e];
  }

  /** The request handler as far as versions and marks go, over the registry of packs, the registry of
      sessions in flight and the run history, here the stored runs by their stamps. */
  class Router {
    const registry: Registry
    const inFlight: InFlight.InMemorySessionRegistry
    var history: map<Stamp, Save>
    var clock: Stamp

    constructor (registry: Registry, inFlight: InFlight.InMemorySessionRegistry)
      ensures this.registry == registry && this.inFlight == inFlight && history == map[] && clock == 0
    {
      this.registry, this.inFlight, history, clock := registry, inFlight, map[], 0;
    }

    ghost predicate Shows(s: State)
      reads this, registry, inFlight
    {
      && registry.table == s.table && inFlight.sessions == s.marks
      && history == s.history && clock == s.clock
    }

    /** The version of the newest stored run of the session and pack, if any. */
    method LastUsed(k: Session, p: PackId, ghost s: State) returns (v: Option<Version>)
      requires Shows(s)
      ensures v == LastVersion(s, k, p)
    {
      var n := clock;
      while n > 0
        invariant 0 <= n <= clock && LastStamp(history, clock, k, p) == LastStamp(history, n, k, p)
      {
        n := n - 1;
        if n in history && history[n].session == k && history[n].packId == p {
          return Some(history[n].version);
        }
      }
      return None;
    }

    /** The search through the registry's entries for the class itself. */
    method VersionUsed(vs: Versions, cls: PackClass) returns (v: Version)
      ensures v == NameOf(vs, cls)
    {
      assert vs[0..] == vs;
      for i := 0 to |vs|
        invariant NameOf(vs, cls) == NameOf(vs[i..], cls)
      {
        if vs[i].cls == cls { return vs[i].version; }
        assert vs[i..][1..] == vs[i + 1..];
      }
      return UNKNOWN;
    }

    /** The version a request is to run, up to the two registry calls: its class, or none. */
    method ChooseClass(k: Session, p: PackId, header: Option<Version>, prefix: nat, ghost s: State, ghost run: Run)
      returns (got: Result<PackClass, Error>, ghost es: seq<Event>)
      requires Shows(s) && Sound(s.table) && run !in s.runs && prefix <= WeightedRouting.MAX_PREFIX
      ensures es == [] + [Ask(run, k, p, header)] + [Choose(run, prefix)]
      ensures Feasible(s, es) && Shows(After(s, es))
      ensures Possible(s.table, p, Sticky(prefix))
      ensures got == Get(s.table, p, if header.Some? then header else LastVersion(s, k, p), Sticky(prefix))
      ensures Of(After(s, es), run, k, p)
      ensures After(s, es).runs[run].stage == if got.Ok? then Chosen(got.value) else Rejected(got.error)
    {
      var requested := header;
      if requested.None? { requested := LastUsed(k, p, s); }
      es := Extend(s, [], Ask(run, k, p, header));
      assert After(s, es) == s.(runs := s.runs[run := Pending(k, p, header, Asked(requested))]);
      if p in s.table { SoundHasWeights(s.table, p); }
      got := registry.GetPack(p, requested, Sticky(prefix));
      es := Extend(s, es, Choose(run, prefix));
    }

    /** The version a request will be recorded with, if the registry finds it a class. */
    method Resolve(k: Session, p: PackId, header: Option<Version>, prefix: nat, ghost s: State, ghost run: Run)
      returns (used: Option<Version>, ghost es: seq<Event>)
      requires Shows(s) && Sound(s.table) && run !in s.runs && prefix <= WeightedRouting.MAX_PREFIX
      ensures es == Resolved(run, k, p, header, prefix, used.Some?) && Feasible(s, es) && Shows(After(s, es))
      ensures Possible(s.table, p, Sticky(prefix))
      ensures var asked := if header.Some? then header else LastVersion(s, k, p);
              used == match Get(s.table, p, asked, Sticky(prefix))
                      case Ok(cls) => Some(NameOf(s.table[p], cls))
                      case Err(_) => None
      ensures used.Some? ==> Of(After(s, es), run, k, p) && After(s, es).runs[run].stage == Named(used.value)
    {
      var got;
      got, es := ChooseClass(k, p, header, prefix, s, run);
      if got.Err? { return None, es; }
      var name := VersionUsed(registry.table[p], got.value);
      used := Some(name);
      es := Extend(s, es, Name(run));
    }

    /** From the mark to the answer. */
    method Proceed(k: Session, p: PackId, used: Version, work: Work, ghost s: State, ghost es: seq<Event>,
                   ghost run: Run)
      returns (answer: Answer, ghost longer: seq<Event>)
      requires Feasible(s, es) && Shows(After(s, es)) && !work.TurnsDown?
      requires Of(After(s, es), run, k, p) && After(s, es).runs[run].stage == Named(used)
      modifies this`history, this`clock, inFlight
      ensures longer == Entered(es, run, answer, work) && Feasible(s, longer) && Shows(After(s, longer))
      ensures answer == if k in old(inFlight.sessions) then Conflict
                        else if work.Fails? then Failed
                        else Served(used)
      ensures inFlight.sessions == old(inFlight.sessions)
      ensures history == if answer.Served? && work.Stores? then old(history)[old(clock) := Save(k, p, used)]
                         else old(history)
      ensures clock == if answer.Served? && work.Stamps() then old(clock) + 1 else old(clock)
    {
      var ok := inFlight.TryAcquire(k);
      longer := Extend(s, es, Enter(run, true));
      if !ok { return Conflict, longer; }
      longer := Record(k, p, used, work, s, longer, run);
      longer := Extend(s, longer, if work.GivesUp? then TimeOut(run) else End(run));
      inFlight.Release(k);
      return if work.Fails? then Failed else Served(used), longer;
    }

    /** What becomes of the record while the request waits. */
    method Record(k: Session, p: PackId, used: Version, work: Work, ghost s: State, ghost es: seq<Event>,
                  ghost run: Run)
      returns (ghost longer: seq<Event>)
      requires Feasible(s, es) && Shows(After(s, es))
      requires Of(After(s, es), run, k, p) && After(s, es).runs[run].stage == Running(used, true)
      modifies this`history, this`clock
      ensures Feasible(s, longer) && Shows(After(s, longer)) && Of(After(s, longer), run, k, p)
      ensures Marking(After(s, longer).runs[run].stage) && After(s, longer).runs[run].stage.marked
      ensures After(s, longer).runs[run].stage.Done? <==> work.Stores?
      ensures longer == var stamped := if work.Stamps() then es + [StampRun(run)] else es;
                        if work.Stores? then stamped + [SaveRun(run)] else stamped
      ensures history == if work.Stores? then old(history)[old(clock) := Save(k, p, used)] else old(history)
      ensures clock == if work.Stamps() then old(clock) + 1 else old(clock)
    {
      longer := es;
      if work.Stamps() {
        var stamp := clock;
        clock := clock + 1;
        longer := Extend(s, longer, StampRun(run));
        if work.Stores? {
          history := history[stamp := Save(k, p, used)];
          longer := Extend(s, longer, SaveRun(run));
        }
      }
    }

    /** A request nothing else interrupts: its events, and its answer. The registry of packs decides
        whether it is found, the marks whether it conflicts; it leaves the marks as they were. */
    method RunPack(k: Session, p: PackId, header: Option<Version>, prefix: nat, work: Work,
                   ghost s: State, ghost run: Run)
      returns (answer: Answer, ghost es: seq<Event>)
      requires Shows(s) && Sound(s.table) && run !in s.runs && prefix <= WeightedRouting.MAX_PREFIX
      modifies this`history, this`clock, inFlight
      ensures es == Course(run, k, p, header, prefix, answer, work) && Feasible(s, es) && Shows(After(s, es))
      ensures Possible(s.table, p, Sticky(prefix))
      ensures var got := Get(s.table, p, if header.Some? then header else LastVersion(s, k, p), Sticky(prefix));
              answer == if got.Err? then NotFound
                        else if work.TurnsDown? then TurnedDown
                        else if k in old(inFlight.sessions) then Conflict
                        else if work.Fails? then Failed
                        else Served(NameOf(s.table[p], got.value))
      ensures inFlight.sessions == old(inFlight.sessions)
      ensures history == if answer.Served? && work.Stores? then old(history)[old(clock) := Save(k, p, answer.version)]
                         else old(history)
      ensures clock == if answer.Served? && work.Stamps() then old(clock) + 1 else old(clock)
    {
      var used;
      used, es := Resolve(k, p, header, prefix, s, run);
      if used.None? { return NotFound, es; }
      if work.TurnsDown? {
        es := Extend(s, es, Drop(run));
        return TurnedDown, es;
      }
      answer, es := Proceed(k, p, used.value, work, s, es, run);
    }
  }
}
