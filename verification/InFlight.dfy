/** The in-process session registry and the life of a request that uses it: the mark is set before
    the work, and cleared in a `finally` on every way out of it.

    A request is a small machine over the stages of its handler. Every stage can be left by
    returning or by raising, and clearing the mark is a step of its own, so that it happens exactly
    once on every path is something to prove. The handlers `RunPack` and `StreamPack` follow the
    source's control flow and are proved to take the machine's steps. */
module InFlight {
  import opened Prelude

  type Session = string
  type Request = nat

  // ---------------------------------------------------------------- the life of a request

  datatype Kind = Run | Stream

  /** What a stage raises. `authCause` tells whether a credential failure hides behind it. */
  datatype Failure = BudgetExceeded | TimedOut | AuthFailed | Failed(authCause: bool) | Unexpected | Cancelled

  /** What the caller sees: nothing when the request was cancelled or its stream broke off. */
  type Status = Option<nat>

  datatype Phase =
    | Arrived
    | Refused
    | Executing
    | Saving
    | QueuingReview
    | Returned         // the response is built, its generator not yet started
    | Streaming
    | ReportingTimeout // the last event of a stream that ran out of time
    | Leaving(status: Status)
    | Answered(status: Status)

  datatype Req = Req(kind: Kind, session: Option<Session>, phase: Phase)

  /** The status an exception of the pack's run is turned into. */
  function StatusOf(f: Failure): Status {
    match f
    case BudgetExceeded => Some(402)
    case TimedOut => Some(504)
    case AuthFailed => Some(502)
    case Failed(authCause) => Some(if authCause then 502 else 500)
    case Unexpected => Some(500)
    case Cancelled => None
  }

  /** A status tells what went wrong: the budget 402, the time 504, the credentials 502, all else 500. */
  lemma StatusTells(f: Failure)
    ensures StatusOf(f) == Some(402) <==> f.BudgetExceeded?
    ensures StatusOf(f) == Some(504) <==> f.TimedOut?
    ensures StatusOf(f) == Some(502) <==> f.AuthFailed? || f == Failed(true)
    ensures StatusOf(f) == Some(500) <==> f.Unexpected? || f == Failed(false)
    ensures StatusOf(f) == None <==> f.Cancelled?
  {
  }

  /** Where a stage leads when it returns. */
  function Next(p: Phase): Option<Phase> {
    match p
    case Executing => Some(Saving)
    case Saving => Some(QueuingReview)
    case QueuingReview => Some(Leaving(Some(200)))
    case Returned => Some(Streaming)
    case Streaming => Some(Leaving(Some(200)))
    case ReportingTimeout => Some(Leaving(Some(200)))
    case _ => None
  }

  /** Where it leads when it raises. Saving catches everything but a cancellation. A stream has sent
      its headers by then; running out of time is the one exception it still reports. */
  function Raised(p: Phase, f: Failure): Option<Phase> {
    match p
    case Executing => Some(Leaving(StatusOf(f)))
    case Saving => if f.Cancelled? then Some(Leaving(None)) else None
    case QueuingReview => if f.Cancelled? || f.Unexpected? then Some(Leaving(StatusOf(f))) else None
    case Streaming => Some(if f.TimedOut? then ReportingTimeout else Leaving(None))
    case ReportingTimeout => if f.Cancelled? then Some(Leaving(None)) else None
    case _ => None
  }

  /** A failed save never reaches the caller, and of the review only what nobody expects. */
  lemma WhatReachesTheCaller(f: Failure)
    ensures Raised(Saving, f).Some? <==> f.Cancelled?
    ensures Raised(QueuingReview, f).Some? <==> f.Cancelled? || f.Unexpected?
    ensures Raised(QueuingReview, Unexpected) == Some(Leaving(Some(500)))
    ensures Raised(Saving, Cancelled) == Raised(QueuingReview, Cancelled) == Some(Leaving(None))
  {
  }

  /** Between the mark and its clearing. */
  predicate Marked(p: Phase) { !(p.Arrived? || p.Refused? || p.Answered?) }

  // ---------------------------------------------------------------- interleaved requests

  datatype State = State(sessions: set<Session>, requests: map<Request, Req>)

  datatype Event =
    | Arrive(id: Request, kind: Kind, session: Option<Session>)
    | Acquire(id: Request)
    | Return(id: Request)
    | Raise(id: Request, failure: Failure)
    | Release(id: Request)

  const INIT := State({}, map[])

  predicate Enabled(s: State, e: Event) {
    match e
    case Arrive(id, _, _) => id !in s.requests
    case Acquire(id) => id in s.requests && s.requests[id].phase.Arrived?
    case Return(id) => id in s.requests && Next(s.requests[id].phase).Some?
    case Raise(id, f) => id in s.requests && Raised(s.requests[id].phase, f).Some?
    case Release(id) => id in s.requests && s.requests[id].phase.Leaving?
  }

  function Plus(sessions: set<Session>, k: Option<Session>): set<Session> {
    if k.Some? then sessions + {k.value} else sessions
  }

  function Minus(sessions: set<Session>, k: Option<Session>): set<Session> {
    if k.Some? then sessions - {k.value} else sessions
  }

  function To(s: State, id: Request, p: Phase): map<Request, Req>
    requires id in s.requests
  {
    s.requests[id := s.requests[id].(phase := p)]
  }

  function Apply(s: State, e: Event): State
    requires Enabled(s, e)
  {
    match e
    case Arrive(id, kind, session) => s.(requests := s.requests[id := Req(kind, session, Arrived)])
    case Acquire(id) =>
      var r := s.requests[id];
      if r.session.Some? && r.session.value in s.sessions then s.(requests := To(s, id, Refused))
      else State(Plus(s.sessions, r.session), To(s, id, if r.kind.Run? then Executing else Returned))
    case Return(id) => s.(requests := To(s, id, Next(s.requests[id].phase).value))
    case Raise(id, f) => s.(requests := To(s, id, Raised(s.requests[id].phase, f).value))
    case Release(id) =>
      var r := s.requests[id];
      State(Minus(s.sessions, r.session), To(s, id, Answered(r.phase.status)))
  }

  predicate Possible(s: State, es: seq<Event>)
    decreases |es|
  {
    es != [] ==> Enabled(s, es[0]) && Possible(Apply(s, es[0]), es[1..])
  }

  function After(s: State, es: seq<Event>): State
    requires Possible(s, es)
    decreases |es|
  {
    if es == [] then s else After(Apply(s, es[0]), es[1..])
  }

  // ---------------------------------------------------------------- marks and requests agree

  ghost predicate Marks(s: State, id: Request, k: Session) {
    id in s.requests && s.requests[id].session == Some(k) && Marked(s.requests[id].phase)
  }

  /** The marks are exactly the sessions of requests on their way, one request each. */
  ghost predicate Exact(s: State) {
    && (forall k | k in s.sessions :: exists id :: Marks(s, id, k))
    && (forall id, k | Marks(s, id, k) :: k in s.sessions)
    && (forall id, id', k | Marks(s, id, k) && Marks(s, id', k) :: id == id')
  }

  lemma StepKeepsExact(s: State, e: Event)
    requires Exact(s) && Enabled(s, e)
    ensures Exact(Apply(s, e))
  {
    var s' := Apply(s, e);
    forall id, k ensures Marks(s', id, k) ==> k in s'.sessions {
      StepMarks(s, e, id, k);
      if e.Release? { StepMarks(s, e, e.id, k); }
    }
    forall id, id', k | Marks(s', id, k) && Marks(s', id', k) ensures id == id' {
      StepMarks(s, e, id, k);
      StepMarks(s, e, id', k);
    }
    forall k | k in s'.sessions ensures exists id :: Marks(s', id, k) {
      StepMarks(s, e, e.id, k);
      if k in s.sessions {
        var id :| Marks(s, id, k);
        StepMarks(s, e, id, k);
        assert Marks(s', id, k);
      } else {
        assert Marks(s', e.id, k);
      }
    }
  }

  /** What one event does to the marks, whichever it is. */
  lemma StepMarks(s: State, e: Event, id: Request, k: Session)
    requires Enabled(s, e)
    ensures var s', own := Apply(s, e), e.id in s.requests && s.requests[e.id].session == Some(k);
            && (k in s'.sessions <==>
                  if e.Acquire? then k in s.sessions || own
                  else k in s.sessions && !(e.Release? && own))
            && (Marks(s', id, k) <==>
                  if e.Acquire? then Marks(s, id, k) || (id == e.id && own && k !in s.sessions)
                  else if e.Release? then Marks(s, id, k) && id != e.id
                  else Marks(s, id, k))
            && (e.Release? && own ==> Marks(s, e.id, k))
  {
  }

  // ---------------------------------------------------------------- every path releases once

  /** How often the request's mark is cleared. */
  function Releases(es: seq<Event>, id: Request): nat {
    if es == [] then 0 else (if es[0] == Release(id) then 1 else 0) + Releases(es[1..], id)
  }

  /** One release is still to come, or has happened, exactly for requests that got in. */
  lemma {:induction false} ReleasesAreDue(s: State, es: seq<Event>, id: Request)
    requires Possible(s, es) && id in s.requests
    ensures var s' := After(s, es);
            && id in s'.requests
            && s'.requests[id].session == s.requests[id].session && s'.requests[id].kind == s.requests[id].kind
            && Releases(es, id) == (if s'.requests[id].phase.Answered? && !s.requests[id].phase.Answered? then 1 else 0)
            && (s.requests[id].phase.Refused? || s.requests[id].phase.Answered? ==> s'.requests[id] == s.requests[id])
    decreases |es|
  {
    if es != [] {
      ReleasesAreDue(Apply(s, es[0]), es[1..], id);
    }
  }

  lemma {:induction false} ReleasesFromArrival(s: State, es: seq<Event>, id: Request)
    requires Possible(s, es) && id !in s.requests
    ensures var s' := After(s, es);
            Releases(es, id) == (if id in s'.requests && s'.requests[id].phase.Answered? then 1 else 0)
    decreases |es|
  {
    if es != [] {
      var s' := Apply(s, es[0]);
      if id in s'.requests {
        ReleasesAreDue(s', es[1..], id);
      } else {
        ReleasesFromArrival(s', es[1..], id);
      }
    }
  }

  /** Nothing more can happen to the request. */
  ghost predicate Over(s: State, id: Request) {
    id in s.requests && forall e: Event | e.id == id :: !Enabled(s, e)
  }

  /** The steps a request may still take. */
  function Remaining(p: Phase): nat {
    match p
    case Arrived => 5
    case Executing => 4
    case Saving => 3
    case QueuingReview => 2
    case Returned => 4
    case Streaming => 3
    case ReportingTimeout => 2
    case Leaving(_) => 1
    case _ => 0
  }

  function StepsOf(es: seq<Event>, id: Request): nat {
    if es == [] then 0 else (if es[0].id == id then 1 else 0) + StepsOf(es[1..], id)
  }

  lemma {:induction false} StepsAreBounded(s: State, es: seq<Event>, id: Request)
    requires Possible(s, es) && id in s.requests
    ensures id in After(s, es).requests
    ensures StepsOf(es, id) + Remaining(After(s, es).requests[id].phase) <= Remaining(s.requests[id].phase)
    ensures StepsOf(es, id) == 0 ==> After(s, es).requests[id] == s.requests[id]
    decreases |es|
  {
    if es != [] { StepsAreBounded(Apply(s, es[0]), es[1..], id); }
  }

  lemma OverIffAnswered(s: State, id: Request)
    requires id in s.requests
    ensures Over(s, id) <==> s.requests[id].phase.Refused? || s.requests[id].phase.Answered?
  {
    var p := s.requests[id].phase;
    assert p.Arrived? ==> Enabled(s, Acquire(id));
    assert p.Leaving? ==> Enabled(s, Release(id));
    assert Next(p).Some? ==> Enabled(s, Return(id));
  }

  /** In every interleaving, for a request of either kind that has come to its end: it was answered
      409 and never cleared a mark, or it got in and cleared it exactly once, whichever of its
      stages returned or raised. And it does come to its end: it takes at most five steps. */
  lemma EveryPathReleasesOnce(es: seq<Event>, later: seq<Event>, id: Request)
    requires Possible(INIT, es) && Possible(After(INIT, es), later) && id in After(INIT, es).requests
    ensures var s := After(After(INIT, es), later);
            && id in s.requests
            && StepsOf(later, id) <= 5
            && (Over(s, id) <==> s.requests[id].phase.Refused? || s.requests[id].phase.Answered?)
            && (Over(s, id) ==>
                  Releases(es, id) + Releases(later, id) == (if s.requests[id].phase.Refused? then 0 else 1))
  {
    ReleasesFromArrival(INIT, es, id);
    ReleasesAreDue(After(INIT, es), later, id);
    StepsAreBounded(After(INIT, es), later, id);
    OverIffAnswered(After(After(INIT, es), later), id);
  }

  lemma {:induction false} RunKeepsExact(s: State, es: seq<Event>)
    requires Exact(s) && Possible(s, es)
    ensures Exact(After(s, es))
    decreases |es|
  {
    if es != [] {
      StepKeepsExact(s, es[0]);
      RunKeepsExact(Apply(s, es[0]), es[1..]);
    }
  }

  /** In every interleaving of run and stream requests the marked sessions are exactly those between
      acquire and release, each held by one request; so a system whose requests are all at an end
      or still waiting holds no mark. */
  lemma MarksFollowRequests(es: seq<Event>)
    requires Possible(INIT, es)
    ensures var s := After(INIT, es);
            && Exact(s)
            && ((forall r | r in s.requests :: !Marked(s.requests[r].phase)) ==> s.sessions == {})
  {
    RunKeepsExact(INIT, es);
    var s := After(INIT, es);
    if s.sessions != {} {
      var k :| k in s.sessions;
      var r :| Marks(s, r, k);
      assert Marked(s.requests[r].phase);
    }
  }

  // ---------------------------------------------------------------- the registry and the handlers

  class InMemorySessionRegistry {
    var sessions: set<Session>

    constructor ()
      ensures sessions == {}
    {
      sessions := {};
    }

    method TryAcquire(k: Session) returns (ok: bool)
      modifies this
      ensures ok <==> k !in old(sessions)
      ensures sessions == old(sessions) + {k}
    {
      if k in sessions { return false; }
      sessions := sessions + {k};
      return true;
    }

    method Release(k: Session)
      modifies this
      ensures sessions == old(sessions) - {k}
    {
      sessions := sessions - {k};
    }
  }

  lemma {:induction false} AfterAppend(s: State, es: seq<Event>, e: Event)
    requires Possible(s, es) && Enabled(After(s, es), e)
    ensures Possible(s, es + [e]) && After(s, es + [e]) == Apply(After(s, es), e)
    decreases |es|
  {
    if es == [] {
      assert [] + [e] == [e] && [e][1..] == [];
    } else {
      AfterAppend(Apply(s, es[0]), es[1..], e);
      assert (es + [e])[1..] == es[1..] + [e];
    }
  }

  /** What a stage of a handler does: nothing, or raise. */
  type Outcome = Option<Failure>

  /** A `/run` request: the registry, the three stages inside `try`, and the `finally`. The events are
      those the machine takes for it. */
  method RunPack(registry: InMemorySessionRegistry, session: Option<Session>,
                 run: Outcome, save: Outcome, review: Outcome, ghost s: State, ghost id: Request)
    returns (status: Status, ghost es: seq<Event>)
    requires registry.sessions == s.sessions && id !in s.requests
    requires save.Some? ==> Raised(Saving, save.value).Some?
    requires review.Some? ==> Raised(QueuingReview, review.value).Some?
    modifies registry
    ensures Possible(s, es) && registry.sessions == After(s, es).sessions == old(registry.sessions)
    ensures var conflict := session.Some? && session.value in s.sessions;
            && After(s, es).requests
               == s.requests[id := Req(Run, session, if conflict then Refused else Answered(status))]
            && status == if conflict then Some(409)
                         else if run.Some? then StatusOf(run.value)
                         else if save.Some? then None
                         else if review.Some? then (if review.value.Cancelled? then None else Some(500))
                         else Some(200)
  {
    es := [];
    var entered := true;
    es := Extend(s, es, Arrive(id, Run, session));
    es := Extend(s, es, Acquire(id));
    if session.Some? { entered := registry.TryAcquire(session.value); }
    if !entered { return Some(409), es; }
    assert After(s, es) == State(Plus(s.sessions, session), s.requests[id := Req(Run, session, Executing)]);
    status, es := Try(run, save, review, s, es, id);
    if session.Some? { registry.Release(session.value); }
    es := Extend(s, es, Release(id));
  }

  /** The body of the `try`: each stage runs if those before it returned. */
  method Try(run: Outcome, save: Outcome, review: Outcome, ghost s: State, ghost before: seq<Event>, ghost id: Request)
    returns (status: Status, ghost es: seq<Event>)
    requires Possible(s, before) && id in After(s, before).requests
    requires After(s, before).requests[id].phase == Executing
    requires save.Some? ==> Raised(Saving, save.value).Some?
    requires review.Some? ==> Raised(QueuingReview, review.value).Some?
    ensures status == if run.Some? then StatusOf(run.value) else if save.Some? then None
                      else if review.Some? then StatusOf(review.value) else Some(200)
    ensures Possible(s, es)
    ensures After(s, es) == After(s, before).(requests := To(After(s, before), id, Leaving(status)))
  {
    if run.Some? {
      es := Extend(s, before, Raise(id, run.value));
      return StatusOf(run.value), es;
    }
    es := Extend(s, before, Return(id));
    if save.Some? {
      es := Extend(s, es, Raise(id, save.value));
      return None, es;
    }
    es := Extend(s, es, Return(id));
    if review.Some? {
      es := Extend(s, es, Raise(id, review.value));
      return StatusOf(review.value), es;
    }
    es := Extend(s, es, Return(id));
    return Some(200), es;
  }

  ghost method Extend(s: State, es: seq<Event>, e: Event) returns (longer: seq<Event>)
    requires Possible(s, es) && Enabled(After(s, es), e)
    ensures longer == es + [e] && Possible(s, longer) && After(s, longer) == Apply(After(s, es), e)
  {
    AfterAppend(s, es, e);
    longer := es + [e];
  }

  /** A `/run/stream` request up to its response: refused, or returned with the mark still set. */
  method StreamPack(registry: InMemorySessionRegistry, session: Option<Session>, ghost s: State, ghost id: Request)
    returns (refused: bool, ghost es: seq<Event>)
    requires registry.sessions == s.sessions && id !in s.requests
    modifies registry
    ensures Possible(s, es) && registry.sessions == After(s, es).sessions
    ensures refused <==> session.Some? && session.value in s.sessions
    ensures After(s, es).requests == s.requests[id := Req(Stream, session, if refused then Refused else Returned)]
  {
    es := Extend(s, [], Arrive(id, Stream, session));
    es := Extend(s, es, Acquire(id));
    refused := false;
    if session.Some? {
      var ok := registry.TryAcquire(session.value);
      refused := !ok;
    }
  }

  /** The body of the generator's `try`. */
  method TryStream(stream: Outcome, report: Outcome, ghost s: State, ghost before: seq<Event>, ghost id: Request)
    returns (status: Status, ghost es: seq<Event>)
    requires Possible(s, before) && id in After(s, before).requests
    requires After(s, before).requests[id].phase == Streaming
    requires report.Some? ==> report.value.Cancelled?
    ensures status == if stream.None? || (stream.value.TimedOut? && report.None?) then Some(200) else None
    ensures Possible(s, es)
    ensures After(s, es) == After(s, before).(requests := To(After(s, before), id, Leaving(status)))
  {
    if stream.None? {
      es := Extend(s, before, Return(id));
      return Some(200), es;
    }
    es := Extend(s, before, Raise(id, stream.value));
    if !stream.value.TimedOut? { return None, es; }
    if report.Some? {
      es := Extend(s, es, Raise(id, report.value));
      return None, es;
    }
    es := Extend(s, es, Return(id));
    return Some(200), es;
  }

  /** The generator of a returned stream, whenever the server runs it: the events, the report of a
      timeout, and the `finally`. */
  method StreamEvents(registry: InMemorySessionRegistry, session: Option<Session>, stream: Outcome, report: Outcome,
                      ghost s: State, ghost id: Request)
    returns (status: Status, ghost es: seq<Event>)
    requires registry.sessions == s.sessions && id in s.requests && s.requests[id] == Req(Stream, session, Returned)
    requires report.Some? ==> report.value.Cancelled?
    modifies registry
    ensures Possible(s, es) && registry.sessions == After(s, es).sessions == Minus(s.sessions, session)
    ensures After(s, es).requests == s.requests[id := Req(Stream, session, Answered(status))]
    ensures status == if stream.None? || (stream.value.TimedOut? && report.None?) then Some(200) else None
  {
    es := Extend(s, [], Return(id));
    status, es := TryStream(stream, report, s, es, id);
    if session.Some? { registry.Release(session.value); }
    es := Extend(s, es, Release(id));
  }
}
