/** The human-review queue: one specification over the records in creation order, and the two
    backends, a dictionary and a SQL table, each proved to implement it. */
module ReviewStore {
  import opened Prelude

  type Id = string
  type Time = int

  const SUMMARY_MAX: nat := 500

  datatype Status = Pending | Approved | Rejected

  datatype Record = Record(
    runId: Id, packId: string, session: Option<string>, status: Status, summary: string,
    createdAt: Time, decidedAt: Option<Time>, reviewer: Option<string>, notes: Option<string>)

  datatype Error =
    | BlankRunId | BlankPackId | Duplicate
    | BadDecision | BlankReviewer | NotFound | AlreadyDecided(status: Status)
    | BadLimit | BadOffset

  datatype Op =
    | Create(runId: Id, packId: string, session: Option<string>, summary: string, now: Time)
    | Get(id: Id)
    | List(status: Option<Status>, limit: int, offset: int)
    | Decide(target: Id, decision: Status, reviewer: string, notes: Option<string>, at: Time)

  datatype Answer = One(record: Option<Record>) | Page(records: seq<Record>) | Failure(error: Error)

  // ---------------------------------------------------------------- specification

  /** All reviews in creation order. */
  type Queue = seq<Record>

  function IndexOf(q: Queue, id: Id): (r: Option<nat>)
    ensures r.Some? ==> r.value < |q| && q[r.value].runId == id
    ensures r.None? ==> forall i | 0 <= i < |q| :: q[i].runId != id
  {
    if q == [] then None
    else if q[0].runId == id then Some(0)
    else match IndexOf(q[1..], id) case Some(i) => Some(i + 1) case None => None
  }

  function Find(q: Queue, id: Id): Option<Record> {
    match IndexOf(q, id) case Some(i) => Some(q[i]) case None => None
  }

  predicate Selected(r: Record, status: Option<Status>) {
    status == None || status == Some(r.status)
  }

  /** Newest first, filtered. */
  function Newest(q: Queue, status: Option<Status>): seq<Record> {
    if q == [] then []
    else
      var last := q[|q| - 1];
      (if Selected(last, status) then [last] else []) + Newest(q[..|q| - 1], status)
  }

  /** Python's `s[offset : offset + limit]`. */
  function Slice<T>(s: seq<T>, offset: nat, limit: nat): seq<T> {
    if offset >= |s| then []
    else if offset + limit >= |s| then s[offset..]
    else s[offset..offset + limit]
  }

  function NewRecord(op: Op): Record
    requires op.Create?
  {
    Record(op.runId, op.packId, op.session, Pending, Truncate(op.summary, SUMMARY_MAX), op.now, None, None, None)
  }

  function Decided(r: Record, op: Op): Record
    requires op.Decide?
  {
    r.(status := op.decision, decidedAt := Some(op.at), reviewer := Some(Strip(op.reviewer)), notes := op.notes)
  }

  function Step(q: Queue, op: Op): (Queue, Answer) {
    match op
    case Create(id, pack, _, _, _) =>
      if Blank(id) then (q, Failure(BlankRunId))
      else if Blank(pack) then (q, Failure(BlankPackId))
      else if IndexOf(q, id).Some? then (q, Failure(Duplicate))
      else (q + [NewRecord(op)], One(Some(NewRecord(op))))
    case Get(id) => (q, One(Find(q, id)))
    case List(status, limit, offset) =>
      if limit < 1 then (q, Failure(BadLimit))
      else if offset < 0 then (q, Failure(BadOffset))
      else (q, Page(Slice(Newest(q, status), offset, limit)))
    case Decide(id, decision, reviewer, _, _) =>
      if decision == Pending then (q, Failure(BadDecision))
      else if Blank(reviewer) then (q, Failure(BlankReviewer))
      else match IndexOf(q, id)
        case None => (q, Failure(NotFound))
        case Some(i) =>
          if q[i].status != Pending then (q, Failure(AlreadyDecided(q[i].status)))
          else (q[i := Decided(q[i], op)], One(Some(Decided(q[i], op))))
  }

  function After(q: Queue, ops: seq<Op>): Queue
    decreases |ops|
  {
    if ops == [] then q else After(Step(q, ops[0]).0, ops[1..])
  }

  ghost predicate Unique(q: Queue) {
    forall i, j | 0 <= i < j < |q| :: q[i].runId != q[j].runId
  }

  // ---------------------------------------------------------------- lifecycle

  /** The part of a record no operation may change. */
  function Fixed(r: Record): Record { r.(status := Pending, decidedAt := None, reviewer := None, notes := None) }

  /** A later queue: the same reviews in the same places, decided ones untouched, new ones behind. */
  ghost predicate Evolves(q: Queue, q': Queue) {
    && |q| <= |q'|
    && (forall i | 0 <= i < |q| :: Fixed(q'[i]) == Fixed(q[i]))
    && (forall i | 0 <= i < |q| && q[i].status != Pending :: q'[i] == q[i])
  }

  lemma StepEvolves(q: Queue, op: Op)
    requires Unique(q)
    ensures Unique(Step(q, op).0) && Evolves(q, Step(q, op).0)
  {
    var q' := Step(q, op).0;
    assert |q'| >= |q| && forall i | 0 <= i < |q| :: q'[i].runId == q[i].runId;
  }

  /** Over any operations: no review disappears, moves or changes what was recorded at creation,
      and one that has left `pending` never changes again. */
  lemma {:induction false} QueueEvolves(q: Queue, ops: seq<Op>)
    requires Unique(q)
    ensures Unique(After(q, ops)) && Evolves(q, After(q, ops))
    decreases |ops|
  {
    if ops != [] {
      StepEvolves(q, ops[0]);
      QueueEvolves(Step(q, ops[0]).0, ops[1..]);
      EvolvesChains(q, Step(q, ops[0]).0, After(q, ops));
    }
  }

  lemma EvolvesChains(a: Queue, b: Queue, c: Queue)
    requires Evolves(a, b) && Evolves(b, c)
    ensures Evolves(a, c)
  {
    forall i | 0 <= i < |a|
      ensures Fixed(c[i]) == Fixed(a[i]) && (a[i].status != Pending ==> c[i] == a[i])
    {
      assert Fixed(b[i]) == Fixed(a[i]) && Fixed(c[i]) == Fixed(b[i]);
    }
  }

  lemma IndexIsThePlace(q: Queue, i: nat)
    requires Unique(q) && i < |q|
    ensures IndexOf(q, q[i].runId) == Some(i)
  {
    var r := IndexOf(q, q[i].runId);
  }

  /** A decision is final: whatever runs next, the record read back is the one just written. This is
      what lets the SQL backend read the row again after giving up its lock. */
  lemma DecisionIsFinal(q: Queue, op: Op, ops: seq<Op>)
    requires Unique(q) && op.Decide? && Step(q, op).1.One?
    ensures Find(After(Step(q, op).0, ops), op.target) == Step(q, op).1.record
  {
    var q' := Step(q, op).0;
    var i := IndexOf(q, op.target).value;
    StepEvolves(q, op);
    QueueEvolves(q', ops);
    assert q'[i].status != Pending;
    IndexIsThePlace(After(q', ops), i);
  }

  /** A successful decision stores what was asked for, and nothing later changes it. */
  lemma DecisionIsRecorded(q: Queue, op: Op, ops: seq<Op>, i: nat)
    requires Unique(q) && op.Decide? && Step(q, op).1.One?
    requires i < |q| && q[i].runId == op.target
    ensures var q' := After(Step(q, op).0, ops);
            && i < |q'|
            && q[i].status == Pending && (op.decision == Approved || op.decision == Rejected)
            && q'[i].status == op.decision
            && q'[i].reviewer == Some(Strip(op.reviewer)) && Strip(op.reviewer) != ""
            && q'[i].notes == op.notes
            && q'[i].decidedAt == Some(op.at)
            && q'[i].runId == op.target && q'[i].packId == q[i].packId && q'[i].session == q[i].session
            && q'[i].summary == q[i].summary && q'[i].createdAt == q[i].createdAt
  {
    IndexIsThePlace(q, i);
    StepEvolves(q, op);
    QueueEvolves(Step(q, op).0, ops);
    assert Step(q, op).0[i].status == op.decision;
  }

  /** A created review is pending until it is decided. */
  lemma CreationIsRecorded(q: Queue, op: Op, ops: seq<Op>)
    requires Unique(q) && op.Create? && Step(q, op).1.One?
    ensures var q' := After(Step(q, op).0, ops);
            && |q| < |q'|
            && q'[|q|].runId == op.runId && q'[|q|].packId == op.packId && q'[|q|].session == op.session
            && q'[|q|].createdAt == op.now
            && q'[|q|].summary <= op.summary && |q'[|q|].summary| == (if |op.summary| < 500 then |op.summary| else 500)
            && (ops == [] ==>
                  q'[|q|].status == Pending && q'[|q|].decidedAt == None && q'[|q|].reviewer == None
                  && q'[|q|].notes == None)
  {
    StepEvolves(q, op);
    QueueEvolves(Step(q, op).0, ops);
    var r, r' := Step(q, op).0[|q|], After(Step(q, op).0, ops)[|q|];
    assert Fixed(r') == Fixed(r);
  }

  /** How many decisions on `id` succeed. */
  function Decisions(q: Queue, ops: seq<Op>, id: Id): nat
    decreases |ops|
  {
    if ops == [] then 0 else
      (if ops[0].Decide? && ops[0].target == id && Step(q, ops[0]).1.One? then 1 else 0)
      + Decisions(Step(q, ops[0]).0, ops[1..], id)
  }

  lemma {:induction false} NoDecisionOnceDecided(q: Queue, ops: seq<Op>, id: Id)
    requires Unique(q) && Find(q, id).Some? && Find(q, id).value.status != Pending
    ensures Decisions(q, ops, id) == 0
    decreases |ops|
  {
    if ops != [] {
      var q' := Step(q, ops[0]).0;
      var i := IndexOf(q, id).value;
      StepEvolves(q, ops[0]);
      IndexIsThePlace(q', i);
      NoDecisionOnceDecided(q', ops[1..], id);
    }
  }

  /** Whatever happens, a review is decided at most once. */
  lemma {:induction false} DecidedAtMostOnce(q: Queue, ops: seq<Op>, id: Id)
    requires Unique(q)
    ensures Decisions(q, ops, id) <= 1
    decreases |ops|
  {
    if ops != [] {
      var q' := Step(q, ops[0]).0;
      StepEvolves(q, ops[0]);
      if ops[0].Decide? && ops[0].target == id && Step(q, ops[0]).1.One? {
        var i := IndexOf(q, id).value;
        IndexIsThePlace(q', i);
        NoDecisionOnceDecided(q', ops[1..], id);
      } else {
        DecidedAtMostOnce(q', ops[1..], id);
      }
    }
  }

  ghost predicate IsDecided(q: Queue, id: Id) { Find(q, id).Some? && Find(q, id).value.status != Pending }

  /** A review that is not decided yet, or not even created, is decided by exactly one successful
      decision if it is decided in the end, and by none if it is not. */
  lemma {:induction false} DecidedByOneDecision(q: Queue, ops: seq<Op>, id: Id)
    requires Unique(q) && !IsDecided(q, id)
    ensures Decisions(q, ops, id) == if IsDecided(After(q, ops), id) then 1 else 0
    decreases |ops|
  {
    if ops != [] {
      var q' := Step(q, ops[0]).0;
      StepEvolves(q, ops[0]);
      StepDecides(q, ops[0], id);
      if IsDecided(q', id) {
        NoDecisionOnceDecided(q', ops[1..], id);
        StaysDecided(q', ops[1..], id);
      } else {
        DecidedByOneDecision(q', ops[1..], id);
      }
    }
  }

  lemma StaysDecided(q: Queue, ops: seq<Op>, id: Id)
    requires Unique(q) && IsDecided(q, id)
    ensures IsDecided(After(q, ops), id)
  {
    var i := IndexOf(q, id).value;
    QueueEvolves(q, ops);
    IndexIsThePlace(After(q, ops), i);
  }

  lemma StepDecides(q: Queue, op: Op, id: Id)
    requires Unique(q) && !IsDecided(q, id)
    ensures IsDecided(Step(q, op).0, id) <==> op.Decide? && op.target == id && Step(q, op).1.One?
  {
    var q' := Step(q, op).0;
    StepEvolves(q, op);
    match IndexOf(q, id)
    case Some(i) => IndexIsThePlace(q', i);
    case None =>
      if Find(q', id).Some? {
        var i := IndexOf(q', id).value;
        assert forall k | 0 <= k < |q| :: q'[k].runId == q[k].runId;
      }
  }

  // ---------------------------------------------------------------- listings

  function Ids(rs: seq<Record>): seq<Id> {
    seq(|rs|, i requires 0 <= i < |rs| => rs[i].runId)
  }

  lemma {:induction false} SameIdsSameListing(q: Queue, q': Queue)
    requires |q| == |q'| && forall i | 0 <= i < |q| :: q[i].runId == q'[i].runId
    ensures Ids(Newest(q, None)) == Ids(Newest(q', None))
  {
    if q != [] {
      var n := |q| - 1;
      SameIdsSameListing(q[..n], q'[..n]);
      assert Ids([q[n]] + Newest(q[..n], None)) == [q[n].runId] + Ids(Newest(q[..n], None));
      assert Ids([q'[n]] + Newest(q'[..n], None)) == [q'[n].runId] + Ids(Newest(q'[..n], None));
    }
  }

  /** A listing by status holds the reviews of that status, an unfiltered one all. */
  lemma {:induction false} NewestHolds(q: Queue, status: Option<Status>, r: Record)
    ensures r in Newest(q, status) <==> r in q && (status.Some? ==> r.status == status.value)
  {
    if q != [] {
      NewestHolds(q[..|q| - 1], status, r);
      assert q == q[..|q| - 1] + [q[|q| - 1]];
    }
  }

  /** Whatever happens after a successful decision, the review is on the list of the status decided
      on, and on no page of another. */
  lemma DecidedIsListed(q: Queue, op: Op, ops: seq<Op>, status: Status, limit: int, offset: int)
    requires Unique(q) && op.Decide? && Step(q, op).1.One? && limit >= 1 && offset >= 0
    ensures var q' := After(Step(q, op).0, ops);
            var page := Step(q', List(Some(status), limit, offset)).1;
            && page.Page?
            && (status != op.decision ==> forall r | r in page.records :: r.runId != op.target)
            && (status == op.decision && offset == 0 && limit >= |q'| ==>
                  exists r :: r in page.records && r.runId == op.target)
  {
    var i := IndexOf(q, op.target).value;
    DecisionIsRecorded(q, op, ops, i);
    StepEvolves(q, op);
    QueueEvolves(Step(q, op).0, ops);
    var q' := After(Step(q, op).0, ops);
    var page := Step(q', List(Some(status), limit, offset)).1.records;
    forall r | r in page ensures r in q' && r.status == status {
      assert r in Newest(q', Some(status));
      NewestHolds(q', Some(status), r);
    }
    NewestHolds(q', Some(status), q'[i]);
    NewestIsShorter(q', Some(status));
    assert offset == 0 && limit >= |q'| ==> page == Newest(q', Some(status));
  }

  lemma {:induction false} NewestIsShorter(q: Queue, status: Option<Status>)
    ensures |Newest(q, status)| <= |q|
  {
    if q != [] { NewestIsShorter(q[..|q| - 1], status); }
  }

  /** A decision never moves a review in the listing. */
  lemma DecisionKeepsOrder(q: Queue, op: Op)
    requires op.Decide?
    ensures Ids(Newest(Step(q, op).0, None)) == Ids(Newest(q, None))
  {
    SameIdsSameListing(q, Step(q, op).0);
  }

  /** The first `n` consecutive pages, one after the other. */
  function Pages(q: Queue, status: Option<Status>, limit: nat, n: nat): seq<Record> {
    if n == 0 then [] else Pages(q, status, limit, n - 1) + Slice(Newest(q, status), (n - 1) * limit, limit)
  }

  lemma {:induction false} PagesArePrefix(q: Queue, status: Option<Status>, limit: nat, n: nat)
    ensures Pages(q, status, limit, n) == Slice(Newest(q, status), 0, n * limit)
  {
    var all := Newest(q, status);
    if n == 0 {
      assert Slice(all, 0, 0 * limit) == [];
    } else {
      PagesArePrefix(q, status, limit, n - 1);
      assert n * limit == (n - 1) * limit + limit;
      SlicesJoin(all, (n - 1) * limit, limit);
    }
  }

  lemma SlicesJoin<T>(s: seq<T>, a: nat, b: nat)
    ensures Slice(s, 0, a) + Slice(s, a, b) == Slice(s, 0, a + b)
  {
  }

  /** Reading page after page yields the whole filtered list, each review once and in order. */
  lemma PagesCoverListing(q: Queue, status: Option<Status>, limit: nat, n: nat)
    requires n * limit >= |Newest(q, status)|
    ensures Pages(q, status, limit, n) == Newest(q, status)
  {
    PagesArePrefix(q, status, limit, n);
  }

  /** The same listing of the first `n` reviews as a loop builds it, onto `found`. */
  ghost function Collecting(q: Queue, n: nat, status: Option<Status>, found: seq<Record>): seq<Record>
    requires n <= |q|
  {
    if n == 0 then found
    else Collecting(q, n - 1, status, if Selected(q[n - 1], status) then found + [q[n - 1]] else found)
  }

  lemma {:induction false} CollectingIsNewest(q: Queue, n: nat, status: Option<Status>, found: seq<Record>)
    requires n <= |q|
    ensures Collecting(q, n, status, found) == found + Newest(q[..n], status)
  {
    if n > 0 {
      CollectingIsNewest(q, n - 1, status, if Selected(q[n - 1], status) then found + [q[n - 1]] else found);
      assert q[..n][..n - 1] == q[..n - 1];
    }
  }

  // ---------------------------------------------------------------- the dictionary backend

  /** A dictionary by its keys in insertion order and its values. */
  ghost predicate Dictionary(order: seq<Id>, records: map<Id, Record>) {
    && (forall i | 0 <= i < |order| :: order[i] in records && records[order[i]].runId == order[i])
    && (forall i, j | 0 <= i < j < |order| :: order[i] != order[j])
    && (forall id | id in records :: id in order)
  }

  ghost function Values(order: seq<Id>, records: map<Id, Record>): Queue
    requires Dictionary(order, records)
  {
    seq(|order|, i requires 0 <= i < |order| => records[order[i]])
  }

  lemma InsertAppends(order: seq<Id>, records: map<Id, Record>, record: Record)
    requires Dictionary(order, records) && record.runId !in records
    ensures var order', records' := order + [record.runId], records[record.runId := record];
            Dictionary(order', records') && Values(order', records') == Values(order, records) + [record]
  {
    var order', records' := order + [record.runId], records[record.runId := record];
    assert forall i | 0 <= i < |order| :: order[i] in records && order'[i] == order[i];
    forall id | id in records' ensures id in order' {
      if id == record.runId { assert order'[|order|] == id; } else { assert id in order; }
    }
  }

  class InMemoryReviewStore {
    var order: seq<Id>          // insertion order of the dictionary
    var records: map<Id, Record>

    ghost predicate Valid()
      reads this
    {
      Dictionary(order, records)
    }

    ghost function Contents(): Queue
      reads this
      requires Valid()
    {
      Values(order, records)
    }

    constructor ()
      ensures Valid() && Contents() == []
    {
      order, records := [], map[];
    }

    lemma Lookup(id: Id)
      requires Valid()
      ensures Unique(Contents())
      ensures Find(Contents(), id) == if id in records then Some(records[id]) else None
      ensures id in records ==> IndexOf(Contents(), id).Some? && order[IndexOf(Contents(), id).value] == id
    {
      if id in records {
        var i :| 0 <= i < |order| && order[i] == id;
        assert Contents()[i].runId == id;
      }
    }

    method CreateReview(op: Op) returns (r: Answer)
      requires Valid() && op.Create?
      modifies this
      ensures Valid() && (Contents(), r) == Step(old(Contents()), op)
    {
      if Blank(op.runId) { return Failure(BlankRunId); }
      if Blank(op.packId) { return Failure(BlankPackId); }
      Lookup(op.runId);
      if op.runId in records { return Failure(Duplicate); }
      var record := NewRecord(op);
      InsertAppends(order, records, record);
      order := order + [op.runId];
      records := records[op.runId := record];
      return One(Some(record));
    }

    method GetReview(id: Id) returns (r: Answer)
      requires Valid()
      ensures (Contents(), r) == Step(Contents(), Get(id))
    {
      Lookup(id);
      return One(if id in records then Some(records[id]) else None);
    }

    /** The reversed, filtered values of the dictionary. */
    method Collect(status: Option<Status>) returns (found: seq<Record>)
      requires Valid()
      ensures found == Newest(Contents(), status)
    {
      found := [];
      var i := |order|;
      ghost var q := Contents();
      while i > 0
        invariant 0 <= i <= |order| == |q| && q == Contents()
        invariant Collecting(q, i, status, found) == Collecting(q, |q|, status, [])
      {
        i := i - 1;
        var record := records[order[i]];
        assert q[i] == record;
        if Selected(record, status) { found := found + [record]; }
      }
      CollectingIsNewest(q, |q|, status, []);
      assert q[..|q|] == q;
    }

    method ListReviews(status: Option<Status>, limit: int, offset: int) returns (r: Answer)
      requires Valid()
      ensures (Contents(), r) == Step(Contents(), List(status, limit, offset))
    {
      if limit < 1 { return Failure(BadLimit); }
      if offset < 0 { return Failure(BadOffset); }
      var found := Collect(status);
      return Page(Slice(found, offset, limit));
    }

    method DecideReview(op: Op) returns (r: Answer)
      requires Valid() && op.Decide?
      modifies this
      ensures Valid() && (Contents(), r) == Step(old(Contents()), op)
    {
      if op.decision == Pending { return Failure(BadDecision); }
      if Blank(op.reviewer) { return Failure(BlankReviewer); }
      Lookup(op.target);
      if op.target !in records { return Failure(NotFound); }
      var record := records[op.target];
      if record.status != Pending { return Failure(AlreadyDecided(record.status)); }
      ghost var q := Contents();
      ghost var i := IndexOf(q, op.target).value;
      var updated := Decided(record, op);
      records := records[op.target := updated];
      assert Contents() == q[i := updated];
      return One(Some(updated));
    }
  }

  // ---------------------------------------------------------------- the SQL backend

  /** The rows below `n` in id order. */
  ghost function Ascending(rows: map<nat, Record>, n: nat): Queue {
    if n == 0 then [] else Ascending(rows, n - 1) + if n - 1 in rows then [rows[n - 1]] else []
  }

  lemma {:induction false} AscendingHas(rows: map<nat, Record>, n: nat, id: nat)
    requires id < n && id in rows
    ensures rows[id] in Ascending(rows, n)
  {
    if id < n - 1 { AscendingHas(rows, n - 1, id); }
  }

  lemma {:induction false} AscendingFrom(rows: map<nat, Record>, n: nat, r: Record)
    requires r in Ascending(rows, n)
    ensures exists id :: id < n && id in rows && rows[id] == r
  {
    if !(n - 1 in rows && rows[n - 1] == r) { AscendingFrom(rows, n - 1, r); }
  }

  ghost predicate UniqueRows(rows: map<nat, Record>) {
    forall i, j | i in rows && j in rows && rows[i].runId == rows[j].runId :: i == j
  }

  lemma {:induction false} AscendingUnique(rows: map<nat, Record>, n: nat)
    requires UniqueRows(rows)
    ensures Unique(Ascending(rows, n))
  {
    if n > 0 {
      AscendingUnique(rows, n - 1);
      if n - 1 in rows {
        forall r | r in Ascending(rows, n - 1) ensures r.runId != rows[n - 1].runId {
          AscendingFrom(rows, n - 1, r);
        }
        var q := Ascending(rows, n - 1);
        forall i | 0 <= i < |q| ensures q[i].runId != rows[n - 1].runId {
          assert q[i] in q;
        }
      }
    }
  }

  lemma {:induction false} AscendingUntouched(rows: map<nat, Record>, rows': map<nat, Record>, n: nat)
    requires forall i | i < n :: (i in rows <==> i in rows') && (i in rows ==> rows[i] == rows'[i])
    ensures Ascending(rows, n) == Ascending(rows', n)
  {
    if n > 0 { AscendingUntouched(rows, rows', n - 1); }
  }

  /** Changing one row changes one element. */
  lemma {:induction false} AscendingUpdate(rows: map<nat, Record>, id: nat, r: Record, n: nat)
    requires UniqueRows(rows) && id in rows && id < n && r.runId == rows[id].runId
    ensures var q := Ascending(rows, n);
            && IndexOf(q, r.runId).Some? && q[IndexOf(q, r.runId).value] == rows[id]
            && Ascending(rows[id := r], n) == q[IndexOf(q, r.runId).value := r]
  {
    var q := Ascending(rows, n);
    AscendingUnique(rows, n);
    if id == n - 1 {
      AscendingUntouched(rows, rows[id := r], n - 1);
      IndexIsThePlace(q, |q| - 1);
    } else {
      AscendingUpdate(rows, id, r, n - 1);
      var i := IndexOf(Ascending(rows, n - 1), r.runId).value;
      IndexIsThePlace(q, i);
    }
  }

  /** The rows below `n` in descending id order, filtered. */
  ghost function Descending(rows: map<nat, Record>, n: nat, status: Option<Status>): seq<Record> {
    if n == 0 then []
    else
      (if n - 1 in rows && Selected(rows[n - 1], status) then [rows[n - 1]] else [])
      + Descending(rows, n - 1, status)
  }

  lemma {:induction false} DescendingIsNewest(rows: map<nat, Record>, n: nat, status: Option<Status>)
    ensures Descending(rows, n, status) == Newest(Ascending(rows, n), status)
  {
    if n > 0 {
      DescendingIsNewest(rows, n - 1, status);
      var q := Ascending(rows, n - 1);
      if n - 1 in rows { assert (q + [rows[n - 1]])[..|q|] == q; } else { assert q + [] == q; }
    }
  }

  lemma SliceCons<T>(x: T, s: seq<T>, skip: nat, take: nat)
    requires take > 0
    ensures Slice([x] + s, skip, take) == if skip > 0 then Slice(s, skip - 1, take) else [x] + Slice(s, 0, take - 1)
  {
  }

  /** A page of the rows below `n`, as the scan builds it, onto `page`. */
  ghost function Paging(rows: map<nat, Record>, n: nat, status: Option<Status>, skip: nat, take: nat, page: seq<Record>)
    : seq<Record>
  {
    if n == 0 || take == 0 then page
    else if n - 1 !in rows || !Selected(rows[n - 1], status) then Paging(rows, n - 1, status, skip, take, page)
    else if skip > 0 then Paging(rows, n - 1, status, skip - 1, take, page)
    else Paging(rows, n - 1, status, 0, take - 1, page + [rows[n - 1]])
  }

  lemma {:induction false} PagingIsSlice(rows: map<nat, Record>, n: nat, status: Option<Status>, skip: nat,
          take: nat, page: seq<Record>)
    ensures Paging(rows, n, status, skip, take, page) == page + Slice(Descending(rows, n, status), skip, take)
  {
    if n == 0 || take == 0 {
      SliceNothing(Descending(rows, n, status), skip, take, page);
    } else {
      var rest := Descending(rows, n - 1, status);
      if n - 1 !in rows || !Selected(rows[n - 1], status) {
        assert Descending(rows, n, status) == rest;
        PagingIsSlice(rows, n - 1, status, skip, take, page);
      } else {
        var r := rows[n - 1];
        assert Descending(rows, n, status) == [r] + rest;
        SliceCons(r, rest, skip, take);
        if skip > 0 {
          PagingIsSlice(rows, n - 1, status, skip - 1, take, page);
        } else {
          PagingIsSlice(rows, n - 1, status, 0, take - 1, page + [r]);
          Regroup(page, r, Slice(rest, 0, take - 1));
        }
      }
    }
  }

  lemma SliceNothing<T>(s: seq<T>, skip: nat, take: nat, page: seq<T>)
    requires s == [] || take == 0
    ensures page + Slice(s, skip, take) == page
  {
  }

  lemma Regroup<T>(a: seq<T>, x: T, b: seq<T>)
    ensures (a + [x]) + b == a + ([x] + b)
  {
  }

  class SqliteReviewStore {
    var rows: map<nat, Record>
    var nextId: nat

    ghost predicate Valid()
      reads this
    {
      UniqueRows(rows) && forall id | id in rows :: id < nextId
    }

    ghost function Contents(): Queue
      reads this
    {
      Ascending(rows, nextId)
    }

    constructor ()
      ensures Valid() && Contents() == []
    {
      rows, nextId := map[], 0;
    }

    /** `WHERE run_id = ?` on the unique column. */
    method Select(runId: Id) returns (row: Option<nat>)
      requires Valid()
      ensures match row
              case Some(id) => id in rows && rows[id].runId == runId && Find(Contents(), runId) == Some(rows[id])
              case None => Find(Contents(), runId) == None
    {
      var ids := rows.Keys;
      while ids != {}
        invariant ids <= rows.Keys
        invariant forall id | id in rows && rows[id].runId == runId :: id in ids
        decreases |ids|
      {
        var id :| id in ids;
        if rows[id].runId == runId {
          AscendingUpdate(rows, id, rows[id], nextId);
          return Some(id);
        }
        ids := ids - {id};
      }
      if IndexOf(Contents(), runId).Some? {
        AscendingFrom(rows, nextId, Contents()[IndexOf(Contents(), runId).value]);
      }
      return None;
    }

    method CreateReview(op: Op) returns (r: Answer)
      requires Valid() && op.Create?
      modifies this
      ensures Valid() && (Contents(), r) == Step(old(Contents()), op)
    {
      if Blank(op.runId) { return Failure(BlankRunId); }
      if Blank(op.packId) { return Failure(BlankPackId); }
      var row := Select(op.runId);
      if row.Some? { return Failure(Duplicate); }
      ghost var before := rows;
      forall id | id in rows ensures rows[id].runId != op.runId {
        AscendingHas(rows, nextId, id);
      }
      rows := rows[nextId := NewRecord(op)];
      nextId := nextId + 1;
      AscendingUntouched(before, rows, nextId - 1);
      return One(Some(NewRecord(op)));
    }

    method GetReview(id: Id) returns (r: Answer)
      requires Valid()
      ensures (Contents(), r) == Step(Contents(), Get(id))
    {
      var row := Select(id);
      return One(if row.Some? then Some(rows[row.value]) else None);
    }

    /** `WHERE status = ? ORDER BY id DESC LIMIT ? OFFSET ?`, scanning ids downwards. */
    method SelectPage(status: Option<Status>, limit: nat, offset: nat) returns (page: seq<Record>)
      requires Valid()
      ensures page == Slice(Newest(Contents(), status), offset, limit)
    {
      page := [];
      var id, skip, take: nat := nextId, offset, limit;
      while id > 0 && take > 0
        invariant 0 <= id <= nextId
        invariant Paging(rows, id, status, skip, take, page) == Paging(rows, nextId, status, offset, limit, [])
      {
        id := id - 1;
        if id in rows && Selected(rows[id], status) {
          if skip > 0 { skip := skip - 1; }
          else { page := page + [rows[id]]; take := take - 1; }
        }
      }
      PagingIsSlice(rows, nextId, status, offset, limit, []);
      DescendingIsNewest(rows, nextId, status);
    }

    method ListReviews(status: Option<Status>, limit: int, offset: int) returns (r: Answer)
      requires Valid()
      ensures (Contents(), r) == Step(Contents(), List(status, limit, offset))
    {
      if limit < 1 { return Failure(BadLimit); }
      if offset < 0 { return Failure(BadOffset); }
      var page := SelectPage(status, limit, offset);
      return Page(page);
    }

    method DecideReview(op: Op) returns (r: Answer)
      requires Valid() && op.Decide?
      modifies this
      ensures Valid() && (Contents(), r) == Step(old(Contents()), op)
    {
      if op.decision == Pending { return Failure(BadDecision); }
      if Blank(op.reviewer) { return Failure(BlankReviewer); }
      var row := Select(op.target);
      if row.None? { return Failure(NotFound); }
      var id := row.value;
      if rows[id].status != Pending { return Failure(AlreadyDecided(rows[id].status)); }
      AscendingUpdate(rows, id, Decided(rows[id], op), nextId);
      rows := rows[id := Decided(rows[id], op)];
      AscendingUnique(rows, nextId);
      IndexIsThePlace(Contents(), IndexOf(old(Contents()), op.target).value);
      // The lock is released here; `DecisionIsFinal` is why the row read back is still this one.
      r := GetReview(op.target);
    }
  }

  // ---------------------------------------------------------------- observational equality

  method Perform(mem: InMemoryReviewStore, op: Op) returns (r: Answer)
    requires mem.Valid()
    modifies mem
    ensures mem.Valid() && (mem.Contents(), r) == Step(old(mem.Contents()), op)
  {
    match op
    case Create(_, _, _, _, _) => r := mem.CreateReview(op);
    case Get(id) => r := mem.GetReview(id);
    case List(status, limit, offset) => r := mem.ListReviews(status, limit, offset);
    case Decide(_, _, _, _, _) => r := mem.DecideReview(op);
  }

  method PerformSql(sql: SqliteReviewStore, op: Op) returns (r: Answer)
    requires sql.Valid()
    modifies sql
    ensures sql.Valid() && (sql.Contents(), r) == Step(old(sql.Contents()), op)
  {
    match op
    case Create(_, _, _, _, _) => r := sql.CreateReview(op);
    case Get(id) => r := sql.GetReview(id);
    case List(status, limit, offset) => r := sql.ListReviews(status, limit, offset);
    case Decide(_, _, _, _, _) => r := sql.DecideReview(op);
  }

  /** The answers the specification gives to `ops`, appended to `answers`. */
  function Replay(q: Queue, ops: seq<Op>, answers: seq<Answer>): seq<Answer>
    decreases |ops|
  {
    if ops == [] then answers
    else Replay(Step(q, ops[0]).0, ops[1..], answers + [Step(q, ops[0]).1])
  }

  /** From empty stores, any sequence of calls with the same timestamps gets the same records,
      pages and errors from both backends: those of the specification. */
  method BackendsAgree(ops: seq<Op>) returns (fromMemory: seq<Answer>, fromSql: seq<Answer>)
    ensures fromMemory == fromSql == Replay([], ops, [])
  {
    var mem := new InMemoryReviewStore();
    var sql := new SqliteReviewStore();
    fromMemory, fromSql := [], [];
    var rest := ops;
    while rest != []
      invariant mem.Valid() && sql.Valid() && fresh(mem) && fresh(sql)
      invariant mem.Contents() == sql.Contents() && fromMemory == fromSql
      invariant Replay(mem.Contents(), rest, fromMemory) == Replay([], ops, [])
      decreases |rest|
    {
      var a := Perform(mem, rest[0]);
      var b := PerformSql(sql, rest[0]);
      fromMemory, fromSql := fromMemory + [a], fromSql + [b];
      rest := rest[1..];
    }
  }
}
