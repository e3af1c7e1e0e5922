/** Run history: the Redis backend, a hash per run and sorted-set indexes, against the SQL backends,
    one table filtered and sorted on demand.

    Sorted sets and `ORDER BY` leave ties open, so a query has a set of allowed answers and the
    theorems speak about any two of them. Index keys are the strings the backend builds, because
    different sessions and packs can build the same one. */
module RunHistory {
  import opened Prelude

  type RunId = string
  type Time = int

  datatype Meta = Meta(session: Option<string>, pack: Option<string>, version: Option<string>)
  datatype Run = Run(runId: RunId, query: string, result: string, meta: Meta, createdAt: Time)

  /** One `save_run` call and the clock reading it takes. */
  datatype Save = Save(runId: RunId, query: string, result: string, meta: Meta, now: Time) {
    /** Otherwise the call raises and stores nothing. */
    predicate Accepted() { !Blank(runId) && !Blank(query) }

    function Record(): Run { Run(runId, Strip(query), result, meta, now) }
  }

  datatype Error = BadLimit | BlankSession

  // ---------------------------------------------------------------- Redis keys

  predicate Truthy(s: Option<string>) { s.Some? && s.value != "" }

  function SessionKey(s: string): string { "runhistory:session:" + s }

  function PackKey(s: string, p: string): string { "runhistory:session:" + s + ":pack:" + p }

  /** The index keys a save with this metadata adds its run to. */
  function KeysOf(meta: Meta): set<string> {
    if !Truthy(meta.session) then {}
    else {SessionKey(meta.session.value)}
         + if Truthy(meta.pack) then {PackKey(meta.session.value, meta.pack.value)} else {}
  }

  // ---------------------------------------------------------------- stored state

  type ZSet = map<RunId, Time>

  datatype Redis = Redis(runs: map<RunId, Run>, timeline: ZSet, indexes: map<string, ZSet>)

  function Members(r: Redis, key: string): ZSet {
    if key in r.indexes then r.indexes[key] else map[]
  }

  function SaveRedis(r: Redis, save: Save): Redis {
    if !save.Accepted() then r
    else Redis(r.runs[save.runId := save.Record()],
               r.timeline[save.runId := save.now],
               map key | key in r.indexes.Keys + KeysOf(save.meta) ::
                 if key in KeysOf(save.meta) then Members(r, key)[save.runId := save.now] else r.indexes[key])
  }

  type Table = map<RunId, Run>

  /** `INSERT ... ON CONFLICT (run_id) DO UPDATE`. */
  function SaveSql(t: Table, save: Save): Table {
    if save.Accepted() then t[save.runId := save.Record()] else t
  }

  function RedisAfter(saves: seq<Save>): Redis {
    if saves == [] then Redis(map[], map[], map[])
    else SaveRedis(RedisAfter(saves[..|saves| - 1]), saves[|saves| - 1])
  }

  function SqlAfter(saves: seq<Save>): Table {
    if saves == [] then map[]
    else SaveSql(SqlAfter(saves[..|saves| - 1]), saves[|saves| - 1])
  }

  ghost predicate Increasing(saves: seq<Save>) {
    forall i, j | 0 <= i < j < |saves| :: saves[i].now < saves[j].now
  }

  // ---------------------------------------------------------------- queries

  function Take<T>(s: seq<T>, n: nat): seq<T> { if n <= |s| then s[..n] else s }

  ghost predicate NoRepeats<T>(s: seq<T>) {
    forall i, j | 0 <= i < j < |s| :: s[i] != s[j]
  }

  /** `full` lists `rows` newest first. */
  ghost predicate Orders(rows: set<Run>, full: seq<Run>) {
    && NoRepeats(full)
    && (forall r :: r in full <==> r in rows)
    && (forall i, j | 0 <= i < j < |full| :: full[i].createdAt >= full[j].createdAt)
  }

  /** `ORDER BY created_at DESC LIMIT n`. */
  ghost predicate SqlAnswer(rows: set<Run>, limit: nat, out: seq<Run>) {
    exists full :: Orders(rows, full) && out == Take(full, limit)
  }

  /** The members of a sorted set, highest score first. */
  ghost predicate Ranks(z: ZSet, ids: seq<RunId>) {
    && NoRepeats(ids)
    && (forall id :: id in ids <==> id in z)
    && (forall i, j | 0 <= i < j < |ids| :: z[ids[i]] >= z[ids[j]])
  }

  /** The hashes behind some ids; a missing one is skipped. */
  function Fetch(runs: map<RunId, Run>, ids: seq<RunId>): seq<Run> {
    if ids == [] then []
    else (if ids[0] in runs then [runs[ids[0]]] else []) + Fetch(runs, ids[1..])
  }

  /** `ZREVRANGE key 0 n-1`, then one hash read per id. */
  ghost predicate RedisAnswer(runs: map<RunId, Run>, z: ZSet, limit: nat, out: seq<Run>) {
    exists ids :: Ranks(z, ids) && out == Fetch(runs, Take(ids, limit))
  }

  function AllRows(t: Table): set<Run> { set id | id in t :: t[id] }

  function SessionRows(t: Table, s: string): set<Run> {
    set id | id in t && t[id].meta.session == Some(s) :: t[id]
  }

  function PackRows(t: Table, s: string, p: string): set<Run> {
    set id | id in t && t[id].meta.session == Some(s) && t[id].meta.pack == Some(p) :: t[id]
  }

  // ---------------------------------------------------------------- what an answer holds

  lemma {:induction false} LengthIsSize<T>(s: seq<T>, members: set<T>)
    requires NoRepeats(s) && forall x :: x in s <==> x in members
    ensures |s| == |members|
    decreases |s|
  {
    if s == [] {
      assert members == {};
    } else {
      assert s[0] in s;
      assert forall i | 0 <= i < |s| - 1 :: s[1..][i] == s[i + 1];
      forall x ensures x in s[1..] <==> x in members - {s[0]} {
        assert x in s <==> x == s[0] || x in s[1..];
      }
      LengthIsSize(s[1..], members - {s[0]});
    }
  }

  function Smaller(a: nat, b: nat): nat { if a < b then a else b }

  /** A SQL answer holds as many rows as the limit allows and there are, each once, newest first, and
      leaves out none that is newer than one it lists. */
  lemma SqlAnswerIsNewest(rows: set<Run>, limit: nat, out: seq<Run>)
    requires SqlAnswer(rows, limit, out)
    ensures |out| == Smaller(limit, |rows|) && NoRepeats(out)
    ensures forall i | 0 <= i < |out| :: out[i] in rows
    ensures forall i, j | 0 <= i < j < |out| :: out[i].createdAt >= out[j].createdAt
    ensures forall r, i | r in rows && r !in out && 0 <= i < |out| :: r.createdAt <= out[i].createdAt
  {
    var full :| Orders(rows, full) && out == Take(full, limit);
    LengthIsSize(full, rows);
    forall i | 0 <= i < |out| ensures out[i] == full[i] && out[i] in rows {
      assert full[i] in full;
    }
    forall r, i | r in rows && r !in out && 0 <= i < |out| ensures r.createdAt <= out[i].createdAt {
      var k :| 0 <= k < |full| && full[k] == r;
      assert forall j | 0 <= j < |out| :: full[j] in out;
    }
  }

  ghost predicate Lists(out: seq<Run>, id: RunId) { exists i :: 0 <= i < |out| && out[i].runId == id }

  /** As many runs as the limit allows and the index has, each once and as it is stored, highest score
      first, and none left out that scores higher than one listed. */
  ghost predicate Newest(runs: map<RunId, Run>, z: ZSet, limit: nat, out: seq<Run>) {
    && |out| == Smaller(limit, |z|)
    && (forall r | r in out :: r.runId in z && r.runId in runs && r == runs[r.runId])
    && (forall i, j | 0 <= i < j < |out| :: out[i].runId != out[j].runId && z[out[i].runId] >= z[out[j].runId])
    && (forall id, r | id in z && !Lists(out, id) && r in out :: z[id] <= z[r.runId])
  }

  /** A Redis answer over an index of stored runs is just that. */
  lemma RedisAnswerIsNewest(runs: map<RunId, Run>, z: ZSet, limit: nat, out: seq<Run>)
    requires RedisAnswer(runs, z, limit, out) && forall id | id in z :: id in runs && runs[id].runId == id
    ensures Newest(runs, z, limit, out)
  {
    var ids :| Ranks(z, ids) && out == Fetch(runs, Take(ids, limit));
    FetchesTop(runs, z, ids, limit);
    TopIsNewest(runs, z, ids, out);
    LengthIsSize(ids, z.Keys);
  }

  ghost predicate Follows(runs: map<RunId, Run>, ids: seq<RunId>, out: seq<Run>) {
    && |out| <= |ids|
    && forall i | 0 <= i < |out| :: ids[i] in runs && out[i] == runs[ids[i]] && out[i].runId == ids[i]
  }

  lemma FetchesTop(runs: map<RunId, Run>, z: ZSet, ids: seq<RunId>, limit: nat)
    requires Ranks(z, ids) && forall id | id in z :: id in runs && runs[id].runId == id
    ensures var out := Fetch(runs, Take(ids, limit)); |out| == Smaller(limit, |ids|) && Follows(runs, ids, out)
  {
    assert forall i | 0 <= i < |ids| :: ids[i] in ids && ids[i] in z;
    FetchAll(runs, Take(ids, limit));
  }

  lemma TopIsNewest(runs: map<RunId, Run>, z: ZSet, ids: seq<RunId>, out: seq<Run>)
    requires Ranks(z, ids) && Follows(runs, ids, out)
    ensures forall r | r in out :: r.runId in z && r.runId in runs && r == runs[r.runId]
    ensures forall i, j | 0 <= i < j < |out| :: out[i].runId != out[j].runId && z[out[i].runId] >= z[out[j].runId]
    ensures forall id, r | id in z && !Lists(out, id) && r in out :: z[id] <= z[r.runId]
  {
    assert forall j | 0 <= j < |out| :: Lists(out, ids[j]) && ids[j] in ids && ids[j] in z;
    forall id, r | id in z && !Lists(out, id) && r in out ensures z[id] <= z[r.runId] {
      var k :| 0 <= k < |ids| && ids[k] == id;
      var i :| 0 <= i < |out| && out[i] == r;
      assert ids[i] == r.runId;
    }
  }

  // ---------------------------------------------------------------- the order is determined

  ghost predicate DistinctTimes(rows: set<Run>) {
    forall a, b | a in rows && b in rows && a.createdAt == b.createdAt :: a == b
  }

  lemma FewerDistinctTimes(rows: set<Run>, r: Run)
    requires DistinctTimes(rows)
    ensures DistinctTimes(rows - {r})
  {
  }

  lemma {:induction false} OrderIsUnique(rows: set<Run>, a: seq<Run>, b: seq<Run>)
    requires DistinctTimes(rows) && Orders(rows, a) && Orders(rows, b)
    ensures a == b
    decreases |a|
  {
    if a == [] {
      EmptyOrHasHead(b);
    } else {
      SameHead(rows, a, b);
      TailsAgree(rows, a, b);
      OrderIsUnique(rows - {a[0]}, a[1..], b[1..]);
      SameHeadAndTail(a, b);
    }
  }

  lemma TailsAgree(rows: set<Run>, a: seq<Run>, b: seq<Run>)
    requires DistinctTimes(rows) && Orders(rows, a) && Orders(rows, b) && a != [] && b != [] && a[0] == b[0]
    ensures DistinctTimes(rows - {a[0]}) && Orders(rows - {a[0]}, a[1..]) && Orders(rows - {a[0]}, b[1..])
  {
    FewerDistinctTimes(rows, a[0]);
    OrdersTail(rows, a);
    OrdersTail(rows, b);
  }

  lemma SameHeadAndTail<T>(a: seq<T>, b: seq<T>)
    requires a != [] && b != [] && a[0] == b[0] && a[1..] == b[1..]
    ensures a == b
  {
    assert a == [a[0]] + a[1..] && b == [b[0]] + b[1..];
  }

  lemma EmptyOrHasHead<T>(a: seq<T>)
    ensures a == [] || a[0] in a
  {
  }

  lemma SameHead(rows: set<Run>, a: seq<Run>, b: seq<Run>)
    requires DistinctTimes(rows) && Orders(rows, a) && Orders(rows, b) && a != []
    ensures b != [] && a[0] == b[0]
  {
    assert a[0] in a && a[0] in rows;
    var j :| 0 <= j < |b| && b[j] == a[0];
    assert b[0] in b && b[0] in rows;
    var i :| 0 <= i < |a| && a[i] == b[0];
    assert a[0].createdAt >= a[i].createdAt && b[0].createdAt >= b[j].createdAt;
  }

  lemma OrdersTail(rows: set<Run>, a: seq<Run>)
    requires Orders(rows, a) && a != []
    ensures Orders(rows - {a[0]}, a[1..])
  {
    forall r ensures r in a[1..] <==> r in rows - {a[0]} {
      if r in a[1..] {
        var i :| 0 <= i < |a| - 1 && a[1..][i] == r;
        assert a[i + 1] == r;
      }
      if r in rows && r != a[0] {
        var i :| 0 <= i < |a| && a[i] == r;
        assert a[1..][i - 1] == r;
      }
    }
  }

  /** Every indexed run exists and its score is the time it was last saved. */
  ghost predicate Accurate(runs: map<RunId, Run>, z: ZSet) {
    forall id | id in z :: id in runs && runs[id].runId == id && runs[id].createdAt == z[id]
  }

  lemma {:induction false} FetchAll(runs: map<RunId, Run>, ids: seq<RunId>)
    requires forall i | 0 <= i < |ids| :: ids[i] in runs
    ensures |Fetch(runs, ids)| == |ids|
    ensures forall i | 0 <= i < |ids| :: Fetch(runs, ids)[i] == runs[ids[i]]
  {
    if ids != [] {
      assert forall i | 0 <= i < |ids| - 1 :: ids[1..][i] == ids[i + 1];
      FetchAll(runs, ids[1..]);
    }
  }

  lemma FetchOrders(runs: map<RunId, Run>, z: ZSet, ids: seq<RunId>)
    requires Accurate(runs, z) && Ranks(z, ids)
    ensures Orders(set id | id in z :: runs[id], Fetch(runs, ids))
  {
    assert forall i | 0 <= i < |ids| :: ids[i] in z;
    FetchAll(runs, ids);
    var out, rows := Fetch(runs, ids), set id | id in z :: runs[id];
    forall r ensures r in out <==> r in rows {
      if r in out {
        var i :| 0 <= i < |ids| && out[i] == r;
        assert ids[i] in z;
      }
      if r in rows {
        var id :| id in z && runs[id] == r;
        var i :| 0 <= i < |ids| && ids[i] == id;
        assert out[i] == r;
      }
    }
    forall i, j | 0 <= i < j < |out| ensures out[i] != out[j] && out[i].createdAt >= out[j].createdAt {
      assert out[i].runId == ids[i] && out[j].runId == ids[j];
    }
  }

  lemma FetchTake(runs: map<RunId, Run>, z: ZSet, ids: seq<RunId>, limit: nat)
    requires Accurate(runs, z) && Ranks(z, ids)
    ensures Fetch(runs, Take(ids, limit)) == Take(Fetch(runs, ids), limit)
  {
    assert forall i | 0 <= i < |ids| :: ids[i] in z;
    FetchAll(runs, ids);
    FetchAll(runs, Take(ids, limit));
  }

  /** An accurate index over runs saved at distinct times answers like the table. */
  lemma AccurateIndexAgrees(runs: map<RunId, Run>, z: ZSet, limit: nat, fromRedis: seq<Run>, fromSql: seq<Run>)
    requires Accurate(runs, z)
    requires var rows := set id | id in z :: runs[id];
             DistinctTimes(rows) && SqlAnswer(rows, limit, fromSql)
    requires RedisAnswer(runs, z, limit, fromRedis)
    ensures fromRedis == fromSql
  {
    var rows := set id | id in z :: runs[id];
    var full :| Orders(rows, full) && fromSql == Take(full, limit);
    var ids :| Ranks(z, ids) && fromRedis == Fetch(runs, Take(ids, limit));
    FetchOrders(runs, z, ids);
    FetchTake(runs, z, ids, limit);
    OrderIsUnique(rows, full, Fetch(runs, ids));
  }

  // ---------------------------------------------------------------- what a history of saves leaves behind

  /** Some save in the history added this run to this index. */
  ghost predicate Indexed(saves: seq<Save>, key: string, id: RunId) {
    exists i :: 0 <= i < |saves| && saves[i].Accepted() && saves[i].runId == id && key in KeysOf(saves[i].meta)
  }

  /** Both stores hold the same runs, saved at different times not after `high`, and the timeline
      scores them correctly. */
  ghost predicate Stored(r: Redis, t: Table, high: Time) {
    && r.runs == t
    && r.timeline.Keys == r.runs.Keys && Accurate(r.runs, r.timeline)
    && (forall id | id in r.runs :: r.runs[id].createdAt <= high)
    && (forall a, b | a in r.runs && b in r.runs && r.runs[a].createdAt == r.runs[b].createdAt :: a == b)
  }

  lemma SaveStores(r: Redis, t: Table, high: Time, save: Save)
    requires Stored(r, t, high) && high < save.now
    ensures Stored(SaveRedis(r, save), SaveSql(t, save), save.now)
  {
  }

  lemma {:induction false} HistoryIsStored(saves: seq<Save>)
    requires Increasing(saves)
    ensures Stored(RedisAfter(saves), SqlAfter(saves), if saves == [] then 0 else saves[|saves| - 1].now)
  {
    if saves != [] {
      var n := |saves| - 1;
      HistoryIsStored(saves[..n]);
      var high := if n == 0 then saves[n].now - 1 else saves[..n][n - 1].now;
      SaveStores(RedisAfter(saves[..n]), SqlAfter(saves[..n]), high, saves[n]);
    }
  }

  lemma SaveMembers(r: Redis, save: Save, key: string)
    ensures Members(SaveRedis(r, save), key) ==
            if save.Accepted() && key in KeysOf(save.meta) then Members(r, key)[save.runId := save.now]
            else Members(r, key)
  {
  }

  lemma IndexedAfter(saves: seq<Save>, key: string, id: RunId)
    requires saves != []
    ensures var n := |saves| - 1;
            Indexed(saves, key, id) <==>
            || Indexed(saves[..n], key, id)
            || (saves[n].Accepted() && saves[n].runId == id && key in KeysOf(saves[n].meta))
  {
    var n := |saves| - 1;
    if Indexed(saves[..n], key, id) {
      var i :| 0 <= i < n && saves[..n][i].Accepted() && saves[..n][i].runId == id && key in KeysOf(saves[..n][i].meta);
      assert saves[i] == saves[..n][i];
    }
    if Indexed(saves, key, id) {
      var i :| 0 <= i < |saves| && saves[i].Accepted() && saves[i].runId == id && key in KeysOf(saves[i].meta);
      if i < n { assert saves[..n][i] == saves[i]; }
    }
  }

  /** An indexed run exists, and one whose current metadata belongs in the index has its current score. */
  ghost predicate Indexes(runs: map<RunId, Run>, z: ZSet, key: string) {
    && (forall id | id in z :: id in runs)
    && (forall id | id in runs && key in KeysOf(runs[id].meta) :: id in z && z[id] == runs[id].createdAt)
  }

  lemma {:induction false} IndexIsCurrent(saves: seq<Save>, key: string)
    ensures Indexes(RedisAfter(saves).runs, Members(RedisAfter(saves), key), key)
  {
    if saves != [] {
      var n := |saves| - 1;
      IndexIsCurrent(saves[..n], key);
      SaveMembers(RedisAfter(saves[..n]), saves[n], key);
    }
  }

  /** An index holds exactly the runs some save put there. */
  lemma {:induction false} IndexHoldsIndexed(saves: seq<Save>, key: string, id: RunId)
    ensures id in Members(RedisAfter(saves), key) <==> Indexed(saves, key, id)
  {
    if saves != [] {
      var n := |saves| - 1;
      IndexHoldsIndexed(saves[..n], key, id);
      SaveMembers(RedisAfter(saves[..n]), saves[n], key);
      IndexedAfter(saves, key, id);
    }
  }

  /** The last accepted save of a run. */
  function LastOfRun(saves: seq<Save>, id: RunId): (r: Option<nat>)
    ensures r.Some? ==> r.value < |saves| && saves[r.value].runId == id
    ensures r.Some? ==> forall j | r.value < j < |saves| && saves[j].runId == id :: Refused(saves[j])
    ensures r.Some? ==> !Refused(saves[r.value])
    ensures r.None? ==> forall j | 0 <= j < |saves| && saves[j].runId == id :: Refused(saves[j])
  {
    if saves == [] then None
    else if saves[|saves| - 1].runId == id && saves[|saves| - 1].Accepted() then
      BlankIff(id);
      BlankIff(saves[|saves| - 1].query);
      Some(|saves| - 1)
    else
      BlankIff(saves[|saves| - 1].runId);
      BlankIff(saves[|saves| - 1].query);
      assert forall j | 0 <= j < |saves| - 1 :: saves[..|saves| - 1][j] == saves[j];
      LastOfRun(saves[..|saves| - 1], id)
  }

  /** A save with a run id or a query that is nothing but white space. */
  ghost predicate Refused(save: Save) { Spaces(save.runId) || Spaces(save.query) }

  /** What is stored of a run, in both kinds of backend, is what its last accepted save gave, the query
      without the white space around it. */
  lemma {:induction false} StoredIsLastOfRun(saves: seq<Save>, id: RunId)
    ensures RedisAfter(saves).runs == SqlAfter(saves)
    ensures match LastOfRun(saves, id)
            case None => id !in SqlAfter(saves)
            case Some(i) =>
              && id in SqlAfter(saves)
              && var run := SqlAfter(saves)[id];
              && run.runId == id && run.result == saves[i].result && run.meta == saves[i].meta
              && run.createdAt == saves[i].now
              && Trimmed(run.query)
              && exists a, b :: Spaces(a) && Spaces(b) && saves[i].query == a + run.query + b
  {
    if saves != [] {
      var n := |saves| - 1;
      StoredIsLastOfRun(saves[..n], id);
      if saves[n].runId == id && saves[n].Accepted() {
        var a, b := StripParts(saves[n].query);
        assert saves[n].query == a + SqlAfter(saves)[id].query + b;
      }
    }
  }

  // ---------------------------------------------------------------- main results

  /** For every history of saves with increasing timestamps, re-saves included, the Redis timeline
      lists exactly what sorting the stored records newest first and cutting gives. */
  lemma TimelineMatchesSql(saves: seq<Save>, limit: nat, fromRedis: seq<Run>, fromSql: seq<Run>)
    requires Increasing(saves)
    requires var r := RedisAfter(saves); RedisAnswer(r.runs, r.timeline, limit, fromRedis)
    requires SqlAnswer(AllRows(SqlAfter(saves)), limit, fromSql)
    ensures fromRedis == fromSql
  {
    HistoryIsStored(saves);
    var r := RedisAfter(saves);
    assert AllRows(SqlAfter(saves)) == set id | id in r.timeline :: r.runs[id];
    AccurateIndexAgrees(r.runs, r.timeline, limit, fromRedis, fromSql);
  }

  /** After any such history every listing Redis gives, of the timeline as well as of an index, is the
      newest runs of it, as many as the limit asks for and it has. */
  lemma ListingsAreNewest(saves: seq<Save>, key: Option<string>, limit: nat, out: seq<Run>)
    requires Increasing(saves)
    requires var r := RedisAfter(saves);
             RedisAnswer(r.runs, if key.Some? then Members(r, key.value) else r.timeline, limit, out)
    ensures var r := RedisAfter(saves);
            Newest(r.runs, if key.Some? then Members(r, key.value) else r.timeline, limit, out)
  {
    HistoryIsStored(saves);
    var r := RedisAfter(saves);
    if key.Some? { IndexIsCurrent(saves, key.value); }
    var z := if key.Some? then Members(r, key.value) else r.timeline;
    assert forall id | id in z :: id in r.timeline && r.runs[id].runId == id;
    RedisAnswerIsNewest(r.runs, z, limit, out);
  }

  /** Whatever was ever filed under the session's key now carries that session. A caller can decide
      this from its own save calls. */
  ghost predicate Settled(saves: seq<Save>, s: string) {
    forall i | 0 <= i < |saves| && saves[i].Accepted() && SessionKey(s) in KeysOf(saves[i].meta) ::
      saves[i].runId in SqlAfter(saves) && SqlAfter(saves)[saves[i].runId].meta.session == Some(s)
  }

  lemma SettledIndexIsAccurate(saves: seq<Save>, s: string)
    requires Increasing(saves) && Settled(saves, s) && s != ""
    ensures var r := RedisAfter(saves);
            && Accurate(r.runs, Members(r, SessionKey(s)))
            && (set id | id in Members(r, SessionKey(s)) :: r.runs[id]) == SessionRows(SqlAfter(saves), s)
  {
    HistoryIsStored(saves);
    IndexIsCurrent(saves, SessionKey(s));
    var r := RedisAfter(saves);
    var z := Members(r, SessionKey(s));
    forall id ensures id in z <==> id in r.runs && r.runs[id].meta.session == Some(s) {
      IndexHoldsIndexed(saves, SessionKey(s), id);
      if id in r.runs && r.runs[id].meta.session == Some(s) {
        assert SessionKey(s) in KeysOf(r.runs[id].meta);
      }
    }
    forall id | id in z ensures id in r.runs && r.runs[id].createdAt == z[id] && r.runs[id].runId == id {
      assert r.runs[id].meta.session == Some(s);
      assert SessionKey(s) in KeysOf(r.runs[id].meta);
      assert id in r.timeline;
    }
  }

  /** All allowed answers agree, for every limit. */
  ghost predicate ListingsAgree(saves: seq<Save>, s: string) {
    var r, rows := RedisAfter(saves), SessionRows(SqlAfter(saves), s);
    forall limit: nat, fromRedis, fromSql |
      RedisAnswer(r.runs, Members(r, SessionKey(s)), limit, fromRedis) && SqlAnswer(rows, limit, fromSql) ::
      fromRedis == fromSql
  }

  lemma {:induction false} HighestExists(z: ZSet) returns (top: RunId)
    requires z != map[]
    ensures top in z && forall id | id in z :: z[id] <= z[top]
    decreases |z|
  {
    top :| top in z;
    var rest := z - {top};
    if rest != map[] {
      var other := HighestExists(rest);
      assert forall id | id in z && id != top :: id in rest;
      if z[other] > z[top] { top := other; }
    } else {
      assert forall id | id in z && id != top :: id in rest;
    }
  }

  lemma {:induction false} RankingExists(z: ZSet) returns (ids: seq<RunId>)
    ensures Ranks(z, ids)
    decreases |z|
  {
    if z == map[] {
      ids := [];
    } else {
      var top := HighestExists(z);
      var rest := RankingExists(z - {top});
      ids := [top] + rest;
      RanksCons(z, top, rest);
    }
  }

  lemma RanksCons(z: ZSet, top: RunId, rest: seq<RunId>)
    requires top in z && (forall id | id in z :: z[id] <= z[top]) && Ranks(z - {top}, rest)
    ensures Ranks(z, [top] + rest)
  {
    var ids := [top] + rest;
    forall id ensures id in ids <==> id in z {
      assert id in ids <==> id == top || id in rest;
    }
    forall i, j | 0 <= i < j < |ids| ensures ids[i] != ids[j] && z[ids[i]] >= z[ids[j]] {
      assert ids[j] == rest[j - 1] && rest[j - 1] in rest;
      if i > 0 { assert ids[i] == rest[i - 1]; }
    }
  }

  lemma SessionOrderExists(saves: seq<Save>, s: string) returns (full: seq<Run>)
    requires Increasing(saves)
    ensures Orders(SessionRows(SqlAfter(saves), s), full)
  {
    HistoryIsStored(saves);
    var t := SqlAfter(saves);
    var z := map id | id in t && t[id].meta.session == Some(s) :: t[id].createdAt;
    assert forall id | id in z :: id in RedisAfter(saves).timeline;
    var ids := RankingExists(z);
    FetchOrders(t, z, ids);
    full := Fetch(t, ids);
    assert SessionRows(t, s) == set id | id in z :: t[id];
  }

  lemma {:induction false} AcceptedIsStored(saves: seq<Save>, i: nat)
    requires i < |saves| && saves[i].Accepted()
    ensures saves[i].runId in SqlAfter(saves)
  {
    var n := |saves| - 1;
    if i < n { AcceptedIsStored(saves[..n], i); }
  }

  lemma UnsettledRun(saves: seq<Save>, s: string) returns (id: RunId)
    requires Increasing(saves) && !Settled(saves, s)
    ensures var r := RedisAfter(saves);
            id in Members(r, SessionKey(s)) && id in r.runs && r.runs[id].meta.session != Some(s)
  {
    var i :| 0 <= i < |saves| && saves[i].Accepted() && SessionKey(s) in KeysOf(saves[i].meta)
             && !(saves[i].runId in SqlAfter(saves) && SqlAfter(saves)[saves[i].runId].meta.session == Some(s));
    id := saves[i].runId;
    AcceptedIsStored(saves, i);
    HistoryIsStored(saves);
    IndexHoldsIndexed(saves, SessionKey(s), id);
  }

  /** A run filed under the session's key that no longer carries the session shows up in Redis only. */
  lemma UnsettledSessionDisagrees(saves: seq<Save>, s: string)
    requires Increasing(saves) && !Settled(saves, s)
    ensures !ListingsAgree(saves, s)
  {
    var r, rows := RedisAfter(saves), SessionRows(SqlAfter(saves), s);
    var z := Members(r, SessionKey(s));
    var id := UnsettledRun(saves, s);
    var ids := RankingExists(z);
    var full := SessionOrderExists(saves, s);
    var limit := |ids| + |full|;
    assert forall other | other in z :: other in r.runs by { IndexIsCurrent(saves, SessionKey(s)); }
    var fromRedis := FetchHas(r.runs, z, ids, id, limit);
    assert Take(full, limit) == full;
    assert SqlAnswer(rows, limit, full);
    assert r.runs[id] !in rows;
    assert fromRedis != full;
  }

  lemma FetchMember(runs: map<RunId, Run>, ids: seq<RunId>, id: RunId)
    requires (forall k | 0 <= k < |ids| :: ids[k] in runs) && id in ids
    ensures runs[id] in Fetch(runs, ids)
  {
    FetchAll(runs, ids);
    var k :| 0 <= k < |ids| && ids[k] == id;
    assert Fetch(runs, ids)[k] == runs[id];
  }

  lemma FetchHas(runs: map<RunId, Run>, z: ZSet, ids: seq<RunId>, id: RunId, limit: nat) returns (out: seq<Run>)
    requires Ranks(z, ids) && (forall other | other in z :: other in runs) && id in z && limit >= |ids|
    ensures RedisAnswer(runs, z, limit, out) && runs[id] in out
  {
    assert forall k | 0 <= k < |ids| :: ids[k] in z;
    assert Take(ids, limit) == ids;
    out := Fetch(runs, ids);
    FetchMember(runs, ids, id);
  }

  /** For every history of saves with increasing timestamps, listing a session gives the same runs
      in Redis and in SQL, for every limit, exactly when the session is settled. */
  lemma SessionListingMatchesSqlIffSettled(saves: seq<Save>, s: string)
    requires Increasing(saves) && s != ""
    ensures ListingsAgree(saves, s) <==> Settled(saves, s)
  {
    if Settled(saves, s) {
      var r, rows := RedisAfter(saves), SessionRows(SqlAfter(saves), s);
      HistoryIsStored(saves);
      SettledIndexIsAccurate(saves, s);
      forall limit: nat, fromRedis, fromSql |
        RedisAnswer(r.runs, Members(r, SessionKey(s)), limit, fromRedis) && SqlAnswer(rows, limit, fromSql)
        ensures fromRedis == fromSql
      {
        AccurateIndexAgrees(r.runs, Members(r, SessionKey(s)), limit, fromRedis, fromSql);
      }
    } else {
      UnsettledSessionDisagrees(saves, s);
    }
  }

  // ---------------------------------------------------------------- the version last used

  function Latest(runs: seq<Run>): Option<string> {
    if runs == [] then None else runs[0].meta.version
  }

  /** The first run of that pack in a session listing. */
  function FirstRunOfPack(runs: seq<Run>, p: string): seq<Run> {
    if runs == [] then []
    else if runs[0].meta.pack == Some(p) then [runs[0]]
    else FirstRunOfPack(runs[1..], p)
  }

  const FALLBACK_LIMIT: nat := 50

  /** The run, if any, whose version the SQL backends answer; Postgres returns nothing for blank
      arguments, SQLite does not look. */
  ghost predicate SqlRun(t: Table, s: string, p: string, guarded: bool, out: seq<Run>) {
    if guarded && (Blank(s) || p == "") then out == [] else SqlAnswer(PackRows(t, s, p), 1, out)
  }

  /** The one whose version Redis answers. */
  ghost predicate RedisRun(r: Redis, s: string, p: string, out: seq<Run>) {
    if Blank(s) || p == "" then out == []
    else if Members(r, PackKey(s, p)) == map[] then
      exists listed: seq<Run> ::
        RedisAnswer(r.runs, Members(r, SessionKey(s)), FALLBACK_LIMIT, listed) && out == FirstRunOfPack(listed, p)
    else RedisAnswer(r.runs, Members(r, PackKey(s, p)), 1, out)
  }

  ghost predicate SqlVersion(t: Table, s: string, p: string, guarded: bool, version: Option<string>) {
    exists out: seq<Run> :: SqlRun(t, s, p, guarded, out) && version == Latest(out)
  }

  ghost predicate RedisVersion(r: Redis, s: string, p: string, version: Option<string>) {
    exists out: seq<Run> :: RedisRun(r, s, p, out) && version == Latest(out)
  }

  predicate Files(save: Save, key: string) { save.Accepted() && key in KeysOf(save.meta) }

  /** The index of the save that last filed a run under a key. */
  function LastFiled(saves: seq<Save>, key: string): (r: Option<nat>)
    ensures r.Some? ==> r.value < |saves| && Files(saves[r.value], key)
  {
    if saves == [] then None
    else if Files(saves[|saves| - 1], key) then Some(|saves| - 1)
    else LastFiled(saves[..|saves| - 1], key)
  }

  /** The run last filed under a key alone has the highest score there. */
  ghost predicate Tops(z: ZSet, id: RunId) {
    id in z && forall other | other in z && other != id :: z[other] < z[id]
  }

  lemma {:induction false} ScoresAreSaveTimes(saves: seq<Save>, key: string, now: Time)
    requires forall i | 0 <= i < |saves| :: saves[i].now < now
    ensures forall id | id in Members(RedisAfter(saves), key) :: Members(RedisAfter(saves), key)[id] < now
  {
    if saves != [] {
      var n := |saves| - 1;
      ScoresAreSaveTimes(saves[..n], key, now);
      SaveMembers(RedisAfter(saves[..n]), saves[n], key);
    }
  }

  lemma {:induction false} LastFiledTops(saves: seq<Save>, key: string)
    requires Increasing(saves)
    ensures match LastFiled(saves, key)
            case Some(i) => Tops(Members(RedisAfter(saves), key), saves[i].runId)
            case None => Members(RedisAfter(saves), key) == map[]
  {
    if saves != [] {
      var n := |saves| - 1;
      SaveMembers(RedisAfter(saves[..n]), saves[n], key);
      if Files(saves[n], key) {
        ScoresAreSaveTimes(saves[..n], key, saves[n].now);
      } else {
        LastFiledTops(saves[..n], key);
      }
    }
  }

  predicate Carries(r: Run, s: string, p: string) { r.meta.session == Some(s) && r.meta.pack == Some(p) }

  lemma TopIsFirst(runs: map<RunId, Run>, z: ZSet, id: RunId, out: seq<Run>)
    requires Tops(z, id) && id in runs && RedisAnswer(runs, z, 1, out)
    ensures out == [runs[id]]
  {
    var ids :| Ranks(z, ids) && out == Fetch(runs, Take(ids, 1));
    assert id in ids;
    assert ids[0] in z;
    var k :| 0 <= k < |ids| && ids[k] == id;
    assert k == 0;
    assert Take(ids, 1) == [id];
    assert Fetch(runs, [id]) == [runs[id]] + Fetch(runs, []);
  }

  lemma NewestIsFirst(rows: set<Run>, newest: Run, out: seq<Run>)
    requires newest in rows && SqlAnswer(rows, 1, out)
    requires forall r | r in rows && r != newest :: r.createdAt < newest.createdAt
    ensures out == [newest]
  {
    var full :| Orders(rows, full) && out == Take(full, 1);
    var k :| 0 <= k < |full| && full[k] == newest;
    assert full[0] in full;
    assert k == 0;
  }

  /** Redis answers from the run last filed under the pack's key, as it is stored now. That is the
      run SQL answers from exactly when it still carries the session and the pack. */
  lemma LatestRunMatchesIffStillCarried(saves: seq<Save>, s: string, p: string, i: nat, fromRedis: seq<Run>,
          fromSql: seq<Run>)
    requires Increasing(saves) && s != "" && p != "" && LastFiled(saves, PackKey(s, p)) == Some(i)
    requires var r := RedisAfter(saves); RedisAnswer(r.runs, Members(r, PackKey(s, p)), 1, fromRedis)
    requires SqlAnswer(PackRows(SqlAfter(saves), s, p), 1, fromSql)
    ensures saves[i].runId in SqlAfter(saves) && fromRedis == [SqlAfter(saves)[saves[i].runId]]
    ensures fromRedis == fromSql <==> Carries(SqlAfter(saves)[saves[i].runId], s, p)
  {
    var r, id := RedisAfter(saves), saves[i].runId;
    HistoryIsStored(saves);
    LastFiledTops(saves, PackKey(s, p));
    IndexIsCurrent(saves, PackKey(s, p));
    var z := Members(r, PackKey(s, p));
    TopIsFirst(r.runs, z, id, fromRedis);
    if Carries(r.runs[id], s, p) {
      CarrierIsNewest(r.runs, z, id, s, p);
      NewestIsFirst(PackRows(r.runs, s, p), r.runs[id], fromSql);
    } else {
      StrayIsNoAnswer(r.runs, id, s, p, fromSql);
    }
  }

  lemma CarrierIsNewest(t: Table, z: ZSet, id: RunId, s: string, p: string)
    requires s != "" && p != "" && Indexes(t, z, PackKey(s, p))
    requires Tops(z, id) && id in t && Carries(t[id], s, p)
    ensures t[id] in PackRows(t, s, p)
    ensures forall row | row in PackRows(t, s, p) && row != t[id] :: row.createdAt < t[id].createdAt
  {
    forall other | other in t && Carries(t[other], s, p)
      ensures other in z && z[other] == t[other].createdAt
    {
      assert PackKey(s, p) in KeysOf(t[other].meta);
    }
  }

  lemma StrayIsNoAnswer(t: Table, id: RunId, s: string, p: string, out: seq<Run>)
    requires id in t && !Carries(t[id], s, p) && SqlAnswer(PackRows(t, s, p), 1, out)
    ensures out != [t[id]]
  {
    var full :| Orders(PackRows(t, s, p), full) && out == Take(full, 1);
    EmptyOrHasHead(full);
  }

  lemma {:induction false} FetchIsStored(runs: map<RunId, Run>, ids: seq<RunId>, x: Run)
    requires x in Fetch(runs, ids)
    ensures exists id :: id in ids && id in runs && runs[id] == x
  {
    if !(ids[0] in runs && runs[ids[0]] == x) { FetchIsStored(runs, ids[1..], x); }
  }

  lemma {:induction false} FirstRunMissingIff(runs: seq<Run>, p: string)
    ensures FirstRunOfPack(runs, p) == [] <==> forall x | x in runs :: x.meta.pack != Some(p)
  {
    if runs != [] {
      FirstRunMissingIff(runs[1..], p);
      assert runs == [runs[0]] + runs[1..];
    }
  }

  lemma {:induction false} FirstRunIsFirst(runs: seq<Run>, p: string)
    ensures var out := FirstRunOfPack(runs, p);
            if out == [] then forall x | x in runs :: x.meta.pack != Some(p)
            else exists i :: 0 <= i < |runs| && out == [runs[i]] && runs[i].meta.pack == Some(p)
                             && forall j | 0 <= j < i :: runs[j].meta.pack != Some(p)
  {
    FirstRunMissingIff(runs, p);
    if runs != [] && runs[0].meta.pack != Some(p) {
      FirstRunIsFirst(runs[1..], p);
      assert forall i | 0 < i < |runs| :: runs[i] == runs[1..][i - 1];
      if FirstRunOfPack(runs, p) != [] {
        var i :| 0 <= i < |runs| - 1 && FirstRunOfPack(runs, p) == [runs[1..][i]]
                 && runs[1..][i].meta.pack == Some(p) && forall j | 0 <= j < i :: runs[1..][j].meta.pack != Some(p);
        assert FirstRunOfPack(runs, p) == [runs[i + 1]];
      }
    }
  }

  /** With nothing filed under the pack's key, Redis reads the version off the newest run of the pack
      among the 50 newest that the session's index holds. */
  lemma FallbackReadsFifty(saves: seq<Save>, s: string, p: string, out: seq<Run>) returns (listed: seq<Run>)
    requires Increasing(saves) && !Blank(s) && p != "" && Members(RedisAfter(saves), PackKey(s, p)) == map[]
    requires RedisRun(RedisAfter(saves), s, p, out)
    ensures var r := RedisAfter(saves); Newest(r.runs, Members(r, SessionKey(s)), 50, listed)
    ensures if out == [] then forall x | x in listed :: x.meta.pack != Some(p)
            else exists i :: 0 <= i < |listed| && out == [listed[i]] && listed[i].meta.pack == Some(p)
                             && forall j | 0 <= j < i :: listed[j].meta.pack != Some(p)
  {
    var r := RedisAfter(saves);
    listed :| RedisAnswer(r.runs, Members(r, SessionKey(s)), FALLBACK_LIMIT, listed)
              && out == FirstRunOfPack(listed, p);
    ListingsAreNewest(saves, Some(SessionKey(s)), 50, listed);
    FirstRunIsFirst(listed, p);
  }

  /** When a settled session's pack index is empty, the scan of its last 50 runs finds nothing either. */
  lemma FallbackFindsNothing(saves: seq<Save>, s: string, p: string, out: seq<Run>)
    requires Increasing(saves) && Settled(saves, s) && s != "" && p != ""
    requires var r := RedisAfter(saves);
             && Members(r, PackKey(s, p)) == map[]
             && RedisAnswer(r.runs, Members(r, SessionKey(s)), FALLBACK_LIMIT, out)
    ensures FirstRunOfPack(out, p) == [] && forall x | x in out :: x.meta.pack != Some(p)
  {
    var r := RedisAfter(saves);
    var z := Members(r, SessionKey(s));
    SettledIndexIsAccurate(saves, s);
    IndexIsCurrent(saves, PackKey(s, p));
    var ids :| Ranks(z, ids) && out == Fetch(r.runs, Take(ids, FALLBACK_LIMIT));
    forall x | x in out ensures x.meta.pack != Some(p) {
      FetchIsStored(r.runs, Take(ids, FALLBACK_LIMIT), x);
      var id :| id in Take(ids, FALLBACK_LIMIT) && id in r.runs && r.runs[id] == x;
      assert id in ids && id in z;
      assert x in SessionRows(SqlAfter(saves), s);
      assert x.meta.pack == Some(p) ==> PackKey(s, p) in KeysOf(x.meta);
    }
    FirstRunMissingIff(out, p);
  }

  /** The run the pack's key leads to still carries session and pack; without one, the session is
      settled, so the scan of its runs is no trap either. */
  ghost predicate VersionSettled(saves: seq<Save>, s: string, p: string) {
    match LastFiled(saves, PackKey(s, p))
    case Some(i) => saves[i].runId in SqlAfter(saves) && Carries(SqlAfter(saves)[saves[i].runId], s, p)
    case None => Settled(saves, s)
  }

  // ---------------------------------------------------------------- the run the version is read off

  /** No run among the last 50 filed under the session's key is now of that pack. */
  ghost predicate NoneOfPackListed(saves: seq<Save>, s: string, p: string) {
    var r := RedisAfter(saves);
    forall listed: seq<Run>, x: Run |
      RedisAnswer(r.runs, Members(r, SessionKey(s)), FALLBACK_LIMIT, listed) && x in listed ::
      x.meta.pack != Some(p)
  }

  /** The condition under which both kinds of backend read the version off the same run, or both off
      none. */
  ghost predicate SameRun(saves: seq<Save>, s: string, p: string, guarded: bool) {
    if Blank(s) || p == "" then guarded || PackRows(SqlAfter(saves), s, p) == {}
    else match LastFiled(saves, PackKey(s, p))
      case Some(i) => saves[i].runId in SqlAfter(saves) && Carries(SqlAfter(saves)[saves[i].runId], s, p)
      case None => NoneOfPackListed(saves, s, p)
  }

  /** Different runs were last filed under a key at different times. */
  ghost predicate DistinctScores(z: ZSet) { forall a, b | a in z && b in z && z[a] == z[b] :: a == b }

  lemma {:induction false} ScoresAreDistinct(saves: seq<Save>, key: string)
    requires Increasing(saves)
    ensures DistinctScores(Members(RedisAfter(saves), key))
  {
    if saves != [] {
      var n := |saves| - 1;
      ScoresAreDistinct(saves[..n], key);
      ScoresAreSaveTimes(saves[..n], key, saves[n].now);
      SaveMembers(RedisAfter(saves[..n]), saves[n], key);
    }
  }

  lemma {:induction false} RankIsUnique(z: ZSet, a: seq<RunId>, b: seq<RunId>)
    requires DistinctScores(z) && Ranks(z, a) && Ranks(z, b)
    ensures a == b
    decreases |a|
  {
    if a == [] {
      EmptyOrHasHead(b);
    } else {
      SameTop(z, a, b);
      RanksTail(z, a);
      RanksTail(z, b);
      RankIsUnique(z - {a[0]}, a[1..], b[1..]);
      SameHeadAndTail(a, b);
    }
  }

  lemma SameTop(z: ZSet, a: seq<RunId>, b: seq<RunId>)
    requires DistinctScores(z) && Ranks(z, a) && Ranks(z, b) && a != []
    ensures b != [] && a[0] == b[0]
  {
    assert a[0] in a && a[0] in z;
    var j :| 0 <= j < |b| && b[j] == a[0];
    assert b[0] in b && b[0] in z;
    var i :| 0 <= i < |a| && a[i] == b[0];
    assert z[a[0]] >= z[a[i]] && z[b[0]] >= z[b[j]];
  }

  lemma RanksTail(z: ZSet, a: seq<RunId>)
    requires Ranks(z, a) && a != []
    ensures Ranks(z - {a[0]}, a[1..])
  {
    forall id ensures id in a[1..] <==> id in z - {a[0]} {
      if id in a[1..] {
        var i :| 0 <= i < |a| - 1 && a[1..][i] == id;
        assert a[i + 1] == id;
      }
      if id in z && id != a[0] {
        var i :| 0 <= i < |a| && a[i] == id;
        assert a[1..][i - 1] == id;
      }
    }
    forall i, j | 0 <= i < j < |a| - 1 ensures a[1..][i] != a[1..][j] && z[a[1..][i]] >= z[a[1..][j]] {
      assert a[1..][i] == a[i + 1] && a[1..][j] == a[j + 1];
    }
  }

  /** Nothing filed under the pack's key: SQL has no run to offer, and Redis has none exactly when its
      scan of the last 50 meets none. */
  lemma FallbackRunMatchesIff(saves: seq<Save>, s: string, p: string, fromRedis: seq<Run>, fromSql: seq<Run>)
    requires Increasing(saves) && !Blank(s) && s != "" && p != "" && LastFiled(saves, PackKey(s, p)) == None
    requires RedisRun(RedisAfter(saves), s, p, fromRedis)
    requires SqlAnswer(PackRows(SqlAfter(saves), s, p), 1, fromSql)
    ensures fromRedis == fromSql <==> NoneOfPackListed(saves, s, p)
  {
    var r := RedisAfter(saves);
    var z := Members(r, SessionKey(s));
    LastFiledTops(saves, PackKey(s, p));
    NothingCarries(saves, s, p);
    EmptyRows(PackRows(SqlAfter(saves), s, p), fromSql);
    var listed: seq<Run> :| RedisAnswer(r.runs, z, FALLBACK_LIMIT, listed) && fromRedis == FirstRunOfPack(listed, p);
    FirstRunMissingIff(listed, p);
    ScoresAreDistinct(saves, SessionKey(s));
    forall other: seq<Run> | RedisAnswer(r.runs, z, FALLBACK_LIMIT, other) ensures other == listed {
      AnswersAreUnique(r.runs, z, FALLBACK_LIMIT, other, listed);
    }
  }

  lemma AnswersAreUnique(runs: map<RunId, Run>, z: ZSet, limit: nat, a: seq<Run>, b: seq<Run>)
    requires DistinctScores(z) && RedisAnswer(runs, z, limit, a) && RedisAnswer(runs, z, limit, b)
    ensures a == b
  {
    var ids :| Ranks(z, ids) && a == Fetch(runs, Take(ids, limit));
    var ids' :| Ranks(z, ids') && b == Fetch(runs, Take(ids', limit));
    RankIsUnique(z, ids, ids');
  }

  lemma OneRowIfAny(rows: set<Run>, out: seq<Run>)
    requires SqlAnswer(rows, 1, out)
    ensures out == [] <==> rows == {}
  {
    var full :| Orders(rows, full) && out == Take(full, 1);
    EmptyOrHasHead(full);
    if rows != {} {
      var r :| r in rows;
      assert r in full;
    }
  }

  /** For every history of saves with increasing timestamps, every session and pack, blank ones
      included: Redis and a SQL backend read the version off the same run, or both off none, if and
      only if the condition holds. */
  lemma VersionRunMatchesIff(saves: seq<Save>, s: string, p: string, guarded: bool, fromRedis: seq<Run>,
          fromSql: seq<Run>)
    requires Increasing(saves)
    requires RedisRun(RedisAfter(saves), s, p, fromRedis) && SqlRun(SqlAfter(saves), s, p, guarded, fromSql)
    ensures fromRedis == fromSql <==> SameRun(saves, s, p, guarded)
  {
    assert Blank("");
    if Blank(s) || p == "" {
      if !guarded { OneRowIfAny(PackRows(SqlAfter(saves), s, p), fromSql); }
    } else {
      match LastFiled(saves, PackKey(s, p))
      case Some(i) =>
        LastFiledTops(saves, PackKey(s, p));
        LatestRunMatchesIffStillCarried(saves, s, p, i, fromRedis, fromSql);
      case None =>
        FallbackRunMatchesIff(saves, s, p, fromRedis, fromSql);
    }
  }

  /** Then every backend answers the version last used alike. */
  lemma VersionMatchesSql(saves: seq<Save>, s: string, p: string, fromRedis: Option<string>,
          fromSql: Option<string>, guarded: bool)
    requires Increasing(saves) && SameRun(saves, s, p, guarded)
    requires RedisVersion(RedisAfter(saves), s, p, fromRedis) && SqlVersion(SqlAfter(saves), s, p, guarded, fromSql)
    ensures fromRedis == fromSql
  {
    var a: seq<Run> :| RedisRun(RedisAfter(saves), s, p, a) && fromRedis == Latest(a);
    var b: seq<Run> :| SqlRun(SqlAfter(saves), s, p, guarded, b) && fromSql == Latest(b);
    VersionRunMatchesIff(saves, s, p, guarded, a, b);
  }

  lemma VersionSettledSuffices(saves: seq<Save>, s: string, p: string, guarded: bool)
    requires Increasing(saves) && VersionSettled(saves, s, p) && (guarded || (!Blank(s) && p != ""))
    ensures SameRun(saves, s, p, guarded)
  {
    if !Blank(s) && p != "" && LastFiled(saves, PackKey(s, p)).None? {
      assert Blank("");
      var r := RedisAfter(saves);
      LastFiledTops(saves, PackKey(s, p));
      forall listed: seq<Run> | RedisAnswer(r.runs, Members(r, SessionKey(s)), FALLBACK_LIMIT, listed)
        ensures forall x | x in listed :: x.meta.pack != Some(p)
      {
        FallbackFindsNothing(saves, s, p, listed);
      }
    }
  }

  lemma NothingCarries(saves: seq<Save>, s: string, p: string)
    requires Increasing(saves) && s != "" && p != "" && Members(RedisAfter(saves), PackKey(s, p)) == map[]
    ensures PackRows(SqlAfter(saves), s, p) == {}
  {
    HistoryIsStored(saves);
    IndexIsCurrent(saves, PackKey(s, p));
    forall id | id in SqlAfter(saves) && Carries(SqlAfter(saves)[id], s, p)
      ensures PackKey(s, p) in KeysOf(SqlAfter(saves)[id].meta)
    {
    }
  }

  lemma EmptyRows(rows: set<Run>, out: seq<Run>)
    requires rows == {} && SqlAnswer(rows, 1, out)
    ensures out == []
  {
    var full :| Orders(rows, full) && out == Take(full, 1);
    EmptyOrHasHead(full);
  }

  /** SQLite does not check its arguments, and a blank session id is a session like any other to the
      writers: on it the backends part. Only a direct caller can pass one. */
  lemma BlankSessionsDiffer()
    ensures var saves := [Save("r", "q", "x", Meta(Some(" "), Some("p"), Some("1.0")), 1)];
            && Increasing(saves)
            && SqlVersion(SqlAfter(saves), " ", "p", false, Some("1.0"))
            && !SqlVersion(SqlAfter(saves), " ", "p", true, Some("1.0"))
            && !RedisVersion(RedisAfter(saves), " ", "p", Some("1.0"))
  {
    var save := Save("r", "q", "x", Meta(Some(" "), Some("p"), Some("1.0")), 1);
    var saves := [save];
    assert save.Accepted() && saves[..0] == [];
    assert SqlAfter(saves) == map["r" := save.Record()];
    assert StripLeft(" ") == "" && Blank(" ");
    var full := [save.Record()];
    assert "r" in SqlAfter(saves) && SqlAfter(saves)["r"] == save.Record();
    assert save.Record() in PackRows(SqlAfter(saves), " ", "p");
    assert PackRows(SqlAfter(saves), " ", "p") == {save.Record()};
    assert Orders({save.Record()}, full);
    assert Take(full, 1) == full && Latest(full) == Some("1.0");
    assert SqlRun(SqlAfter(saves), " ", "p", false, full);
  }

  /** The index of the last accepted save of this session and pack. */
  function LastSave(saves: seq<Save>, s: string, p: string): (r: Option<nat>)
    ensures r.Some? ==> r.value < |saves| && Of(saves[r.value], s, p)
    ensures forall j | 0 <= j < |saves| && Of(saves[j], s, p) :: r.Some? && j <= r.value
  {
    if saves == [] then None
    else if Of(saves[|saves| - 1], s, p) then Some(|saves| - 1)
    else
      var r := LastSave(saves[..|saves| - 1], s, p);
      assert forall j | 0 <= j < |saves| - 1 :: saves[..|saves| - 1][j] == saves[j];
      r
  }

  predicate Of(save: Save, s: string, p: string) {
    save.Accepted() && save.meta.session == Some(s) && save.meta.pack == Some(p)
  }

  ghost predicate FreshRuns(saves: seq<Save>) {
    forall i, j | 0 <= i < j < |saves| :: saves[i].runId != saves[j].runId
  }

  lemma {:induction false} FreshIsStored(saves: seq<Save>, i: nat)
    requires FreshRuns(saves) && i < |saves| && saves[i].Accepted()
    ensures saves[i].runId in SqlAfter(saves) && SqlAfter(saves)[saves[i].runId] == saves[i].Record()
  {
    var n := |saves| - 1;
    if i < n { FreshIsStored(saves[..n], i); }
  }

  lemma {:induction false} StoredIsRecord(saves: seq<Save>, id: RunId)
    requires id in SqlAfter(saves)
    ensures exists j :: 0 <= j < |saves| && saves[j].Accepted() && SqlAfter(saves)[id] == saves[j].Record()
  {
    var n := |saves| - 1;
    if !(saves[n].Accepted() && saves[n].runId == id) {
      StoredIsRecord(saves[..n], id);
      var j :| 0 <= j < n && saves[..n][j].Accepted() && SqlAfter(saves[..n])[id] == saves[..n][j].Record();
      assert saves[j] == saves[..n][j];
    }
  }

  /** With fresh run ids the version last used is the one of the last save of that session and pack:
      the reading of history that version stickiness relies on. */
  lemma VersionIsOfLastSave(saves: seq<Save>, s: string, p: string, version: Option<string>)
    requires Increasing(saves) && FreshRuns(saves) && SqlVersion(SqlAfter(saves), s, p, false, version)
    ensures version == match LastSave(saves, s, p) case Some(i) => saves[i].meta.version case None => None
  {
    var t := SqlAfter(saves);
    var rows := PackRows(t, s, p);
    var out: seq<Run> :| SqlRun(t, s, p, false, out) && version == Latest(out);
    var full :| Orders(rows, full) && out == Take(full, 1);
    forall x | x in rows ensures exists j :: 0 <= j < |saves| && Of(saves[j], s, p) && x == saves[j].Record() {
      var id :| id in t && t[id] == x;
      StoredIsRecord(saves, id);
      var j :| 0 <= j < |saves| && saves[j].Accepted() && x == saves[j].Record();
      assert Of(saves[j], s, p);
    }
    match LastSave(saves, s, p)
    case None =>
      EmptyOrHasHead(full);
      assert full == [];
    case Some(i) =>
      FreshIsStored(saves, i);
      assert saves[i].Record() in rows && saves[i].Record() in full;
      LastIsHead(saves, s, p, full, i);
  }

  lemma LastIsHead(saves: seq<Save>, s: string, p: string, full: seq<Run>, i: nat)
    requires Increasing(saves) && LastSave(saves, s, p) == Some(i) && saves[i].Record() in full
    requires Orders(PackRows(SqlAfter(saves), s, p), full)
    requires forall x | x in full :: exists j :: 0 <= j < |saves| && Of(saves[j], s, p) && x == saves[j].Record()
    ensures full[0] == saves[i].Record() && Take(full, 1) == [full[0]]
  {
    var k :| 0 <= k < |full| && full[k] == saves[i].Record();
    assert full[0] in full;
    var j :| 0 <= j < |saves| && Of(saves[j], s, p) && full[0] == saves[j].Record();
    assert full[0].createdAt >= full[k].createdAt;
    assert saves[j].now >= saves[i].now && j <= i;
  }

  // ---------------------------------------------------------------- when histories are settled

  ghost predicate ColonFree(s: string) { ':' !in s }

  /** No run id is ever saved under another session or pack. */
  ghost predicate StableRuns(saves: seq<Save>) {
    forall i, j | 0 <= i < |saves| && 0 <= j < |saves| && saves[i].Accepted() && saves[j].Accepted()
                  && saves[i].runId == saves[j].runId ::
      saves[i].meta.session == saves[j].meta.session && saves[i].meta.pack == saves[j].meta.pack
  }

  ghost predicate ColonFreeSessions(saves: seq<Save>) {
    forall i | 0 <= i < |saves| && saves[i].meta.session.Some? :: ColonFree(saves[i].meta.session.value)
  }

  lemma {:induction false} StoredFromSave(saves: seq<Save>, id: RunId)
    requires id in SqlAfter(saves)
    ensures exists j ::
              && 0 <= j < |saves| && saves[j].Accepted() && saves[j].runId == id
              && saves[j].meta == SqlAfter(saves)[id].meta
  {
    var n := |saves| - 1;
    if !(saves[n].Accepted() && saves[n].runId == id) {
      StoredFromSave(saves[..n], id);
      var j :| 0 <= j < n && saves[..n][j].Accepted() && saves[..n][j].runId == id
          && saves[..n][j].meta == SqlAfter(saves)[id].meta;
      assert saves[j] == saves[..n][j];
    }
  }

  lemma SplitAtColon(a: string, x: string, b: string, y: string)
    requires ColonFree(a) && ColonFree(b)
    requires a + ":" + x == b + ":" + y
    ensures a == b && x == y
  {
    var c := a + ":" + x;
    assert forall i | 0 <= i < |a| :: c[i] == a[i] && a[i] in a;
    assert forall i | 0 <= i < |b| :: c[i] == b[i] && b[i] in b;
    assert c[|a|] == ':' && c[|b|] == ':';
    assert |a| == |b|;
    assert a == c[..|a|] && b == c[..|b|];
    assert x == c[|a| + 1..] && y == c[|b| + 1..];
  }

  lemma SessionKeyIsNoPackKey(k: string, s: string, p: string)
    requires ColonFree(k)
    ensures SessionKey(k) != PackKey(s, p)
  {
    var n := |"runhistory:session:"|;
    assert PackKey(s, p)[n + |s|] == ':';
    assert forall i | 0 <= i < |k| :: SessionKey(k)[n + i] == k[i] && k[i] in k;
  }

  /** Without colons in session ids, keys name one session and pack. */
  lemma KeysAreInjective(meta: Meta, s: string, p: string)
    requires ColonFree(s) && (meta.session.Some? ==> ColonFree(meta.session.value))
    ensures SessionKey(s) in KeysOf(meta) ==> meta.session == Some(s)
    ensures PackKey(s, p) in KeysOf(meta) ==> meta.session == Some(s) && meta.pack == Some(p)
  {
    if Truthy(meta.session) {
      var k := meta.session.value;
      if SessionKey(s) == SessionKey(k) { SamePrefix("runhistory:session:", s, k); }
      SessionKeyIsNoPackKey(k, s, p);
      if Truthy(meta.pack) {
        var q := meta.pack.value;
        SessionKeyIsNoPackKey(s, k, q);
        if PackKey(s, p) == PackKey(k, q) { PackKeysDiffer(s, p, k, q); }
      }
    }
  }

  lemma SamePrefix(prefix: string, a: string, b: string)
    requires prefix + a == prefix + b
    ensures a == b
  {
    assert a == (prefix + a)[|prefix|..] && b == (prefix + b)[|prefix|..];
  }

  lemma PackKeysDiffer(s: string, p: string, k: string, q: string)
    requires ColonFree(s) && ColonFree(k) && PackKey(s, p) == PackKey(k, q)
    ensures s == k && p == q
  {
    var prefix := "runhistory:session:";
    assert PackKey(s, p) == prefix + (s + ":" + ("pack:" + p));
    assert PackKey(k, q) == prefix + (k + ":" + ("pack:" + q));
    SamePrefix(prefix, s + ":" + ("pack:" + p), k + ":" + ("pack:" + q));
    SplitAtColon(s, "pack:" + p, k, "pack:" + q);
    SamePrefix("pack:", p, q);
  }

  lemma StableRunKeepsKeys(saves: seq<Save>, i: nat, s: string, p: string)
    requires StableRuns(saves) && ColonFreeSessions(saves) && ColonFree(s)
    requires i < |saves| && saves[i].Accepted()
    ensures saves[i].runId in SqlAfter(saves)
    ensures SessionKey(s) in KeysOf(saves[i].meta) ==> SqlAfter(saves)[saves[i].runId].meta.session == Some(s)
    ensures PackKey(s, p) in KeysOf(saves[i].meta) ==> Carries(SqlAfter(saves)[saves[i].runId], s, p)
  {
    AcceptedIsStored(saves, i);
    StoredFromSave(saves, saves[i].runId);
    var j :| 0 <= j < |saves| && saves[j].Accepted() && saves[j].runId == saves[i].runId
             && saves[j].meta == SqlAfter(saves)[saves[i].runId].meta;
    KeysAreInjective(saves[i].meta, s, p);
  }

  lemma StableVersionIsSettled(saves: seq<Save>, s: string, p: string)
    requires StableRuns(saves) && ColonFreeSessions(saves) && ColonFree(s) && Settled(saves, s)
    ensures VersionSettled(saves, s, p)
  {
    if LastFiled(saves, PackKey(s, p)).Some? {
      StableRunKeepsKeys(saves, LastFiled(saves, PackKey(s, p)).value, s, p);
    }
  }

  /** If session ids hold no colon, which the pattern the endpoints check sees to, and no run changes
      session or pack, every session and pack is settled, so by the results above all backends agree
      on it. */
  lemma StableHistoriesAreSettled(saves: seq<Save>, s: string, p: string)
    requires StableRuns(saves) && ColonFreeSessions(saves) && ColonFree(s)
    ensures Settled(saves, s) && VersionSettled(saves, s, p)
    ensures Increasing(saves) ==> SameRun(saves, s, p, true)
  {
    forall i | 0 <= i < |saves| && saves[i].Accepted() && SessionKey(s) in KeysOf(saves[i].meta)
      ensures saves[i].runId in SqlAfter(saves) && SqlAfter(saves)[saves[i].runId].meta.session == Some(s)
    {
      StableRunKeepsKeys(saves, i, s, p);
    }
    StableVersionIsSettled(saves, s, p);
    if Increasing(saves) { VersionSettledSuffices(saves, s, p, true); }
  }

  /** With a colon one save is enough: a run of session "a" and pack "b" is listed by Redis, and by
      no SQL backend, under the session "a:pack:b". No shipped endpoint takes such an id. */
  lemma ColonsCollide()
    ensures var saves := [Save("r", "q", "x", Meta(Some("a"), Some("b"), Some("1.0")), 1)];
            Increasing(saves) && StableRuns(saves) && !ListingsAgree(saves, "a:pack:b")
  {
    var save := Save("r", "q", "x", Meta(Some("a"), Some("b"), Some("1.0")), 1);
    var saves := [save];
    assert save.Accepted();
    assert PackKey("a", "b") == SessionKey("a:pack:b");
    assert saves[..0] == [];
    assert SqlAfter(saves) == map["r" := save.Record()];
    SessionListingMatchesSqlIffSettled(saves, "a:pack:b");
  }

  /** A run saved again under another session stays listed under the first one in Redis. */
  lemma MovedRunLingers()
    ensures var first := Save("r", "q", "x", Meta(Some("s"), None, None), 1);
            var saves := [first, first.(meta := Meta(Some("t"), None, None), now := 2)];
            Increasing(saves) && ColonFreeSessions(saves) && !ListingsAgree(saves, "s")
  {
    var first := Save("r", "q", "x", Meta(Some("s"), None, None), 1);
    var second := first.(meta := Meta(Some("t"), None, None), now := 2);
    var saves := [first, second];
    assert first.Accepted() && second.Accepted();
    assert saves[..1] == [first] && SqlAfter(saves)["r"] == second.Record();
    assert SessionKey("s") in KeysOf(saves[0].meta);
    SessionListingMatchesSqlIffSettled(saves, "s");
  }

  // ---------------------------------------------------------------- the backends

  /** `ZADD key {id: score}`. */
  function Zadd(indexes: map<string, ZSet>, key: string, id: RunId, score: Time): map<string, ZSet> {
    indexes[key := (if key in indexes then indexes[key] else map[])[id := score]]
  }

  lemma PipelineIndexes(r: Redis, save: Save)
    requires save.Accepted()
    ensures var session, pack := save.meta.session, save.meta.pack;
            var one := if Truthy(session)
                       then Zadd(r.indexes, SessionKey(session.value), save.runId, save.now) else r.indexes;
            var two := if Truthy(session) && Truthy(pack)
                       then Zadd(one, PackKey(session.value, pack.value), save.runId, save.now) else one;
            SaveRedis(r, save).indexes == two
  {
    if Truthy(save.meta.session) { PrefixesDiffer(save.meta); }
  }

  class RedisRunHistory {
    var runs: map<RunId, Run>
    var timeline: ZSet
    var indexes: map<string, ZSet>

    ghost function State(): Redis
      reads this
    {
      Redis(runs, timeline, indexes)
    }

    constructor ()
      ensures State() == RedisAfter([])
    {
      runs, timeline, indexes := map[], map[], map[];
    }

    /** True when the call raises. The writes are one pipeline. */
    method SaveRun(save: Save) returns (raised: bool)
      modifies this
      ensures State() == SaveRedis(old(State()), save) && raised == !save.Accepted()
    {
      if Blank(save.runId) || Blank(save.query) { return true; }
      PipelineIndexes(State(), save);
      runs := runs[save.runId := save.Record()];
      timeline := timeline[save.runId := save.now];
      var session, pack := save.meta.session, save.meta.pack;
      if Truthy(session) {
        indexes := Zadd(indexes, SessionKey(session.value), save.runId, save.now);
      }
      if Truthy(session) && Truthy(pack) {
        indexes := Zadd(indexes, PackKey(session.value, pack.value), save.runId, save.now);
      }
      return false;
    }

    /** The members of a sorted set, highest score first; ties in any order. */
    static method Rank(z: ZSet) returns (ids: seq<RunId>)
      ensures Ranks(z, ids)
      decreases |z|
    {
      if z == map[] { return []; }
      ghost var highest := HighestExists(z);
      var top :| top in z && forall id | id in z :: z[id] <= z[top];
      var rest := Rank(z - {top});
      RanksCons(z, top, rest);
      return [top] + rest;
    }

    /** `ZREVRANGE z 0 limit-1`. */
    static method ZRevRange(z: ZSet, limit: nat) returns (ids: seq<RunId>)
      ensures exists full :: Ranks(z, full) && ids == Take(full, limit)
    {
      var full := Rank(z);
      return Take(full, limit);
    }

    method FetchRuns(ids: seq<RunId>) returns (out: seq<Run>)
      ensures out == Fetch(runs, ids)
    {
      out := [];
      var i := |ids|;
      assert ids[|ids|..] == [];
      while i > 0
        invariant 0 <= i <= |ids| && out == Fetch(runs, ids[i..])
      {
        i := i - 1;
        assert ids[i..][1..] == ids[i + 1..];
        if ids[i] in runs { out := [runs[ids[i]]] + out; }
      }
      assert ids[0..] == ids;
    }

    method ListRuns(limit: int) returns (r: Result<seq<Run>, Error>)
      ensures if limit < 1 then r == Err(BadLimit)
              else r.Ok? && RedisAnswer(runs, timeline, limit, r.value)
    {
      if limit < 1 { return Err(BadLimit); }
      var ids := ZRevRange(timeline, limit);
      var out := FetchRuns(ids);
      return Ok(out);
    }

    method ListRunsBySession(s: string, limit: int) returns (r: Result<seq<Run>, Error>)
      ensures if Blank(s) then r == Err(BlankSession)
              else if limit < 1 then r == Err(BadLimit)
              else r.Ok? && RedisAnswer(runs, Members(State(), SessionKey(s)), limit, r.value)
    {
      if Blank(s) { return Err(BlankSession); }
      if limit < 1 { return Err(BadLimit); }
      var key := SessionKey(s);
      var ids := ZRevRange(if key in indexes then indexes[key] else map[], limit);
      var out := FetchRuns(ids);
      return Ok(out);
    }

    method GetPackVersionForSession(s: string, p: string) returns (version: Option<string>)
      ensures RedisVersion(State(), s, p, version)
    {
      if Blank(s) || p == "" {
        assert RedisRun(State(), s, p, []);
        return None;
      }
      var key := PackKey(s, p);
      var z := if key in indexes then indexes[key] else map[];
      if z == map[] {
        var listing := ListRunsBySession(s, FALLBACK_LIMIT);
        ghost var found := FirstRunOfPack(listing.value, p);
        assert RedisRun(State(), s, p, found);
        var runs := listing.value;
        assert runs[0..] == runs;
        for i := 0 to |runs|
          invariant FirstRunOfPack(runs[i..], p) == found
        {
          if runs[i].meta.pack == Some(p) { return runs[i].meta.version; }
          assert runs[i..][1..] == runs[i + 1..];
        }
        return None;
      }
      var ids := ZRevRange(z, 1);
      var out := FetchRuns(ids);
      assert RedisRun(State(), s, p, out);
      return Latest(out);
    }
  }

  lemma PrefixesDiffer(meta: Meta)
    requires Truthy(meta.session)
    ensures Truthy(meta.pack) ==> SessionKey(meta.session.value) != PackKey(meta.session.value, meta.pack.value)
  {
    if Truthy(meta.pack) {
      assert |SessionKey(meta.session.value)| < |PackKey(meta.session.value, meta.pack.value)|;
    }
  }

  /** The SQL backends; `guarded` tells Postgres, which checks its arguments, from SQLite. */
  class SqlRunHistory {
    const guarded: bool
    var table: Table

    constructor (guarded: bool)
      ensures this.guarded == guarded && table == SqlAfter([])
    {
      this.guarded, table := guarded, map[];
    }

    method SaveRun(save: Save) returns (raised: bool)
      modifies this
      ensures table == SaveSql(old(table), save) && raised == !save.Accepted()
    {
      if Blank(save.runId) || Blank(save.query) { return true; }
      table := table[save.runId := save.Record()];
      return false;
    }

    /** `ORDER BY created_at DESC`; ties in any order. */
    static method Sort(rows: set<Run>) returns (full: seq<Run>)
      ensures Orders(rows, full)
      decreases |rows|
    {
      if rows == {} { return []; }
      ghost var newest := NewestExists(rows);
      var top :| top in rows && forall r | r in rows :: r.createdAt <= top.createdAt;
      var rest := Sort(rows - {top});
      OrdersCons(rows, top, rest);
      return [top] + rest;
    }

    static method NewestFirst(rows: set<Run>, limit: nat) returns (out: seq<Run>)
      ensures SqlAnswer(rows, limit, out)
    {
      var full := Sort(rows);
      return Take(full, limit);
    }

    method ListRuns(limit: int) returns (r: Result<seq<Run>, Error>)
      ensures if limit < 1 then r == Err(BadLimit) else r.Ok? && SqlAnswer(AllRows(table), limit, r.value)
    {
      if limit < 1 { return Err(BadLimit); }
      var out := NewestFirst(AllRows(table), limit);
      return Ok(out);
    }

    method ListRunsBySession(s: string, limit: int) returns (r: Result<seq<Run>, Error>)
      ensures if Blank(s) then r == Err(BlankSession)
              else if limit < 1 then r == Err(BadLimit)
              else r.Ok? && SqlAnswer(SessionRows(table, s), limit, r.value)
    {
      if Blank(s) { return Err(BlankSession); }
      if limit < 1 { return Err(BadLimit); }
      var out := NewestFirst(SessionRows(table, s), limit);
      return Ok(out);
    }

    method GetPackVersionForSession(s: string, p: string) returns (version: Option<string>)
      ensures SqlVersion(table, s, p, guarded, version)
    {
      if guarded && (Blank(s) || p == "") {
        assert SqlRun(table, s, p, guarded, []);
        return None;
      }
      var out := NewestFirst(PackRows(table, s, p), 1);
      assert SqlRun(table, s, p, guarded, out);
      return Latest(out);
    }
  }

  lemma {:induction false} NewestExists(rows: set<Run>) returns (top: Run)
    requires rows != {}
    ensures top in rows && forall r | r in rows :: r.createdAt <= top.createdAt
    decreases |rows|
  {
    top :| top in rows;
    var rest := rows - {top};
    if rest != {} {
      var other := NewestExists(rest);
      if other.createdAt > top.createdAt { top := other; }
    }
    assert forall r | r in rows && r !in rest :: rows == rest + {r};
  }

  lemma OrdersCons(rows: set<Run>, top: Run, rest: seq<Run>)
    requires top in rows && (forall r | r in rows :: r.createdAt <= top.createdAt) && Orders(rows - {top}, rest)
    ensures Orders(rows, [top] + rest)
  {
    var full := [top] + rest;
    forall r ensures r in full <==> r in rows {
      assert r in full <==> r == top || r in rest;
    }
    forall i, j | 0 <= i < j < |full| ensures full[i] != full[j] && full[i].createdAt >= full[j].createdAt {
      assert full[j] == rest[j - 1] && rest[j - 1] in rest;
      if i > 0 { assert full[i] == rest[i - 1]; }
    }
  }
}
