/** The research agent: search, judge what was found, search again or summarise.

    Everything outside the agent is an oracle (`World`): what the model answers, what a search
    returns, what the connector fetches. Two budgets bound a run, the rounds of research and the
    steps of the graph. The theorems say which of the two ends a run, and what the findings,
    sources and references it accumulates look like on the way. */
module ResearchLoop {
  import opened Prelude

  datatype Reply<+T> = Raised | Says(value: T)

  /** A connector record: its keys and its values as text. */
  type Record = map<string, string>

  datatype Ref = Ref(id: string, title: Option<string>, url: Option<string>, snippet: string)

  /** A search result and the lines it splits into. */
  datatype Hit = Hit(text: string, lines: seq<string>)

  /** The assessor's answer: not a JSON object, or one that may hold a `sufficient` flag. */
  datatype Verdict = Unreadable | Judged(sufficient: Option<bool>)

  datatype Settings = Settings(maxRounds: nat, maxSteps: nat)

  /** What the outside answers in each round, counted from 0. The sub-queries are `None` when the
      answer was not a JSON list. */
  datatype World = World(
    query: string,
    expand: nat -> Reply<Option<seq<string>>>,
    search: Option<(nat, nat, string) -> Reply<Hit>>,
    connector: Option<nat -> seq<Record>>,
    judge: nat -> Reply<Verdict>,
    summary: Reply<string>)

  datatype State = State(findings: seq<string>, sources: seq<string>, refs: seq<Ref>, rounds: nat, sufficient: bool)

  datatype Stop = StepBudget | Failure
  datatype Node = Research | Validate | Summarize | Done | Stopped(reason: Stop)

  datatype Machine = Machine(node: Node, steps: nat, calls: nat, state: State)

  const START := Machine(Research, 0, 0, State([], [], [], 0, true))

  const SUB_QUERIES: nat := 3
  const SNIPPET_MAX_CHARS: nat := 500

  const ID_KEYS := ["id", "doc_id"]
  const TITLE_KEYS := ["title", "name"]
  const URL_KEYS := ["url", "link", "source"]
  const SNIPPET_KEYS := ["snippet", "text", "content"]

  // ---------------------------------------------------------------- references

  /** The first of the keys that holds something other than blanks, stripped. */
  function FirstText(r: Record, keys: seq<string>): Option<string> {
    if keys == [] then None
    else if keys[0] in r && !Blank(r[keys[0]]) then Some(Strip(r[keys[0]]))
    else FirstText(r, keys[1..])
  }

  /** The first of the keys that holds anything at all, as it is. */
  function FirstRaw(r: Record, keys: seq<string>): string {
    if keys == [] then ""
    else if keys[0] in r && r[keys[0]] != "" then r[keys[0]]
    else FirstRaw(r, keys[1..])
  }

  function Fallback(index: nat): string { "doc-" + Decimal(index) }

  function ToRef(r: Record, index: nat): Ref {
    var id := FirstText(r, ID_KEYS);
    var snippet := FirstText(r, SNIPPET_KEYS);
    Ref(if id.Some? then id.value else Fallback(index),
        FirstText(r, TITLE_KEYS),
        FirstText(r, URL_KEYS),
        if snippet.Some? then Truncate(snippet.value, SNIPPET_MAX_CHARS) else "")
  }

  function Label(title: Option<string>, url: Option<string>): string {
    match title
    case None => if url.Some? then url.value else ""
    case Some(t) => if url.Some? then t + " \U{2014} " + url.value else t
  }

  function Citation(ref: Ref): string {
    var about := Label(ref.title, ref.url);
    if about == "" then "[" + ref.id + "]" else "[" + ref.id + "] " + about
  }

  function Ids(refs: seq<Ref>): set<string> { set r | r in refs :: r.id }

  /** References so far, and the findings and sources of the round. */
  datatype Harvest = Harvest(refs: seq<Ref>, findings: seq<string>, sources: seq<string>)

  /** One record: skipped when its identifier is already taken. */
  function Take(h: Harvest, r: Record): Harvest {
    var ref := ToRef(r, |h.refs| + 1);
    if ref.id in Ids(h.refs) then h
    else
      var raw := FirstRaw(r, SNIPPET_KEYS);
      var text := if raw != "" then raw else ref.snippet;
      Harvest(h.refs + [ref],
              if text != "" then h.findings + [text] else h.findings,
              h.sources + [Citation(ref)])
  }

  function Collect(h: Harvest, records: seq<Record>): Harvest
    decreases records
  {
    if records == [] then h else Collect(Take(h, records[0]), records[1..])
  }

  // ---------------------------------------------------------------- searching

  /** The address a line of a search result names. */
  function SourceOf(line: string): Option<string> {
    var stripped := Strip(line);
    if "Source:" <= stripped && Strip(stripped[|"Source:"|..]) != ""
    then Some(Strip(stripped[|"Source:"|..]))
    else None
  }

  function SourcesIn(lines: seq<string>): seq<string> {
    if lines == [] then []
    else
      var before, last := SourcesIn(lines[..|lines| - 1]), SourceOf(lines[|lines| - 1]);
      if last.Some? then before + [last.value] else before
  }

  /** The sub-queries a round searches for: at most three, or the query itself. */
  function SubQueries(w: World, answer: Option<seq<string>>): (subs: seq<string>)
    ensures |subs| <= SUB_QUERIES
  {
    var all := if answer.Some? then answer.value else [w.query];
    if |all| <= SUB_QUERIES then all else all[..SUB_QUERIES]
  }

  /** What the first `n` searches of a round add, or that one of them raised. */
  function Searched(w: World, round: nat, subs: seq<string>, n: nat, h: Harvest): Reply<Harvest>
    requires n <= |subs|
  {
    if w.search.None? || n == 0 then Says(h)
    else
      match Searched(w, round, subs, n - 1, h)
      case Raised => Raised
      case Says(before) =>
        match w.search.value(round, n - 1, subs[n - 1])
        case Raised => Raised
        case Says(hit) =>
          Says(before.(findings := before.findings + [hit.text], sources := before.sources + SourcesIn(hit.lines)))
  }

  /** Python's `list(dict.fromkeys(s))`: the first occurrence of each element, in order. */
  function FromKeys(s: seq<string>): seq<string> {
    if s == [] then []
    else
      var before, last := FromKeys(s[..|s| - 1]), s[|s| - 1];
      if last in before then before else before + [last]
  }

  // ---------------------------------------------------------------- the nodes

  function AfterResearch(w: World, s: State): Reply<State> {
    match w.expand(s.rounds)
    case Raised => Raised
    case Says(answer) =>
      var subs := SubQueries(w, answer);
      match Searched(w, s.rounds, subs, |subs|, Harvest(s.refs, [], []))
      case Raised => Raised
      case Says(found) =>
        var h := if w.connector.Some? then Collect(found, w.connector.value(s.rounds)) else found;
        Says(s.(findings := s.findings + h.findings,
                sources := FromKeys(s.sources + h.sources),
                refs := h.refs,
                rounds := s.rounds + 1))
  }

  /** Round `s.rounds - 1` has just been searched. The model is not asked about nothing. */
  function AfterValidate(w: World, s: State): Reply<State>
    requires s.rounds >= 1
  {
    if s.findings == [] then Says(s.(sufficient := false))
    else
      match w.judge(s.rounds - 1)
      case Raised => Raised
      case Says(Unreadable) => Says(s.(sufficient := false))
      case Says(Judged(flag)) => Says(s.(sufficient := flag.None? || flag.value))
  }

  function RunResearch(w: World, m: Machine): Machine {
    match AfterResearch(w, m.state)
    case Raised => Machine(Stopped(Failure), m.steps + 1, m.calls + 1, m.state)
    case Says(s) => Machine(Validate, m.steps + 1, m.calls + 1, s)
  }

  function RunValidate(c: Settings, w: World, m: Machine): Machine
    requires m.state.rounds >= 1
  {
    var asked := if m.state.findings == [] then 0 else 1;
    match AfterValidate(w, m.state)
    case Raised => Machine(Stopped(Failure), m.steps + 1, m.calls + asked, m.state)
    case Says(s) =>
      var again := !s.sufficient && s.rounds < c.maxRounds;
      Machine(if again then Research else Summarize, m.steps + 1, m.calls + asked, s)
  }

  function RunSummarize(w: World, m: Machine): Machine {
    Machine(if w.summary.Raised? then Stopped(Failure) else Done, m.steps + 1, m.calls + 1, m.state)
  }

  /** One node of the graph. The step is counted before anything else. */
  function Next(c: Settings, w: World, m: Machine): Machine
    requires m.node.Validate? ==> m.state.rounds >= 1
  {
    if Final(m) then m
    else if m.steps + 1 > c.maxSteps then m.(node := Stopped(StepBudget))
    else if m.node.Research? then RunResearch(w, m)
    else if m.node.Validate? then RunValidate(c, w, m)
    else RunSummarize(w, m)
  }

  /** The machine after `n` nodes. */
  function At(c: Settings, w: World, n: nat): (m: Machine)
    ensures m.node.Validate? ==> m.state.rounds >= 1
  {
    if n == 0 then START else Next(c, w, At(c, w, n - 1))
  }

  predicate Final(m: Machine) { m.node.Done? || m.node.Stopped? }

  // ---------------------------------------------------------------- duplicates

  predicate NoDuplicates(s: seq<string>) { forall i, j | 0 <= i < j < |s| :: s[i] != s[j] }

  predicate DistinctIds(refs: seq<Ref>) { forall i, j | 0 <= i < j < |refs| :: refs[i].id != refs[j].id }

  /** Where an element first stands. */
  function FirstIndex(s: seq<string>, x: string): (i: nat)
    requires x in s
    ensures i < |s| && s[i] == x && x !in s[..i]
  {
    if s[0] == x then 0 else 1 + FirstIndex(s[1..], x)
  }

  /** `FromKeys` keeps each element once, loses none, and orders them by first occurrence. */
  lemma {:induction false} FromKeysKeepsFirsts(s: seq<string>)
    ensures var r := FromKeys(s);
            && NoDuplicates(r)
            && (forall x :: x in r <==> x in s)
            && (forall i, j | 0 <= i < j < |r| :: FirstIndex(s, r[i]) < FirstIndex(s, r[j]))
  {
    if s != [] {
      var front, last := s[..|s| - 1], s[|s| - 1];
      assert s == front + [last];
      FromKeysKeepsFirsts(front);
      var r := FromKeys(s);
      forall x | x in front
        ensures FirstIndex(s, x) == FirstIndex(front, x)
      {
        FirstIndexInFront(front, last, x);
      }
      if last !in front {
        assert FirstIndex(s, last) == |front|;
      }
    }
  }

  lemma FirstIndexInFront(front: seq<string>, last: string, x: string)
    requires x in front
    ensures FirstIndex(front + [last], x) == FirstIndex(front, x)
  {
    var s, i, j := front + [last], FirstIndex(front + [last], x), FirstIndex(front, x);
    assert s[..j] == front[..j];
    assert s[j] == x;
    assert i <= j;
    assert front[i] == x;
  }

  lemma {:induction false} FromKeysLeavesAlone(s: seq<string>)
    requires NoDuplicates(s)
    ensures FromKeys(s) == s
  {
    if s != [] {
      FromKeysLeavesAlone(s[..|s| - 1]);
      assert s == s[..|s| - 1] + [s[|s| - 1]];
    }
  }

  /** On a list that already has no duplicates it only appends. */
  lemma {:induction false} FromKeysAppends(s: seq<string>, t: seq<string>)
    requires NoDuplicates(s)
    ensures s <= FromKeys(s + t)
    decreases t
  {
    if t == [] {
      assert s + t == s;
      FromKeysLeavesAlone(s);
    } else {
      assert (s + t)[..|s + t| - 1] == s + t[..|t| - 1];
      FromKeysAppends(s, t[..|t| - 1]);
    }
  }

  // ---------------------------------------------------------------- what a round adds

  /** Nothing is removed or reordered. */
  predicate Grows(s: State, t: State) {
    s.findings <= t.findings && s.sources <= t.sources && s.refs <= t.refs
  }

  predicate Tidy(s: State) { NoDuplicates(s.sources) && DistinctIds(s.refs) }

  lemma {:induction false} CollectKeeps(h: Harvest, records: seq<Record>)
    requires DistinctIds(h.refs)
    ensures h.refs <= Collect(h, records).refs && DistinctIds(Collect(h, records).refs)
    decreases records
  {
    if records != [] {
      var next := Take(h, records[0]);
      forall i | 0 <= i < |h.refs|
        ensures h.refs[i].id in Ids(h.refs)
      {
        assert h.refs[i] in h.refs;
      }
      CollectKeeps(next, records[1..]);
    }
  }

  lemma {:induction false} SearchedLeavesRefs(w: World, round: nat, subs: seq<string>, n: nat, h: Harvest)
    requires n <= |subs|
    ensures Searched(w, round, subs, n, h).Says? ==> Searched(w, round, subs, n, h).value.refs == h.refs
  {
    if n > 0 {
      SearchedLeavesRefs(w, round, subs, n - 1, h);
    }
  }

  lemma ResearchKeeps(w: World, s: State)
    requires Tidy(s) && AfterResearch(w, s).Says?
    ensures Grows(s, AfterResearch(w, s).value) && Tidy(AfterResearch(w, s).value)
  {
    var subs := SubQueries(w, w.expand(s.rounds).value);
    var start := Harvest(s.refs, [], []);
    var found := Searched(w, s.rounds, subs, |subs|, start).value;
    SearchedLeavesRefs(w, s.rounds, subs, |subs|, start);
    var h := if w.connector.Some? then Collect(found, w.connector.value(s.rounds)) else found;
    if w.connector.Some? {
      CollectKeeps(found, w.connector.value(s.rounds));
    }
    FromKeysAppends(s.sources, h.sources);
    FromKeysKeepsFirsts(s.sources + h.sources);
  }

  lemma NextKeeps(c: Settings, w: World, m: Machine)
    requires m.node.Validate? ==> m.state.rounds >= 1
    requires Tidy(m.state)
    ensures Grows(m.state, Next(c, w, m).state) && Tidy(Next(c, w, m).state)
  {
    if m.node.Research? && AfterResearch(w, m.state).Says? {
      ResearchKeeps(w, m.state);
    }
  }

  /** Over a whole run, whatever the oracle answers: findings, sources and references are only
      ever appended to, no source is listed twice and no two references share an identifier. */
  lemma {:induction false} RunsOnlyAppend(c: Settings, w: World, i: nat, j: nat)
    requires i <= j
    ensures Tidy(At(c, w, i).state) && Tidy(At(c, w, j).state)
    ensures Grows(At(c, w, i).state, At(c, w, j).state)
    decreases j
  {
    if i < j {
      RunsOnlyAppend(c, w, i, j - 1);
      NextKeeps(c, w, At(c, w, j - 1));
    } else if j > 0 {
      RunsOnlyAppend(c, w, j - 1, j - 1);
      NextKeeps(c, w, At(c, w, j - 1));
    }
  }

  // ---------------------------------------------------------------- which records are kept

  /** The identifiers records bring along themselves. */
  function Explicit(records: seq<Record>): set<string> {
    set r | r in records && FirstText(r, ID_KEYS).Some? :: FirstText(r, ID_KEYS).value
  }

  lemma FallbackInjective(a: nat, b: nat)
    requires Fallback(a) == Fallback(b)
    ensures a == b
  {
    assert Fallback(a)[4..] == Decimal(a) && Fallback(b)[4..] == Decimal(b);
    DecimalInjective(a, b);
  }

  predicate IsFallback(id: string, n: nat) { exists j: nat | 1 <= j <= n :: id == Fallback(j) }

  /** Every identifier held was brought along or made up for its place, and none that was brought
      along is missing. */
  predicate Accounts(refs: seq<Ref>, brought: set<string>) {
    && brought <= Ids(refs)
    && forall id | id in Ids(refs) :: id in brought || IsFallback(id, |refs|)
  }

  lemma IdsGrow(refs: seq<Ref>, ref: Ref)
    ensures Ids(refs + [ref]) == Ids(refs) + {ref.id}
  {
    var next := refs + [ref];
    assert ref in next && forall x | x in refs :: x in next;
  }

  lemma TakeAccounts(h: Harvest, r: Record, brought: set<string>)
    requires Accounts(h.refs, brought)
    ensures Accounts(Take(h, r).refs, brought + Explicit([r]))
  {
    var ref := ToRef(r, |h.refs| + 1);
    var next := Take(h, r).refs;
    assert Explicit([r]) <= {ref.id};
    assert FirstText(r, ID_KEYS).Some? ==> r in [r];
    assert ref.id in Explicit([r]) || ref.id == Fallback(|h.refs| + 1);
    assert Ids(next) == Ids(h.refs) + {ref.id} by { IdsGrow(h.refs, ref); }
    forall id | id in Ids(h.refs) && IsFallback(id, |h.refs|)
      ensures IsFallback(id, |next|)
    {
      var j: nat :| 1 <= j <= |h.refs| && id == Fallback(j);
      assert 1 <= j <= |next|;
    }
  }

  lemma {:induction false} CollectAccounts(h: Harvest, records: seq<Record>, brought: set<string>)
    requires Accounts(h.refs, brought)
    ensures Accounts(Collect(h, records).refs, brought + Explicit(records))
    decreases records
  {
    if records == [] {
      assert brought + Explicit(records) == brought;
    } else {
      var r := records[0];
      TakeAccounts(h, r, brought);
      CollectAccounts(Take(h, r), records[1..], brought + Explicit([r]));
      assert records == [r] + records[1..];
      assert Explicit(records) == Explicit([r]) + Explicit(records[1..]);
    }
  }

  const NOTHING := Harvest([], [], [])

  /** The identifier made up for the next place is held already only if some record brought it. */
  lemma NextFallbackHeldIff(refs: seq<Ref>, brought: set<string>)
    requires Accounts(refs, brought)
    ensures Fallback(|refs| + 1) in Ids(refs) <==> Fallback(|refs| + 1) in brought
  {
    var id := Fallback(|refs| + 1);
    if IsFallback(id, |refs|) {
      var j: nat :| 1 <= j <= |refs| && id == Fallback(j);
      FallbackInjective(j, |refs| + 1);
    }
  }

  lemma NamelessTaken(h: Harvest, r: Record)
    requires FirstText(r, ID_KEYS).None?
    ensures Take(h, r).refs == h.refs + [ToRef(r, |h.refs| + 1)] <==> Fallback(|h.refs| + 1) !in Ids(h.refs)
    ensures Take(h, r) == h <==> Fallback(|h.refs| + 1) in Ids(h.refs)
  {
    assert ToRef(r, |h.refs| + 1).id == Fallback(|h.refs| + 1);
    assert |h.refs + [ToRef(r, |h.refs| + 1)]| == |h.refs| + 1;
  }

  lemma NextNameHeldIff(records: seq<Record>)
    ensures var refs := Collect(NOTHING, records).refs;
            Fallback(|refs| + 1) in Ids(refs) <==> Fallback(|refs| + 1) in Explicit(records)
  {
    assert Accounts(NOTHING.refs, {});
    CollectAccounts(NOTHING, records, {});
    assert {} + Explicit(records) == Explicit(records);
    NextFallbackHeldIff(Collect(NOTHING, records).refs, Explicit(records));
  }

  /** A record without an identifier is numbered by its place, and kept unless an earlier record
      brought that very name along. Other records without an identifier never stand in its way. */
  lemma NamelessRecordKeptIff(records: seq<Record>, r: Record)
    requires FirstText(r, ID_KEYS).None?
    ensures var h := Collect(NOTHING, records);
            && (Take(h, r).refs == h.refs + [ToRef(r, |h.refs| + 1)]
                <==> Fallback(|h.refs| + 1) !in Explicit(records))
            && (Take(h, r) == h <==> Fallback(|h.refs| + 1) in Explicit(records))
  {
    NextNameHeldIff(records);
    NamelessTaken(Collect(NOTHING, records), r);
  }

  /** Everything the connector returned in the first rounds. */
  function Fetched(w: World, rounds: nat): seq<Record> {
    if rounds == 0 || w.connector.None? then []
    else Fetched(w, rounds - 1) + w.connector.value(rounds - 1)
  }

  lemma {:induction false} CollectAppends(h: Harvest, a: seq<Record>, b: seq<Record>)
    ensures Collect(h, a + b) == Collect(Collect(h, a), b)
    decreases a
  {
    if a == [] {
      assert a + b == b;
    } else {
      assert (a + b)[1..] == a[1..] + b;
      CollectAppends(Take(h, a[0]), a[1..], b);
    }
  }

  lemma {:induction false} RefsDependOnRefs(h: Harvest, k: Harvest, records: seq<Record>)
    requires h.refs == k.refs
    ensures Collect(h, records).refs == Collect(k, records).refs
    decreases records
  {
    if records != [] {
      RefsDependOnRefs(Take(h, records[0]), Take(k, records[0]), records[1..]);
    }
  }

  predicate FromOnePass(w: World, s: State) {
    s.refs == Collect(NOTHING, Fetched(w, s.rounds)).refs
  }

  /** The references of a run are those of one pass over all the connector returned, however it
      was spread over rounds. */
  lemma {:induction false} RefsOfRun(c: Settings, w: World, n: nat)
    ensures FromOnePass(w, At(c, w, n).state)
  {
    if n == 0 {
      assert At(c, w, 0).state == START.state;
    } else {
      RefsOfRun(c, w, n - 1);
      NextFromOnePass(c, w, At(c, w, n - 1));
    }
  }

  lemma NextFromOnePass(c: Settings, w: World, m: Machine)
    requires m.node.Validate? ==> m.state.rounds >= 1
    requires FromOnePass(w, m.state)
    ensures FromOnePass(w, Next(c, w, m).state)
  {
    var s := Next(c, w, m).state;
    if s.refs == m.state.refs && s.rounds == m.state.rounds {
    } else {
      assert AfterResearch(w, m.state) == Says(s);
      RoundAddsFetched(w, m.state);
    }
  }

  function RecordsOf(w: World, round: nat): seq<Record> {
    if w.connector.Some? then w.connector.value(round) else []
  }

  /** The references of a round depend on those before it and on the records alone. */
  lemma RoundRefs(w: World, s: State)
    requires AfterResearch(w, s).Says?
    ensures AfterResearch(w, s).value.rounds == s.rounds + 1
    ensures AfterResearch(w, s).value.refs == Collect(Harvest(s.refs, [], []), RecordsOf(w, s.rounds)).refs
  {
    var subs := SubQueries(w, w.expand(s.rounds).value);
    var start := Harvest(s.refs, [], []);
    SearchedLeavesRefs(w, s.rounds, subs, |subs|, start);
    var found := Searched(w, s.rounds, subs, |subs|, start).value;
    RefsDependOnRefs(found, start, RecordsOf(w, s.rounds));
  }

  lemma FetchedGrows(w: World, rounds: nat)
    ensures Fetched(w, rounds + 1) == Fetched(w, rounds) + RecordsOf(w, rounds)
  {
  }

  lemma RoundAddsFetched(w: World, s: State)
    requires AfterResearch(w, s).Says?
    requires FromOnePass(w, s)
    ensures FromOnePass(w, AfterResearch(w, s).value)
  {
    var fetched, records := Fetched(w, s.rounds), RecordsOf(w, s.rounds);
    RoundRefs(w, s);
    FetchedGrows(w, s.rounds);
    CollectAppends(NOTHING, fetched, records);
    RefsDependOnRefs(Harvest(s.refs, [], []), Collect(NOTHING, fetched), records);
  }

  // ---------------------------------------------------------------- how a run ends

  /** The state once round `k` has been searched, as if no step were ever counted. */
  function AfterRound(w: World, k: nat): (r: Reply<State>)
    requires k >= 1
    ensures r.Says? ==> r.value.rounds == k
  {
    if k == 1 then AfterResearch(w, START.state)
    else
      match AfterRound(w, k - 1)
      case Raised => Raised
      case Says(s) => AfterResearch(w, s.(sufficient := false))
  }

  function Assessed(w: World, k: nat): (r: Reply<State>)
    requires k >= 1
    ensures r.Says? ==> r.value.rounds == k
  {
    match AfterRound(w, k)
    case Raised => Raised
    case Says(s) => AfterValidate(w, s)
  }

  /** Round `k` is the last one by itself: its findings suffice, or a reply failed. */
  predicate Settles(w: World, k: nat)
    requires k >= 1
  {
    Assessed(w, k).Raised? || Assessed(w, k).value.sufficient
  }

  /** The rounds a run needs: up to the first that settles it, or all it is allowed. */
  function RoundsNeeded(c: Settings, w: World, k: nat): (r: nat)
    requires 1 <= k <= c.maxRounds
    ensures k <= r <= c.maxRounds
    ensures forall j | k <= j < r :: !Settles(w, j)
    ensures r == c.maxRounds || Settles(w, r)
    decreases c.maxRounds - k
  {
    if k == c.maxRounds || Settles(w, k) then k else RoundsNeeded(c, w, k + 1)
  }

  /** No reply the run asks for fails. */
  predicate Quiet(w: World, rounds: nat)
    requires rounds >= 1
  {
    Assessed(w, rounds).Says? && w.summary.Says?
  }

  /** `k` is the number of rounds the run needs. */
  predicate Needs(c: Settings, w: World, k: nat) {
    && 1 <= k <= c.maxRounds
    && (forall j | 1 <= j < k :: !Settles(w, j))
    && (k == c.maxRounds || Settles(w, k))
  }

  predicate AtResearch(w: World, k: nat, m: Machine) {
    var r := m.state.rounds;
    r < k && m.steps == 2 * r && (if r == 0 then m.state == START.state else Assessed(w, r) == Says(m.state))
  }

  predicate AtValidate(w: World, k: nat, m: Machine) {
    1 <= m.state.rounds <= k && m.steps == 2 * m.state.rounds - 1 && AfterRound(w, m.state.rounds) == Says(m.state)
  }

  /** Where a machine stands relative to a run of `k` rounds. */
  predicate Along(c: Settings, w: World, k: nat, m: Machine)
    requires k >= 1
  {
    && m.steps <= c.maxSteps
    && m.state.rounds <= k
    && match m.node
       case Research => AtResearch(w, k, m)
       case Validate => AtValidate(w, k, m)
       case Summarize => m.steps == 2 * k && Assessed(w, k) == Says(m.state)
       case Done => m.steps == 2 * k + 1 && Assessed(w, k) == Says(m.state) && w.summary.Says?
       case Stopped(StepBudget) => m.steps == c.maxSteps < 2 * k + 1
       case Stopped(Failure) => !Quiet(w, k) && m.steps <= 2 * k + 1
  }

  /** A run that is back at research has the state the next round starts from. */
  lemma RoundFollows(w: World, s: State)
    requires if s.rounds == 0 then s == START.state else Assessed(w, s.rounds) == Says(s) && !s.sufficient
    ensures AfterRound(w, s.rounds + 1) == AfterResearch(w, s)
  {
    if s.rounds > 0 {
      var r := s.rounds;
      var before := AfterRound(w, r);
      assert before.Says? && AfterValidate(w, before.value) == Says(s);
      assert s == before.value.(sufficient := false);
      assert AfterRound(w, r + 1) == AfterResearch(w, before.value.(sufficient := false));
    }
  }

  lemma ResearchStaysAlong(c: Settings, w: World, k: nat, m: Machine)
    requires Needs(c, w, k) && AtResearch(w, k, m)
    ensures var n := RunResearch(w, m);
            n.steps == m.steps + 1 && n.state.rounds <= k
            && if n.node.Validate? then AtValidate(w, k, n) else n.node == Stopped(Failure) && !Quiet(w, k)
  {
    var r := m.state.rounds;
    assert r > 0 ==> !Settles(w, r);
    RoundFollows(w, m.state);
    if AfterResearch(w, m.state).Raised? {
      assert Assessed(w, r + 1).Raised?;
      assert Settles(w, r + 1);
    }
  }

  lemma ValidateStaysAlong(c: Settings, w: World, k: nat, m: Machine)
    requires Needs(c, w, k) && AtValidate(w, k, m)
    ensures var n := RunValidate(c, w, m);
            && n.steps == m.steps + 1
            && n.state.rounds <= k
            && (n.node.Research? ==> AtResearch(w, k, n))
            && (n.node.Summarize? ==> n.steps == 2 * k && Assessed(w, k) == Says(n.state))
            && (n.node == Stopped(Failure) ==> !Quiet(w, k))
            && (n.node.Research? || n.node.Summarize? || n.node == Stopped(Failure))
  {
    var r := m.state.rounds;
    var assessed := Assessed(w, r);
    assert assessed == AfterValidate(w, m.state);
    assert r < k ==> !Settles(w, r);
    assert assessed.Raised? ==> Settles(w, r);
  }

  lemma NextStaysAlong(c: Settings, w: World, k: nat, m: Machine)
    requires Needs(c, w, k) && Along(c, w, k, m)
    ensures Along(c, w, k, Next(c, w, m))
  {
    if m.node.Research? {
      ResearchStaysAlong(c, w, k, m);
    } else if m.node.Validate? {
      ValidateStaysAlong(c, w, k, m);
    }
  }

  lemma {:induction false} RunsStayAlong(c: Settings, w: World, k: nat, n: nat)
    requires Needs(c, w, k)
    ensures Along(c, w, k, At(c, w, n))
    ensures Final(At(c, w, n)) || At(c, w, n).steps == n
  {
    if n == 0 {
      assert At(c, w, 0) == START;
      assert AtResearch(w, k, START);
    } else {
      RunsStayAlong(c, w, k, n - 1);
      NextStaysAlong(c, w, k, At(c, w, n - 1));
      NextCounts(c, w, At(c, w, n - 1));
    }
  }

  /** A node that runs is counted, and asks the model once, unless it would assess nothing. */
  lemma NextCounts(c: Settings, w: World, m: Machine)
    requires m.node.Validate? ==> m.state.rounds >= 1
    ensures Final(Next(c, w, m)) || Next(c, w, m).steps == m.steps + 1
    ensures var runs := !Final(m) && m.steps < c.maxSteps;
            var asks := runs && !(m.node.Validate? && m.state.findings == []);
            && Next(c, w, m).steps == (if runs then m.steps + 1 else m.steps)
            && Next(c, w, m).calls == (if asks then m.calls + 1 else m.calls)
  {}

  /** The oracle calls for another round: nothing was found so far, or the assessor's answer could not
      be read or says that the findings do not suffice. */
  predicate Insufficient(w: World, k: nat)
    requires k >= 1
  {
    && AfterRound(w, k).Says?
    && (AfterRound(w, k).value.findings == []
        || w.judge(k - 1) == Says(Unreadable) || w.judge(k - 1) == Says(Judged(Some(false))))
  }

  /** There are findings, and the assessor says or lets it stand that they suffice. */
  predicate Enough(w: World, k: nat)
    requires k >= 1
  {
    && AfterRound(w, k).Says? && AfterRound(w, k).value.findings != []
    && (w.judge(k - 1) == Says(Judged(Some(true))) || w.judge(k - 1) == Says(Judged(None)))
  }

  /** A reply of the first `k` rounds fails. */
  predicate Fails(w: World, k: nat)
    requires k >= 1
  {
    AfterRound(w, k).Raised? || (AfterRound(w, k).value.findings != [] && w.judge(k - 1).Raised?)
  }

  lemma SettlesIff(w: World, k: nat)
    requires k >= 1
    ensures Settles(w, k) <==> Enough(w, k) || Fails(w, k)
    ensures !Settles(w, k) <==> Insufficient(w, k)
  {
    if AfterRound(w, k).Says? && w.judge(k - 1).Says? && w.judge(k - 1).value.Judged? {
      var flag := w.judge(k - 1).value.sufficient;
      assert flag.Some? ==> flag == Some(flag.value);
    }
  }

  /** Where a run goes from a round's assessment. */
  lemma VerdictDecides(c: Settings, w: World, n: nat)
    requires c.maxRounds >= 1 && At(c, w, n).node.Validate? && At(c, w, n).steps < c.maxSteps
    ensures var m, next := At(c, w, n), At(c, w, n + 1).node;
            var judged := if m.state.findings == [] then Says(Unreadable) else w.judge(m.state.rounds - 1);
            if judged.Raised? then next == Stopped(Failure)
            else if judged.value == Unreadable || judged.value == Judged(Some(false))
            then next == if m.state.rounds < c.maxRounds then Research else Summarize
            else next == Summarize
  {
    var m := At(c, w, n);
    assert At(c, w, n + 1) == RunValidate(c, w, m);
  }

  /** A run needs `k` rounds, between one and the maximum, and is over after `2k + 1` nodes. The
      oracle calls for another round after each but the last, which finds enough or fails unless it is
      the maximum. The run is done exactly when the step budget has room for the rounds and no reply
      failed, and then with the findings of those `k` rounds; when only the room was missing, the
      budget stopped it. */
  lemma RunEnds(c: Settings, w: World, n: nat)
    requires c.maxRounds >= 1 && n >= 2 * RoundsNeeded(c, w, 1) + 1
    ensures var k, m := RoundsNeeded(c, w, 1), At(c, w, n);
            && 1 <= k <= c.maxRounds
            && (forall j | 1 <= j < k :: Insufficient(w, j))
            && (k == c.maxRounds || Enough(w, k) || Fails(w, k))
            && Final(m)
            && (m.node.Done? <==> 2 * k + 1 <= c.maxSteps && Quiet(w, k))
            && (m.node.Done? ==> Assessed(w, k) == Says(m.state) && m.steps == 2 * k + 1)
            && (Quiet(w, k) && 2 * k + 1 > c.maxSteps ==> m.node == Stopped(StepBudget))
            && (Quiet(w, k) <==> !Fails(w, k) && w.summary.Says?)
  {
    var k := RoundsNeeded(c, w, 1);
    RunsStayAlong(c, w, k, n);
    forall j | 1 <= j <= k ensures Settles(w, j) <==> Enough(w, j) || Fails(w, j)
                           ensures !Settles(w, j) <==> Insufficient(w, j)
    {
      SettlesIff(w, j);
    }
  }

  /** The model is asked at most once per node: at most twice a round and once to summarise. */
  lemma CallsAreBounded(c: Settings, w: World, n: nat)
    requires c.maxRounds >= 1
    ensures var k, m := RoundsNeeded(c, w, 1), At(c, w, n);
            m.calls <= m.steps <= c.maxSteps && m.calls <= 2 * k + 1 && m.state.rounds <= k
  {
    RunsStayAlong(c, w, RoundsNeeded(c, w, 1), n);
    CallsWithinSteps(c, w, n);
  }

  lemma {:induction false} CallsWithinSteps(c: Settings, w: World, n: nat)
    ensures At(c, w, n).calls <= At(c, w, n).steps
  {
    if n > 0 {
      CallsWithinSteps(c, w, n - 1);
      NextCounts(c, w, At(c, w, n - 1));
    }
  }

  // ---------------------------------------------------------------- the research node as it runs

  /** The addresses of a search result, line by line. */
  method CiteLines(lines: seq<string>) returns (urls: seq<string>)
    ensures urls == SourcesIn(lines)
  {
    urls := [];
    for i := 0 to |lines|
      invariant urls == SourcesIn(lines[..i])
    {
      assert lines[..i + 1][..i] == lines[..i];
      var stripped := Strip(lines[i]);
      if "Source:" <= stripped {
        var url := Strip(stripped[|"Source:"|..]);
        if url != "" {
          urls := urls + [url];
        }
      }
    }
    assert lines[..|lines|] == lines;
  }

  lemma {:induction false} FailedSearchEndsRound(w: World, round: nat, subs: seq<string>, i: nat, n: nat, h: Harvest)
    requires i <= n <= |subs| && Searched(w, round, subs, i, h).Raised?
    ensures Searched(w, round, subs, n, h).Raised?
    decreases n
  {
    if i < n {
      FailedSearchEndsRound(w, round, subs, i, n - 1, h);
    }
  }

  method NodeResearch(w: World, s: State) returns (r: Reply<State>)
    ensures r == AfterResearch(w, s)
  {
    var answer := w.expand(s.rounds);
    if answer.Raised? {
      return Raised;
    }
    var subs := SubQueries(w, answer.value);
    ghost var start := Harvest(s.refs, [], []);
    var findings: seq<string>, sources: seq<string> := [], [];
    if w.search.Some? {
      for i := 0 to |subs|
        invariant Searched(w, s.rounds, subs, i, start) == Says(Harvest(s.refs, findings, sources))
      {
        var hit := w.search.value(s.rounds, i, subs[i]);
        if hit.Raised? {
          FailedSearchEndsRound(w, s.rounds, subs, i + 1, |subs|, start);
          return Raised;
        }
        findings := findings + [hit.value.text];
        var urls := CiteLines(hit.value.lines);
        sources := sources + urls;
      }
    }
    var refs: seq<Ref> := [];
    if w.connector.Some? {
      var records := w.connector.value(s.rounds);
      refs, findings, sources := AddRecords(s.refs, findings, sources, records);
    } else {
      assert s.refs + refs == s.refs;
    }
    return Says(s.(findings := s.findings + findings,
                   sources := FromKeys(s.sources + sources),
                   refs := s.refs + refs,
                   rounds := s.rounds + 1));
  }

  lemma TakeNew(h: Harvest, r: Record, ref: Ref, text: string)
    requires ref == ToRef(r, |h.refs| + 1) && ref.id !in Ids(h.refs)
    requires text == if FirstRaw(r, SNIPPET_KEYS) != "" then FirstRaw(r, SNIPPET_KEYS) else ref.snippet
    ensures Take(h, r).refs == h.refs + [ref]
    ensures Take(h, r).findings == if text != "" then h.findings + [text] else h.findings
    ensures Take(h, r).sources == h.sources + [Citation(ref)]
  {
  }

  /** The loop over the records, with the set of identifiers it keeps beside the references. */
  method AddRecords(held: seq<Ref>, findings: seq<string>, sources: seq<string>, records: seq<Record>)
    returns (refs: seq<Ref>, found: seq<string>, cited: seq<string>)
    ensures Harvest(held + refs, found, cited) == Collect(Harvest(held, findings, sources), records)
  {
    refs, found, cited := [], findings, sources;
    var seen := Ids(held);
    assert held + refs == held;
    for i := 0 to |records|
      invariant seen == Ids(held + refs)
      invariant Collect(Harvest(held + refs, found, cited), records[i..])
             == Collect(Harvest(held, findings, sources), records)
    {
      assert records[i..][1..] == records[i + 1..];
      var record := records[i];
      var ref := ToRef(record, |held| + |refs| + 1);
      ghost var h := Harvest(held + refs, found, cited);
      assert Collect(h, records[i..]) == Collect(Take(h, record), records[i + 1..]);
      if ref.id in seen {
        continue;
      }
      assert held + (refs + [ref]) == held + refs + [ref];
      IdsGrow(held + refs, ref);
      seen := seen + {ref.id};
      refs := refs + [ref];
      var raw := FirstRaw(record, SNIPPET_KEYS);
      var text := if raw != "" then raw else ref.snippet;
      if text != "" {
        found := found + [text];
      }
      cited := cited + [Citation(ref)];
      TakeNew(h, record, ref, text);
    }
  }
}
