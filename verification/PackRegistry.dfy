/** The versioned pack registry: `register`, `set_weights` and `get`. */
module PackRegistry {
  import opened Prelude
  import WeightedRouting

  type PackId = string
  type Version = string

  /** A pack class with the attributes the registry reads off it. `id` is its identity. */
  datatype PackClass = PackClass(id: nat, packId: PackId, name: string, description: string, version: Version)

  datatype PackVersion = PackVersion(version: Version, cls: PackClass, weight: real)

  type Versions = seq<PackVersion>
  type Table = map<PackId, Versions>

  datatype Error = MissingAttribute | UnknownPack | UnknownVersion | NegativeWeight | NoPositiveWeight

  /** One entry of the `weights` dictionary, in its iteration order. */
  type Items = seq<(Version, real)>

  /** How `get` chooses when no version is asked for: the affinity key's digest prefix, or a
      random draw, which never takes a version of weight zero. */
  datatype Choice = Sticky(prefix: nat) | Random(index: nat)

  // ---------------------------------------------------------------- register

  function Index(vs: Versions, v: Version): (r: Option<nat>)
    ensures r.Some? ==> r.value < |vs| && vs[r.value].version == v
    ensures r.None? ==> forall pv | pv in vs :: pv.version != v
  {
    if vs == [] then None
    else if vs[0].version == v then Some(0)
    else match Index(vs[1..], v) case Some(i) => Some(i + 1) case None => None
  }

  function Upsert(vs: Versions, pv: PackVersion): Versions {
    match Index(vs, pv.version)
    case Some(i) => vs[i := pv]
    case None => vs + [pv]
  }

  function Register(t: Table, cls: PackClass): Result<Table, Error> {
    if cls.packId == "" || cls.name == "" || cls.description == "" then Err(MissingAttribute)
    else
      var pv := PackVersion(cls.version, cls, 1.0);
      Ok(t[cls.packId := if cls.packId in t then Upsert(t[cls.packId], pv) else [pv]])
  }

  // ---------------------------------------------------------------- set_weights

  /** Applies the items one by one and stops at the first bad one: what was applied stays. */
  function ApplyWeights(vs: Versions, items: Items): (Versions, Option<Error>)
    decreases |items|
  {
    if items == [] then (vs, None)
    else
      var (v, w) := items[0];
      if w < 0.0 then (vs, Some(NegativeWeight))
      else match Index(vs, v)
        case Some(i) => ApplyWeights(vs[i := vs[i].(weight := w)], items[1..])
        case None => (vs, Some(UnknownVersion))
  }

  function SetWeights(t: Table, p: PackId, items: Items): (Table, Option<Error>) {
    if p !in t then (t, Some(UnknownPack))
    else (t[p := ApplyWeights(t[p], items).0], ApplyWeights(t[p], items).1)
  }

  // ---------------------------------------------------------------- get

  function WeightsOf(vs: Versions): (ws: seq<real>)
    ensures |ws| == |vs| && forall i | 0 <= i < |vs| :: ws[i] == vs[i].weight
  {
    seq(|vs|, i requires 0 <= i < |vs| => vs[i].weight)
  }

  /** The draw is a possible one: needed only where `get` actually draws. */
  ghost predicate Possible(t: Table, p: PackId, choice: Choice) {
    p in t ==>
      && WeightedRouting.Weights(WeightsOf(t[p]))
      && (|t[p]| > 1 && WeightedRouting.Total(WeightsOf(t[p])) > 0.0 ==>
            match choice
            case Sticky(prefix) => prefix <= WeightedRouting.MAX_PREFIX
            case Random(i) => i < |t[p]| && t[p][i].weight > 0.0)
  }

  function Get(t: Table, p: PackId, version: Option<Version>, choice: Choice): Result<PackClass, Error>
    requires Possible(t, p, choice)
  {
    if p !in t then Err(UnknownPack)
    else
      var vs := t[p];
      match version
      case Some(v) => (match Index(vs, v) case Some(i) => Ok(vs[i].cls) case None => Err(UnknownVersion))
      case None =>
        if |vs| == 1 then Ok(vs[0].cls)
        else if WeightedRouting.Total(WeightsOf(vs)) == 0.0 then Err(NoPositiveWeight)
        else match choice
          case Random(i) => Ok(vs[i].cls)
          case Sticky(h) =>
            WeightedRouting.PickIsOwner(WeightsOf(vs), h);
            Ok(vs[WeightedRouting.Pick(WeightsOf(vs), h)].cls)
  }

  // ---------------------------------------------------------------- invariant

  ghost predicate Distinct(vs: Versions) {
    forall i, j | 0 <= i < j < |vs| :: vs[i].version != vs[j].version
  }

  ghost predicate SoundVersions(p: PackId, vs: Versions) {
    && vs != [] && Distinct(vs)
    && forall i | 0 <= i < |vs| ::
         vs[i].weight >= 0.0 && vs[i].version == vs[i].cls.version && vs[i].cls.packId == p
  }

  ghost predicate Sound(t: Table) {
    forall p | p in t :: SoundVersions(p, t[p])
  }

  /** Every version keeps its place; new ones go to the end. */
  ghost predicate Extends(vs: Versions, vs': Versions) {
    |vs| <= |vs'| && forall i | 0 <= i < |vs| :: vs'[i].version == vs[i].version
  }

  ghost predicate TableExtends(t: Table, t': Table) {
    forall p | p in t :: p in t' && Extends(t[p], t'[p])
  }

  lemma UpsertSound(p: PackId, vs: Versions, cls: PackClass)
    requires SoundVersions(p, vs) && cls.packId == p
    ensures var vs' := Upsert(vs, PackVersion(cls.version, cls, 1.0));
            SoundVersions(p, vs') && Extends(vs, vs')
  {
  }

  lemma {:induction false} ApplySound(p: PackId, vs: Versions, items: Items)
    requires SoundVersions(p, vs)
    ensures var vs' := ApplyWeights(vs, items).0;
            && SoundVersions(p, vs') && Extends(vs, vs') && |vs'| == |vs|
            && forall i | 0 <= i < |vs| :: vs'[i].cls == vs[i].cls
    decreases |items|
  {
    if items != [] && items[0].1 >= 0.0 && Index(vs, items[0].0).Some? {
      var i := Index(vs, items[0].0).value;
      ApplySound(p, vs[i := vs[i].(weight := items[0].1)], items[1..]);
    }
  }

  /** `register` and `set_weights`, failed calls included, keep versions distinct and weights
      non-negative, and never remove or move a version. */
  lemma MutationsKeepSound(t: Table, cls: PackClass, p: PackId, items: Items)
    requires Sound(t)
    ensures Register(t, cls).Ok? ==> Sound(Register(t, cls).value) && TableExtends(t, Register(t, cls).value)
    ensures Sound(SetWeights(t, p, items).0) && TableExtends(t, SetWeights(t, p, items).0)
  {
    if cls.packId in t { UpsertSound(cls.packId, t[cls.packId], cls); }
    if p in t { ApplySound(p, t[p], items); }
  }

  /** A registered class stands in its version's place, or behind all others, with weight 1; every other
      entry, and every other pack, is as it was. Only a class that lacks an attribute is turned down. */
  lemma RegisteredAtWeightOne(t: Table, cls: PackClass)
    requires Sound(t)
    ensures Register(t, cls).Err? <==> cls.packId == "" || cls.name == "" || cls.description == ""
    ensures Register(t, cls).Ok? ==>
              var t', p := Register(t, cls).value, cls.packId;
              var vs := if p in t then t[p] else [];
              && t' == t[p := t'[p]]
              && exists i: nat :: PlacedAt(vs, t'[p], i, PackVersion(cls.version, cls, 1.0))
  {
    if Register(t, cls).Ok? {
      var vs := if cls.packId in t then t[cls.packId] else [];
      var vs' := Register(t, cls).value[cls.packId];
      match Index(vs, cls.version)
      case Some(i) => assert PlacedAt(vs, vs', i, PackVersion(cls.version, cls, 1.0));
      case None =>
        assert forall k | 0 <= k < |vs| :: vs[k] in vs;
        assert PlacedAt(vs, vs', |vs|, PackVersion(cls.version, cls, 1.0));
    }
  }

  /** `vs'` is `vs` with the entry at place `i`, that of its version or a new one at the end. */
  ghost predicate PlacedAt(vs: Versions, vs': Versions, i: nat, pv: PackVersion) {
    && i < |vs'| && vs'[i] == pv
    && (forall k | 0 <= k < |vs| && k != i :: k < |vs'| && vs'[k] == vs[k] && vs[k].version != pv.version)
    && if i < |vs| then vs[i].version == pv.version && |vs'| == |vs| else i == |vs| == |vs'| - 1
  }

  lemma SoundHasWeights(t: Table, p: PackId)
    requires Sound(t) && p in t
    ensures WeightedRouting.Weights(WeightsOf(t[p]))
  {
  }

  // ---------------------------------------------------------------- set_weights, exactly

  ghost predicate GoodItem(vs: Versions, item: (Version, real)) {
    item.1 >= 0.0 && Index(vs, item.0).Some?
  }

  /** The weight a version ends with once the first `n` items are applied. */
  function FinalWeight(items: Items, n: nat, v: Version, initial: real): real
    requires n <= |items|
  {
    if n == 0 then initial
    else if items[n - 1].0 == v then items[n - 1].1
    else FinalWeight(items, n - 1, v, initial)
  }

  lemma {:induction false} FinalWeightShift(items: Items, n: nat, v: Version, initial: real)
    requires 1 <= n <= |items|
    ensures FinalWeight(items, n, v, initial)
            == FinalWeight(items[1..], n - 1, v, if items[0].0 == v then items[0].1 else initial)
  {
    if n > 1 { FinalWeightShift(items, n - 1, v, initial); }
  }

  /** One item applied: the other items stay as good or bad as they were. */
  lemma StaysAsGood(vs: Versions, i: nat, w: real, item: (Version, real))
    requires i < |vs|
    ensures GoodItem(vs[i := vs[i].(weight := w)], item) <==> GoodItem(vs, item)
  {
    SameVersionsSameIndex(vs, vs[i := vs[i].(weight := w)], item.0);
  }

  /** And every version's final weight is that of the remaining items. */
  lemma RemainingWeights(vs: Versions, items: Items, n: nat, i: nat, k: nat)
    requires Distinct(vs) && 1 <= n <= |items| && i < |vs| && k < |vs| && vs[i].version == items[0].0
    ensures var next := vs[i := vs[i].(weight := items[0].1)];
            && next[k].version == vs[k].version && next[k].cls == vs[k].cls
            && FinalWeight(items, n, vs[k].version, vs[k].weight)
               == FinalWeight(items[1..], n - 1, next[k].version, next[k].weight)
  {
    FinalWeightShift(items, n, vs[k].version, vs[k].weight);
    assert k != i ==> vs[k].version != vs[i].version;
  }

  /** The first `n` items, and no others, have been applied. */
  ghost predicate Applied(vs: Versions, vs': Versions, items: Items, n: nat)
    requires n <= |items|
  {
    |vs'| == |vs| && forall k | 0 <= k < |vs| ::
                       vs'[k] == vs[k].(weight := FinalWeight(items, n, vs[k].version, vs[k].weight))
  }

  lemma AppliedFirst(vs: Versions, items: Items, n: nat, i: nat, vs': Versions)
    requires Distinct(vs) && 1 <= n <= |items| && i < |vs| && vs[i].version == items[0].0
    requires Applied(vs[i := vs[i].(weight := items[0].1)], vs', items[1..], n - 1)
    ensures Applied(vs, vs', items, n)
  {
    forall k | 0 <= k < |vs|
      ensures vs'[k] == vs[k].(weight := FinalWeight(items, n, vs[k].version, vs[k].weight))
    {
      RemainingWeights(vs, items, n, i, k);
    }
  }

  /** Item `n` is the first bad one; there is none if `n` is their number. */
  ghost predicate FirstBad(vs: Versions, items: Items, n: nat) {
    && n <= |items|
    && (forall k | 0 <= k < n :: GoodItem(vs, items[k]))
    && (n < |items| ==> !GoodItem(vs, items[n]))
  }

  lemma FirstBadOfRest(p: PackId, vs: Versions, items: Items, n: nat, i: nat)
    requires SoundVersions(p, vs) && n >= 1 && FirstBad(vs, items, n) && Index(vs, items[0].0) == Some(i)
    ensures var next := vs[i := vs[i].(weight := items[0].1)];
            SoundVersions(p, next) && FirstBad(next, items[1..], n - 1)
  {
    assert GoodItem(vs, items[0]);
    forall k | 0 <= k < |items| - 1
      ensures GoodItem(vs[i := vs[i].(weight := items[0].1)], items[1..][k]) <==> GoodItem(vs, items[k + 1])
    {
      StaysAsGood(vs, i, items[0].1, items[k + 1]);
    }
  }

  lemma StopsAtBad(vs: Versions, items: Items)
    requires items != [] ==> !GoodItem(vs, items[0])
    ensures ApplyWeights(vs, items).0 == vs && (ApplyWeights(vs, items).1.Some? <==> items != [])
    ensures Applied(vs, vs, items, 0)
  {
  }

  lemma FirstApplied(vs: Versions, items: Items, i: nat)
    requires items != [] && items[0].1 >= 0.0 && Index(vs, items[0].0) == Some(i)
    ensures ApplyWeights(vs, items) == ApplyWeights(vs[i := vs[i].(weight := items[0].1)], items[1..])
  {
  }

  /** `set_weights` is not atomic: exactly the items before the first bad one take effect, and
      it reports an error if and only if there is a bad one. */
  lemma {:induction false} WeightsAppliedUpToFirstBad(p: PackId, vs: Versions, items: Items, n: nat)
    requires SoundVersions(p, vs) && FirstBad(vs, items, n)
    ensures var (vs', err) := ApplyWeights(vs, items);
            (err.Some? <==> n < |items|) && Applied(vs, vs', items, n)
    decreases n
  {
    if n == 0 {
      StopsAtBad(vs, items);
    } else {
      assert GoodItem(vs, items[0]);
      var i := Index(vs, items[0].0).value;
      FirstBadOfRest(p, vs, items, n, i);
      WeightsAppliedUpToFirstBad(p, vs[i := vs[i].(weight := items[0].1)], items[1..], n - 1);
      FirstApplied(vs, items, i);
      AppliedFirst(vs, items, n, i, ApplyWeights(vs, items).0);
    }
  }

  lemma {:induction false} SameVersionsSameIndex(vs: Versions, vs': Versions, v: Version)
    requires |vs| == |vs'| && forall i | 0 <= i < |vs| :: vs[i].version == vs'[i].version
    ensures Index(vs, v) == Index(vs', v)
  {
    if vs != [] { SameVersionsSameIndex(vs[1..], vs'[1..], v); }
  }

  // ---------------------------------------------------------------- asking for a version

  lemma IndexIsThePlace(p: PackId, vs: Versions, i: nat)
    requires SoundVersions(p, vs) && i < |vs|
    ensures Index(vs, vs[i].version) == Some(i)
  {
    var r := Index(vs, vs[i].version);
    assert vs[i] in vs;
  }

  ghost predicate Registered(t: Table, p: PackId, v: Version) {
    p in t && exists i | 0 <= i < |t[p]| :: t[p][i].version == v
  }

  /** An explicit version is served exactly when it is registered, and by a class of that version. */
  lemma GetExactVersion(t: Table, p: PackId, v: Version, choice: Choice)
    requires Sound(t) && Possible(t, p, choice)
    ensures Get(t, p, Some(v), choice).Ok? <==> Registered(t, p, v)
    ensures Get(t, p, Some(v), choice).Ok? ==> Get(t, p, Some(v), choice).value.version == v
  {
    if p in t {
      match Index(t[p], v)
      case Some(i) => assert t[p][i].version == v;
      case None => assert forall i | 0 <= i < |t[p]| :: t[p][i] in t[p];
    }
  }

  lemma RegisteredStays(t: Table, t': Table, p: PackId, v: Version)
    requires TableExtends(t, t') && Registered(t, p, v)
    ensures Registered(t', p, v)
  {
    var i :| 0 <= i < |t[p]| && t[p][i].version == v;
    assert t'[p][i].version == v;
  }

  /** One call of `register` or `set_weights`. */
  datatype Call = Registers(cls: PackClass) | SetsWeights(packId: PackId, items: Items)

  function TableAfter(t: Table, calls: seq<Call>): Table {
    if calls == [] then t
    else
      var before := TableAfter(t, calls[..|calls| - 1]);
      match calls[|calls| - 1]
      case Registers(cls) => (match Register(before, cls) case Ok(after) => after case Err(_) => before)
      case SetsWeights(p, items) => SetWeights(before, p, items).0
  }

  /** Over any calls, failing ones included, a registered version stays registered and in its place,
      and asking for it by name is never refused. */
  lemma {:induction false} RegisteredForever(t: Table, calls: seq<Call>, p: PackId, v: Version, choice: Choice)
    requires Sound(t) && Registered(t, p, v)
    ensures var t' := TableAfter(t, calls);
            && Sound(t') && TableExtends(t, t') && Registered(t', p, v)
            && (Possible(t', p, choice) ==>
                  Get(t', p, Some(v), choice).Ok? && Get(t', p, Some(v), choice).value.version == v)
    decreases |calls|
  {
    if calls != [] {
      var before := TableAfter(t, calls[..|calls| - 1]);
      RegisteredForever(t, calls[..|calls| - 1], p, v, choice);
      match calls[|calls| - 1]
      case Registers(cls) => MutationsKeepSound(before, cls, p, []);
      case SetsWeights(q, items) => MutationsKeepSound(before, PackClass(0, "", "", "", ""), q, items);
    }
    var t' := TableAfter(t, calls);
    RegisteredStays(t, t', p, v);
    if Possible(t', p, choice) { GetExactVersion(t', p, v, choice); }
  }

  /** A successful registration of this version. */
  predicate Brings(call: Call, p: PackId, v: Version) {
    && call.Registers? && call.cls.packId == p && call.cls.version == v
    && p != "" && call.cls.name != "" && call.cls.description != ""
  }

  lemma CallRegisters(t: Table, call: Call, p: PackId, v: Version)
    requires Sound(t)
    ensures Registered(TableAfter(t, [call]), p, v) <==> Registered(t, p, v) || Brings(call, p, v)
  {
    assert [call][..0] == [] && TableAfter(t, []) == t;
    var t' := TableAfter(t, [call]);
    if Registered(t, p, v) {
      RegisteredForever(t, [call], p, v, Random(0));
    } else if call.Registers? {
      RegisteredAtWeightOne(t, call.cls);
      if Brings(call, p, v) {
        var i: nat :| PlacedAt(if p in t then t[p] else [], t'[p], i, PackVersion(v, call.cls, 1.0));
        assert t'[p][i].version == v;
      }
    } else if call.packId in t {
      ApplySound(call.packId, t[call.packId], call.items);
    }
  }

  /** After any calls just those versions are registered that were before, or that a successful
      registration brought. */
  lemma {:induction false} RegisteredIff(t: Table, calls: seq<Call>, p: PackId, v: Version)
    requires Sound(t)
    ensures Sound(TableAfter(t, calls))
    ensures Registered(TableAfter(t, calls), p, v) <==>
            Registered(t, p, v) || exists i :: 0 <= i < |calls| && Brings(calls[i], p, v)
    decreases |calls|
  {
    if calls != [] {
      var n := |calls| - 1;
      var before := TableAfter(t, calls[..n]);
      RegisteredIff(t, calls[..n], p, v);
      CallRegisters(before, calls[n], p, v);
      assert [calls[n]][..0] == [] && TableAfter(before, []) == before;
      assert TableAfter(t, calls) == TableAfter(before, [calls[n]]);
      assert forall i | 0 <= i < n :: calls[i] == calls[..n][i];
      match calls[n]
      case Registers(cls) => MutationsKeepSound(before, cls, p, []);
      case SetsWeights(q, items) => MutationsKeepSound(before, PackClass(0, "", "", "", ""), q, items);
    }
  }

  /** What an affinity key is served while several versions share the traffic. */
  lemma StickyServes(t: Table, p: PackId, h: nat)
    requires Sound(t) && p in t && |t[p]| > 1 && h <= WeightedRouting.MAX_PREFIX
    requires WeightedRouting.Weights(WeightsOf(t[p])) && WeightedRouting.Total(WeightsOf(t[p])) > 0.0
    ensures var i := WeightedRouting.Pick(WeightsOf(t[p]), h);
            i < |t[p]| && Possible(t, p, Sticky(h)) && Get(t, p, None, Sticky(h)) == Ok(t[p][i].cls)
  {
    WeightedRouting.PickIsOwner(WeightsOf(t[p]), h);
  }

  /** Everything `get` turns down: an unknown pack; an unknown version, if one is named; and, if none is,
      a choice between several versions that all weigh nothing. */
  lemma GetRefusals(t: Table, p: PackId, version: Option<Version>, choice: Choice)
    requires Sound(t) && Possible(t, p, choice)
    ensures var r := Get(t, p, version, choice);
            && (r == Err(UnknownPack) <==> p !in t)
            && (r == Err(UnknownVersion) <==> p in t && version.Some? && !Registered(t, p, version.value))
            && (r == Err(NoPositiveWeight) <==>
                  p in t && version == None && |t[p]| > 1 && forall i | 0 <= i < |t[p]| :: t[p][i].weight == 0.0)
            && (r.Err? ==> r.error in {UnknownPack, UnknownVersion, NoPositiveWeight})
            && (p in t && version == None && |t[p]| == 1 ==> r == Ok(t[p][0].cls))
  {
    if p in t {
      if version.Some? {
        GetExactVersion(t, p, version.value, choice);
      } else {
        WeightedRouting.TotalIsZeroIff(WeightsOf(t[p]));
      }
    }
  }

  lemma ReweightOne(t: Table, p: PackId, j: nat, w: real)
    requires Sound(t) && p in t && j < |t[p]| && w >= 0.0
    ensures SetWeights(t, p, [(t[p][j].version, w)]) == (t[p := t[p][j := t[p][j].(weight := w)]], None)
  {
    var items := [(t[p][j].version, w)];
    IndexIsThePlace(p, t[p], j);
    var vs := t[p][j := t[p][j].(weight := w)];
    assert items[1..] == [];
    assert ApplyWeights(vs, []) == (vs, None);
    assert ApplyWeights(t[p], items) == (vs, None);
  }

  lemma RaiseServes(t: Table, p: PackId, j: nat, w: real, h: nat, vs: Versions)
    requires Sound(t) && p in t && |t[p]| > 1 && j < |t[p]| && w >= t[p][j].weight && h <= WeightedRouting.MAX_PREFIX
    requires WeightedRouting.Weights(WeightsOf(t[p])) && WeightedRouting.Total(WeightsOf(t[p])) > 0.0
    requires vs == t[p][j := t[p][j].(weight := w)] && Sound(t[p := vs])
    ensures var before, after := WeightedRouting.Pick(WeightsOf(t[p]), h), WeightedRouting.Pick(WeightsOf(vs), h);
            && before < |t[p]| && after < |t[p]| && WeightedRouting.Nearer(before, after, j)
            && Possible(t, p, Sticky(h)) && Get(t, p, None, Sticky(h)) == Ok(t[p][before].cls)
            && Possible(t[p := vs], p, Sticky(h)) && Get(t[p := vs], p, None, Sticky(h)) == Ok(t[p][after].cls)
  {
    var ws, ws' := WeightsOf(t[p]), WeightsOf(vs);
    assert ws' == ws[j := w];
    WeightedRouting.RaiseMovesTowards(ws, j, w, h);
    WeightedRouting.RaiseCumulative(ws, j, w, |ws|);
    StickyServes(t, p, h);
    StickyServes(t[p := vs], p, h);
    assert vs[WeightedRouting.Pick(ws', h)].cls == t[p][WeightedRouting.Pick(ws', h)].cls;
  }

  /** Raising one version's weight: what `get` serves the same caller moves only towards it. */
  lemma RaiseInRegistry(t: Table, p: PackId, j: nat, w: real, h: nat)
    requires Sound(t) && p in t && |t[p]| > 1 && j < |t[p]| && w >= t[p][j].weight && h <= WeightedRouting.MAX_PREFIX
    requires WeightedRouting.Weights(WeightsOf(t[p])) && WeightedRouting.Total(WeightsOf(t[p])) > 0.0
    ensures var (t', err) := SetWeights(t, p, [(t[p][j].version, w)]);
            && err == None && Sound(t') && Possible(t, p, Sticky(h)) && Possible(t', p, Sticky(h))
            && exists before: nat, after: nat | before < |t[p]| && after < |t[p]| ::
                 && WeightedRouting.Nearer(before, after, j)
                 && Get(t, p, None, Sticky(h)) == Ok(t[p][before].cls)
                 && Get(t', p, None, Sticky(h)) == Ok(t[p][after].cls)
  {
    MutationsKeepSound(t, PackClass(0, "", "", "", ""), p, [(t[p][j].version, w)]);
    ReweightOne(t, p, j, w);
    RaiseServes(t, p, j, w, h, t[p][j := t[p][j].(weight := w)]);
  }

  // ---------------------------------------------------------------- the class

  class Registry {
    var table: Table

    constructor ()
      ensures table == map[]
    {
      table := map[];
    }

    method RegisterPack(cls: PackClass) returns (err: Option<Error>)
      requires Sound(table)
      modifies this
      ensures Sound(table)
      ensures match Register(old(table), cls)
              case Ok(t) => table == t && err == None
              case Err(e) => table == old(table) && err == Some(e)
    {
      MutationsKeepSound(table, cls, "", []);
      if cls.packId == "" || cls.name == "" || cls.description == "" {
        return Some(MissingAttribute);
      }
      var pv := PackVersion(cls.version, cls, 1.0);
      if cls.packId !in table {
        table := table[cls.packId := [pv]];
        return None;
      }
      var versions := table[cls.packId];
      var i := Find(versions, cls.version);
      if i < |versions| {
        versions := versions[i := pv];
      } else {
        versions := versions + [pv];
      }
      table := table[cls.packId := versions];
      return None;
    }

    /** The scan all three operations make; the list's length when there is no match. */
    static method Find(versions: Versions, v: Version) returns (i: nat)
      ensures i <= |versions|
      ensures Index(versions, v) == if i < |versions| then Some(i) else None
    {
      i := 0;
      assert versions[0..] == versions;
      while i < |versions| && versions[i].version != v
        invariant 0 <= i <= |versions|
        invariant Index(versions, v) == match Index(versions[i..], v) case Some(k) => Some(i + k) case None => None
      {
        assert versions[i..][1..] == versions[i + 1..];
        i := i + 1;
      }
    }

    /** The loop over the items, on the list of a pack's entries. */
    static method Reweigh(initial: Versions, items: Items) returns (versions: Versions, err: Option<Error>)
      ensures (versions, err) == ApplyWeights(initial, items)
    {
      versions := initial;
      var n := 0;
      assert items[0..] == items;
      while n < |items|
        invariant 0 <= n <= |items|
        invariant ApplyWeights(initial, items) == ApplyWeights(versions, items[n..])
      {
        var (v, w) := items[n];
        assert items[n..][1..] == items[n + 1..];
        if w < 0.0 {
          return versions, Some(NegativeWeight);
        }
        var i := Find(versions, v);
        if i == |versions| {
          return versions, Some(UnknownVersion);
        }
        versions := versions[i := versions[i].(weight := w)];
        n := n + 1;
      }
      return versions, None;
    }

    method SetPackWeights(p: PackId, items: Items) returns (err: Option<Error>)
      requires Sound(table)
      modifies this
      ensures Sound(table)
      ensures (table, err) == SetWeights(old(table), p, items)
    {
      MutationsKeepSound(table, PackClass(0, "", "", "", ""), p, items);
      if p !in table {
        return Some(UnknownPack);
      }
      var versions;
      versions, err := Reweigh(table[p], items);
      table := table[p := versions];
    }

    method GetPack(p: PackId, version: Option<Version>, choice: Choice) returns (r: Result<PackClass, Error>)
      requires Sound(table)
      requires Possible(table, p, choice)
      ensures r == Get(table, p, version, choice)
    {
      if p !in table {
        return Err(UnknownPack);
      }
      var versions := table[p];
      if version.Some? {
        var i := Find(versions, version.value);
        return if i < |versions| then Ok(versions[i].cls) else Err(UnknownVersion);
      }
      if |versions| == 1 {
        return Ok(versions[0].cls);
      }
      var weights := WeightsOf(versions);
      if WeightedRouting.Total(weights) == 0.0 {
        return Err(NoPositiveWeight);
      }
      if choice.Random? {
        return Ok(versions[choice.index].cls);
      }
      var index := WeightedRouting.SelectWeighted(weights, choice.prefix);
      WeightedRouting.PickIsOwner(weights, choice.prefix);
      return Ok(versions[index].cls);
    }
  }
}
