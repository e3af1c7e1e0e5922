/** How a model id finds its pricing: exact lookup over a few candidate spellings, then the first
    alias whose prefix matches. */
module ModelPricingLookup {
  import opened Prelude

  /** Prefix and canonical id, in the order they are tried. */
  type Aliases = seq<(string, string)>

  // ---------------------------------------------------------------- candidate spellings

  predicate IsDigit(c: char) { '0' <= c <= '9' }

  predicate AllDigits(s: string) {
    forall i | 0 <= i < |s| :: IsDigit(s[i])
  }

  /** Ends in a dash and eight digits. */
  predicate HasDate(id: string) {
    |id| >= 9 && id[|id| - 9] == '-' && AllDigits(id[|id| - 8..])
  }

  function StripDate(id: string): string
    requires HasDate(id)
  {
    id[..|id| - 9]
  }

  function WithoutTrailingDigits(s: string): string {
    if s != "" && IsDigit(s[|s| - 1]) then WithoutTrailingDigits(s[..|s| - 1]) else s
  }

  /** Removes a final `-v<digits>:<digits>`. */
  function StripVersion(s: string): string {
    var a := WithoutTrailingDigits(s);
    if |a| == |s| || a == "" || a[|a| - 1] != ':' then s
    else
      var b := a[..|a| - 1];
      var c := WithoutTrailingDigits(b);
      if |c| == |b| || |c| < 2 || c[|c| - 2..] != "-v" then s else c[..|c| - 2]
  }

  /** What follows the first dot, if there is one. */
  function AfterDot(id: string): Option<string> {
    if id == "" then None
    else if id[0] == '.' then Some(id[1..])
    else AfterDot(id[1..])
  }

  function Dated(id: string): seq<string> {
    if HasDate(id) then [id, StripDate(id)] else [id]
  }

  /** The model named inside a dotted id, without its version suffix. */
  function Fragment(id: string): Option<string> {
    match AfterDot(id)
    case Some(rest) => if StripVersion(rest) == "" then None else Some(StripVersion(rest))
    case None => None
  }

  /** `id` is already lower-cased and stripped. */
  function Candidates(id: string): seq<string> {
    Dated(id) + if Fragment(id).Some? then Dated(Fragment(id).value) else []
  }

  // ---------------------------------------------------------------- what the spellings are

  ghost predicate Digits(s: string) { s != "" && forall c | c in s :: c in "0123456789" }

  lemma DigitsAreDigits(c: char)
    ensures IsDigit(c) <==> c in "0123456789"
  {
  }

  /** A date is a final dash and eight digits; nothing else is taken off. */
  lemma DateIsEightDigits(id: string)
    ensures HasDate(id) <==> exists x, d :: id == x + "-" + d && |d| == 8 && Digits(d)
    ensures HasDate(id) ==> exists d :: id == StripDate(id) + "-" + d && |d| == 8 && Digits(d)
  {
    if HasDate(id) {
      var d := id[|id| - 8..];
      assert id == StripDate(id) + "-" + d;
      assert Digits(d);
    }
    if x, d :| id == x + "-" + d && |d| == 8 && Digits(d) {
      assert id[|id| - 8..] == d && forall i | 0 <= i < 8 :: d[i] in d;
    }
  }

  lemma {:induction false} TrailingDigits(s: string)
    ensures var a := WithoutTrailingDigits(s);
            a <= s && AllDigits(s[|a|..]) && (a != "" ==> !IsDigit(a[|a| - 1]))
  {
    if s != "" && IsDigit(s[|s| - 1]) {
      TrailingDigits(s[..|s| - 1]);
      var a := WithoutTrailingDigits(s);
      assert forall i | |a| <= i < |s| - 1 :: s[i] == s[..|s| - 1][|a|..][i - |a|];
    }
  }

  lemma {:induction false} DigitsComeOff(a: string, d: string)
    requires AllDigits(d) && (a != "" ==> !IsDigit(a[|a| - 1]))
    ensures WithoutTrailingDigits(a + d) == a
    decreases |d|
  {
    if d == "" {
      assert a + d == a;
    } else {
      assert (a + d)[..|a + d| - 1] == a + d[..|d| - 1];
      DigitsComeOff(a, d[..|d| - 1]);
    }
  }

  /** A version suffix is `-v`, digits, a colon and digits at the end, and is taken off whole. */
  lemma VersionComesOff(x: string, major: string, minor: string)
    requires Digits(major) && Digits(minor)
    ensures StripVersion(x + "-v" + major + ":" + minor) == x
  {
    var b := x + "-v" + major;
    assert forall i | 0 <= i < |minor| :: minor[i] in minor;
    assert forall i | 0 <= i < |major| :: major[i] in major;
    assert x + "-v" + major + ":" + minor == (b + ":") + minor;
    DigitsComeOff(b + ":", minor);
    DigitsComeOff(x + "-v", major);
    assert (b + ":")[..|b + ":"| - 1] == b;
    assert (x + "-v")[|x + "-v"| - 2..] == "-v" && (x + "-v")[..|x + "-v"| - 2] == x;
  }

  /** Nothing else is. */
  lemma OnlyVersionsComeOff(s: string)
    requires StripVersion(s) != s
    ensures exists major, minor :: Digits(major) && Digits(minor) && s == StripVersion(s) + "-v" + major + ":" + minor
  {
    var a := WithoutTrailingDigits(s);
    var b := a[..|a| - 1];
    var c := WithoutTrailingDigits(b);
    DigitsSplit(s);
    DigitsSplit(b);
    EndsIn(a, ":");
    EndsIn(c, "-v");
    var major, minor := b[|c|..], s[|a|..];
    assert s == StripVersion(s) + "-v" + major + ":" + minor;
  }

  lemma DigitsSplit(s: string)
    requires |WithoutTrailingDigits(s)| != |s|
    ensures var a := WithoutTrailingDigits(s); |a| < |s| && s == a + s[|a|..] && Digits(s[|a|..])
  {
    TrailingDigits(s);
    var d := s[|WithoutTrailingDigits(s)|..];
    forall c | c in d ensures c in "0123456789" {
      var i :| 0 <= i < |d| && d[i] == c;
      DigitsAreDigits(d[i]);
    }
  }

  lemma EndsIn(s: string, end: string)
    requires |end| <= |s| && s[|s| - |end|..] == end
    ensures s == s[..|s| - |end|] + end
  {
  }

  /** What follows the first dot. */
  lemma {:induction false} AfterFirstDot(before: string, rest: string)
    requires '.' !in before
    ensures AfterDot(before + "." + rest) == Some(rest)
    ensures AfterDot(before) == None
  {
    if before == "" {
      assert "" + "." + rest == "." + rest && ("." + rest)[1..] == rest;
    } else {
      assert (before + "." + rest)[1..] == before[1..] + "." + rest;
      AfterFirstDot(before[1..], rest);
    }
  }

  // ---------------------------------------------------------------- resolution

  predicate Matches(alias: (string, string), known: set<string>, candidates: seq<string>) {
    (exists i | 0 <= i < |candidates| :: alias.0 <= candidates[i]) && alias.1 in known
  }

  function FirstAlias(aliases: Aliases, known: set<string>, candidates: seq<string>): (r: Option<nat>)
    ensures r.Some? ==> r.value < |aliases| && Matches(aliases[r.value], known, candidates)
  {
    if aliases == [] then None
    else if Matches(aliases[0], known, candidates) then Some(0)
    else match FirstAlias(aliases[1..], known, candidates) case Some(i) => Some(i + 1) case None => None
  }

  function FirstExact(known: set<string>, candidates: seq<string>): Option<string> {
    if candidates == [] then None
    else if candidates[0] in known then Some(candidates[0])
    else FirstExact(known, candidates[1..])
  }

  /** The table key that prices `id`. */
  function Resolve(aliases: Aliases, known: set<string>, id: string): Option<string> {
    if id == "" then None
    else
      var candidates := Candidates(id);
      match FirstExact(known, candidates)
      case Some(key) => Some(key)
      case None => match FirstAlias(aliases, known, candidates)
        case Some(i) => Some(aliases[i].1)
        case None => None
  }

  lemma {:induction false} ExactIsFirst(known: set<string>, cs: seq<string>, i: nat)
    requires i < |cs| && cs[i] in known && forall j | 0 <= j < i :: cs[j] !in known
    ensures FirstExact(known, cs) == Some(cs[i])
  {
    if i > 0 {
      assert cs[0] !in known;
      assert forall j | 0 <= j < i - 1 :: cs[1..][j] == cs[j + 1];
      ExactIsFirst(known, cs[1..], i - 1);
    }
  }

  /** An exact entry wins over every alias: the id's own, then the one without its date. */
  lemma ExactEntryWins(aliases: Aliases, known: set<string>, id: string)
    requires id != ""
    ensures id in known ==> Resolve(aliases, known, id) == Some(id)
    ensures forall x, d | id == x + "-" + d && |d| == 8 && Digits(d) && id !in known && x in known ::
              Resolve(aliases, known, id) == Some(x)
  {
    if id in known { ExactIsFirst(known, Candidates(id), 0); }
    forall x, d | id == x + "-" + d && |d| == 8 && Digits(d) && id !in known && x in known
      ensures Resolve(aliases, known, id) == Some(x)
    {
      DateIsEightDigits(id);
      assert StripDate(id) == x;
      assert Candidates(id)[0] == id && Candidates(id)[1] == x;
      ExactIsFirst(known, Candidates(id), 1);
    }
  }

  /** Then the model named behind the first dot, without a version suffix, and that without its date.
      Of a version suffix alone nothing is left to look for. */
  lemma InnerEntryWins(aliases: Aliases, known: set<string>, before: string, rest: string, inner: string)
    requires '.' !in before && StripVersion(rest) == inner
    requires var id := before + "." + rest; id !in known && (HasDate(id) ==> StripDate(id) !in known)
    ensures var id := before + "." + rest;
            if inner == "" then Candidates(id) == Dated(id)
            else
              && (inner in known ==> Resolve(aliases, known, id) == Some(inner))
              && (inner !in known && HasDate(inner) && StripDate(inner) in known ==>
                    Resolve(aliases, known, id) == Some(StripDate(inner)))
  {
    var id := before + "." + rest;
    AfterFirstDot(before, rest);
    if inner != "" {
      var n := |Dated(id)|;
      assert Candidates(id) == Dated(id) + Dated(inner);
      if inner in known {
        ExactIsFirst(known, Candidates(id), n);
      } else if HasDate(inner) && StripDate(inner) in known {
        ExactIsFirst(known, Candidates(id), n + 1);
      }
    }
  }

  /** Whatever key an id leads to has a price. */
  lemma ResolvedIsPriced(aliases: Aliases, known: set<string>, id: string)
    ensures Resolve(aliases, known, id).Some? ==> Resolve(aliases, known, id).value in known
    ensures Resolve(aliases, known, "") == None
  {
    ExactIsKnown(known, Candidates(id));
  }

  lemma {:induction false} ExactIsKnown(known: set<string>, cs: seq<string>)
    ensures FirstExact(known, cs).Some? ==> FirstExact(known, cs).value in known
  {
    if cs != [] { ExactIsKnown(known, cs[1..]); }
  }

  method FindExact(known: set<string>, candidates: seq<string>) returns (key: Option<string>)
    ensures key == FirstExact(known, candidates)
  {
    var i := 0;
    assert candidates[0..] == candidates;
    while i < |candidates|
      invariant 0 <= i <= |candidates|
      invariant FirstExact(known, candidates) == FirstExact(known, candidates[i..])
    {
      if candidates[i] in known { return Some(candidates[i]); }
      assert candidates[i..][1..] == candidates[i + 1..];
      i := i + 1;
    }
    return None;
  }

  method MatchesSome(alias: (string, string), known: set<string>, candidates: seq<string>) returns (found: bool)
    ensures found <==> Matches(alias, known, candidates)
  {
    var j := 0;
    while j < |candidates|
      invariant 0 <= j <= |candidates|
      invariant forall m | 0 <= m < j :: !(alias.0 <= candidates[m] && alias.1 in known)
    {
      if alias.0 <= candidates[j] && alias.1 in known { return true; }
      j := j + 1;
    }
    return false;
  }

  method FindAlias(aliases: Aliases, known: set<string>, candidates: seq<string>) returns (r: Option<nat>)
    ensures r == FirstAlias(aliases, known, candidates)
  {
    var i := 0;
    assert aliases[0..] == aliases;
    while i < |aliases|
      invariant 0 <= i <= |aliases|
      invariant FirstAlias(aliases, known, candidates) ==
                match FirstAlias(aliases[i..], known, candidates) case Some(k) => Some(i + k) case None => None
    {
      assert aliases[i..][1..] == aliases[i + 1..];
      var found := MatchesSome(aliases[i], known, candidates);
      if found { return Some(i); }
      i := i + 1;
    }
    return None;
  }

  method ResolveModelPricing(aliases: Aliases, known: set<string>, id: string) returns (key: Option<string>)
    ensures key == Resolve(aliases, known, id)
  {
    if id == "" { return None; }
    var candidates := Candidates(id);
    key := FindExact(known, candidates);
    if key.None? {
      var alias := FindAlias(aliases, known, candidates);
      if alias.Some? { key := Some(aliases[alias.value].1); }
    }
  }

  // ---------------------------------------------------------------- first match is longest match

  /** No prefix shadows a longer one that comes later. */
  ghost predicate LongestFirst(aliases: Aliases) {
    forall i, j | 0 <= i < j < |aliases| :: !(aliases[i].0 < aliases[j].0)
  }

  ghost predicate DistinctPrefixes(aliases: Aliases) {
    forall i, j | 0 <= i < j < |aliases| :: aliases[i].0 != aliases[j].0
  }

  ghost predicate Priced(aliases: Aliases, known: set<string>) {
    forall i | 0 <= i < |aliases| :: aliases[i].1 in known
  }

  /** Alias `i` matches the id and no matching alias is longer. */
  ghost predicate IsLongest(aliases: Aliases, known: set<string>, id: string, i: nat)
    requires i < |aliases|
  {
    forall j | 0 <= j < |aliases| && Matches(aliases[j], known, [id]) :: |aliases[j].0| <= |aliases[i].0|
  }

  lemma {:induction false} FirstIsFirst(aliases: Aliases, known: set<string>, candidates: seq<string>, j: nat)
    requires j < |aliases| && Matches(aliases[j], known, candidates)
    ensures FirstAlias(aliases, known, candidates).Some? && FirstAlias(aliases, known, candidates).value <= j
  {
    if j > 0 && !Matches(aliases[0], known, candidates) { FirstIsFirst(aliases[1..], known, candidates, j - 1); }
  }

  lemma PrefixesCompare(a: string, b: string, id: string)
    requires a <= id && b <= id && |a| < |b|
    ensures a < b
  {
    assert a == id[..|a|] && b == id[..|b|];
  }

  lemma FirstIsLongest(aliases: Aliases, known: set<string>, id: string)
    requires LongestFirst(aliases) && FirstAlias(aliases, known, [id]).Some?
    ensures IsLongest(aliases, known, id, FirstAlias(aliases, known, [id]).value)
  {
    var i := FirstAlias(aliases, known, [id]).value;
    forall j | 0 <= j < |aliases| && Matches(aliases[j], known, [id]) ensures |aliases[j].0| <= |aliases[i].0| {
      FirstIsFirst(aliases, known, [id], j);
      if |aliases[i].0| < |aliases[j].0| { PrefixesCompare(aliases[i].0, aliases[j].0, id); }
    }
  }

  /** On a table of distinct, priced prefixes, "first match" means "longest match" for every id
      exactly when no prefix shadows a longer later one. */
  lemma FirstIsLongestIffLongestFirst(aliases: Aliases, known: set<string>)
    requires DistinctPrefixes(aliases) && Priced(aliases, known)
    ensures LongestFirst(aliases) <==>
            forall id | FirstAlias(aliases, known, [id]).Some? ::
              IsLongest(aliases, known, id, FirstAlias(aliases, known, [id]).value)
  {
    if LongestFirst(aliases) {
      forall id | FirstAlias(aliases, known, [id]).Some?
        ensures IsLongest(aliases, known, id, FirstAlias(aliases, known, [id]).value)
      {
        FirstIsLongest(aliases, known, id);
      }
    } else {
      var i, j :| 0 <= i < j < |aliases| && aliases[i].0 < aliases[j].0;
      var id := aliases[j].0;
      assert [id][0] == id;
      assert Matches(aliases[i], known, [id]) && Matches(aliases[j], known, [id]);
      FirstIsFirst(aliases, known, [id], i);
      var f := FirstAlias(aliases, known, [id]).value;
      assert aliases[f].0 <= id && aliases[f].0 != id;
      assert !IsLongest(aliases, known, id, f);
    }
  }

  // ---------------------------------------------------------------- dates and overrides

  lemma {:induction false} SameMatchesSameFirst(aliases: Aliases, known: set<string>, cs: seq<string>, cs': seq<string>)
    requires forall i | 0 <= i < |aliases| :: Matches(aliases[i], known, cs) <==> Matches(aliases[i], known, cs')
    ensures FirstAlias(aliases, known, cs) == FirstAlias(aliases, known, cs')
  {
    if aliases != [] {
      assert forall i | 0 <= i < |aliases| - 1 :: aliases[1..][i] == aliases[i + 1];
      SameMatchesSameFirst(aliases[1..], known, cs, cs');
    }
  }

  /** Stripping a date suffix can only help the exact lookup: the alias found is the one found for
      the id as given. */
  lemma DateNeverChangesAlias(aliases: Aliases, known: set<string>, id: string)
    ensures FirstAlias(aliases, known, Dated(id)) == FirstAlias(aliases, known, [id])
  {
    forall i | 0 <= i < |aliases|
      ensures Matches(aliases[i], known, Dated(id)) <==> Matches(aliases[i], known, [id])
    {
      assert Dated(id)[0] == [id][0] == id;
      if HasDate(id) && aliases[i].0 <= StripDate(id) { assert aliases[i].0 <= id; }
    }
    SameMatchesSameFirst(aliases, known, Dated(id), [id]);
  }

  /** So an id without a dot that is not in the table itself, dated or not, is priced by its longest
      matching alias, and by nothing when no alias matches. */
  lemma UndottedIdGetsLongestAlias(aliases: Aliases, known: set<string>, id: string)
    requires LongestFirst(aliases) && id != "" && AfterDot(id) == None && FirstExact(known, Dated(id)) == None
    ensures match FirstAlias(aliases, known, [id])
            case None => Resolve(aliases, known, id) == None
            case Some(i) => Resolve(aliases, known, id) == Some(aliases[i].1) && IsLongest(aliases, known, id, i)
  {
    assert Candidates(id) == Dated(id);
    DateNeverChangesAlias(aliases, known, id);
    if FirstAlias(aliases, known, [id]).Some? { FirstIsLongest(aliases, known, id); }
  }

  function Earlier(a: Option<nat>, b: Option<nat>): Option<nat> {
    if a.None? then b else if b.None? || a.value <= b.value then a else b
  }

  lemma {:induction false} FirstOfBoth(aliases: Aliases, known: set<string>, cs: seq<string>, ds: seq<string>)
    ensures FirstAlias(aliases, known, cs + ds)
        == Earlier(FirstAlias(aliases, known, cs), FirstAlias(aliases, known, ds))
  {
    if aliases != [] {
      EitherMatches(aliases[0], known, cs, ds);
      FirstOfBoth(aliases[1..], known, cs, ds);
    }
  }

  lemma EitherMatches(alias: (string, string), known: set<string>, cs: seq<string>, ds: seq<string>)
    ensures Matches(alias, known, cs + ds) <==> Matches(alias, known, cs) || Matches(alias, known, ds)
  {
    if Matches(alias, known, cs) {
      var i :| 0 <= i < |cs| && alias.0 <= cs[i];
      assert (cs + ds)[i] == cs[i];
    }
    if Matches(alias, known, ds) {
      var i :| 0 <= i < |ds| && alias.0 <= ds[i];
      assert (cs + ds)[|cs| + i] == ds[i];
    }
  }

  /** The alias the id as given leads to, and the one the model named inside it leads to. */
  function OwnAlias(aliases: Aliases, known: set<string>, id: string): (r: Option<nat>)
    ensures r.Some? ==> r.value < |aliases|
  {
    FirstAlias(aliases, known, [id])
  }

  function InnerAlias(aliases: Aliases, known: set<string>, id: string): (r: Option<nat>)
    ensures r.Some? ==> r.value < |aliases|
  {
    if Fragment(id).Some? then FirstAlias(aliases, known, [Fragment(id).value]) else None
  }

  /** For every id, dotted or not, without an exact entry: each spelling leads to its longest matching
      alias, and of the two the one earlier in the table prices the id. */
  lemma EarlierSpellingWins(aliases: Aliases, known: set<string>, id: string)
    requires LongestFirst(aliases) && id != "" && FirstExact(known, Candidates(id)) == None
    ensures var own, inner := OwnAlias(aliases, known, id), InnerAlias(aliases, known, id);
            && (own.Some? ==> IsLongest(aliases, known, id, own.value))
            && (inner.Some? ==> IsLongest(aliases, known, Fragment(id).value, inner.value))
            && Resolve(aliases, known, id) ==
                 match Earlier(own, inner) case Some(i) => Some(aliases[i].1) case None => None
  {
    var own, inner := OwnAlias(aliases, known, id), InnerAlias(aliases, known, id);
    DateNeverChangesAlias(aliases, known, id);
    if own.Some? { FirstIsLongest(aliases, known, id); }
    if Fragment(id).Some? {
      var fragment := Fragment(id).value;
      DateNeverChangesAlias(aliases, known, fragment);
      FirstOfBoth(aliases, known, Dated(id), Dated(fragment));
      if inner.Some? { FirstIsLongest(aliases, known, fragment); }
    } else {
      assert Candidates(id) == Dated(id);
    }
  }

  lemma {:induction false} ExactGrows(known: set<string>, more: set<string>, cs: seq<string>)
    requires known <= more && FirstExact(known, cs).Some?
    ensures FirstExact(more, cs).Some?
  {
    if cs[0] !in known { ExactGrows(known, more, cs[1..]); }
  }

  /** Merging an override file only adds keys, so no id that was priced loses its pricing. */
  lemma OverridesKeepIdsPriced(aliases: Aliases, builtin: set<string>, overrides: set<string>, id: string)
    ensures Resolve(aliases, builtin, id).Some? ==> Resolve(aliases, builtin + overrides, id).Some?
  {
    if Resolve(aliases, builtin, id).Some? {
      var cs := Candidates(id);
      if FirstExact(builtin, cs).Some? {
        ExactGrows(builtin, builtin + overrides, cs);
      } else {
        var i := FirstAlias(aliases, builtin, cs).value;
        assert Matches(aliases[i], builtin + overrides, cs);
        FirstIsFirst(aliases, builtin + overrides, cs, i);
      }
    }
  }
}
