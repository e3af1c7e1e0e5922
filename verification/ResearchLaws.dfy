/** What the research agent reads off records and search results, in terms of the texts themselves. */
module ResearchLaws {
  import opened Prelude
  import opened ResearchLoop

  // ---------------------------------------------------------------- records

  /** The key holds more than white space. */
  ghost predicate Holds(r: Record, key: string) { key in r && !Spaces(r[key]) }

  /** The text under the key between its white space. */
  ghost predicate Tells(r: Record, key: string, text: string) {
    key in r && Trimmed(text) && text != "" && exists a, b :: Spaces(a) && Spaces(b) && r[key] == a + text + b
  }

  /** One of the keys in order tells the text, and those before it hold nothing. */
  ghost predicate FirstTells(r: Record, keys: seq<string>, text: string) {
    exists i :: 0 <= i < |keys| && Tells(r, keys[i], text) && forall j | 0 <= j < i :: !Holds(r, keys[j])
  }

  lemma TextTells(r: Record, key: string)
    requires key in r && !Blank(r[key])
    ensures Tells(r, key, Strip(r[key]))
  {
    var a, b := StripParts(r[key]);
  }

  ghost predicate AnyHolds(r: Record, keys: seq<string>) { exists key :: key in keys && Holds(r, key) }

  /** What is read off the first key that holds something, if one does. */
  ghost predicate Read(r: Record, keys: seq<string>, field: Option<string>) {
    match field
    case Some(text) => AnyHolds(r, keys) && FirstTells(r, keys, text)
    case None => !AnyHolds(r, keys)
  }

  lemma {:induction false} FirstTextIsRead(r: Record, keys: seq<string>)
    ensures Read(r, keys, FirstText(r, keys))
  {
    if keys != [] {
      if keys[0] in r { BlankIff(r[keys[0]]); }
      if keys[0] in r && !Blank(r[keys[0]]) {
        TextTells(r, keys[0]);
        assert Holds(r, keys[0]) && keys[0] in keys;
      } else {
        FirstTextIsRead(r, keys[1..]);
        ReadFurtherOn(r, keys, FirstText(r, keys));
      }
    }
  }

  lemma ReadFurtherOn(r: Record, keys: seq<string>, field: Option<string>)
    requires keys != [] && !Holds(r, keys[0]) && Read(r, keys[1..], field)
    ensures Read(r, keys, field)
  {
    var tail := keys[1..];
    assert keys == [keys[0]] + tail;
    if field.Some? {
      var i :| 0 <= i < |tail| && Tells(r, tail[i], field.value) && forall j | 0 <= j < i :: !Holds(r, tail[j]);
      assert Tells(r, keys[i + 1], field.value);
      assert forall j | 0 <= j < i + 1 :: j == 0 || keys[j] == tail[j - 1];
    }
  }

  /** The keys a reference's fields are read off, in order. */
  lemma FieldsOfReference(r: Record, index: nat)
    ensures var ref := ToRef(r, index);
            && Read(r, ["title", "name"], ref.title)
            && Read(r, ["url", "link", "source"], ref.url)
            && (AnyHolds(r, ["id", "doc_id"]) ==> Read(r, ["id", "doc_id"], Some(ref.id)))
            && (!AnyHolds(r, ["id", "doc_id"]) ==> ref.id == "doc-" + Decimal(index))
  {
    FirstTextIsRead(r, ["id", "doc_id"]);
    FirstTextIsRead(r, ["title", "name"]);
    FirstTextIsRead(r, ["url", "link", "source"]);
  }

  /** A reference's snippet is the beginning of what the record tells, 500 characters at most. */
  lemma SnippetOfReference(r: Record, index: nat) returns (text: Option<string>)
    ensures Read(r, ["snippet", "text", "content"], text)
    ensures var snippet := ToRef(r, index).snippet;
            match text
            case Some(t) => snippet <= t && |snippet| == if |t| < 500 then |t| else 500
            case None => snippet == ""
  {
    FirstTextIsRead(r, ["snippet", "text", "content"]);
    text := FirstText(r, ["snippet", "text", "content"]);
    if text.Some? { TruncateIsPrefix(text.value, 500); }
  }

  /** What is cited of a reference. */
  lemma CitationShows(ref: Ref)
    requires ref.title != Some("") && ref.url != Some("")
    ensures Citation(ref) == match (ref.title, ref.url)
                             case (None, None) => "[" + ref.id + "]"
                             case (Some(title), None) => "[" + ref.id + "] " + title
                             case (None, Some(url)) => "[" + ref.id + "] " + url
                             case (Some(title), Some(url)) => "[" + ref.id + "] " + (title + " \U{2014} " + url)
  {
  }

  /** The finding a record adds: the first of its texts as it stands, if any is not empty. */
  lemma {:induction false} RawIsFirst(r: Record, keys: seq<string>)
    ensures var raw := FirstRaw(r, keys);
            if raw == "" then forall i | 0 <= i < |keys| && keys[i] in r :: r[keys[i]] == ""
            else exists i :: 0 <= i < |keys| && keys[i] in r && r[keys[i]] == raw
                             && forall j | 0 <= j < i && keys[j] in r :: r[keys[j]] == ""
  {
    if keys != [] && !(keys[0] in r && r[keys[0]] != "") {
      RawIsFirst(r, keys[1..]);
      var raw := FirstRaw(r, keys);
      assert forall i | 0 < i < |keys| :: keys[i] == keys[1..][i - 1];
      if raw != "" {
        var i :| 0 <= i < |keys| - 1 && keys[1..][i] in r && r[keys[1..][i]] == raw
                 && forall j | 0 <= j < i && keys[1..][j] in r :: r[keys[1..][j]] == "";
        assert keys[i + 1] in r && r[keys[i + 1]] == raw;
      }
    }
  }

  // ---------------------------------------------------------------- search results

  /** A line names an address exactly when, between white space, it is "Source:" and the address. */
  lemma SourceIsTold(line: string, u: string)
    ensures SourceOf(line) == Some(u) <==> Trimmed(u) && u != "" && NamesSource(line, u)
  {
    if SourceOf(line) == Some(u) { ReadSourceIsThere(line, u); }
    if Trimmed(u) && u != "" && NamesSource(line, u) {
      var x, y, z :| Spaces(x) && Spaces(y) && Spaces(z) && line == x + "Source:" + y + u + z;
      SourceIsRead(x, y, u, z);
    }
  }

  lemma ReadSourceIsThere(line: string, u: string)
    requires SourceOf(line) == Some(u)
    ensures Trimmed(u) && u != "" && NamesSource(line, u)
  {
    var a, b := StripParts(line);
    var rest := Strip(line)[|"Source:"|..];
    var c, d := StripParts(rest);
    AfterPrefix("Source:", Strip(line));
    Regroup(a, "Source:", c, u, d, b);
    assert Spaces(d + b);
  }

  lemma AfterPrefix(prefix: string, s: string)
    requires prefix <= s
    ensures s == prefix + s[|prefix|..]
  {
  }

  lemma Regroup(a: string, key: string, c: string, u: string, d: string, b: string)
    ensures a + (key + (c + u + d)) + b == a + key + c + u + (d + b)
  {
  }

  ghost predicate NamesSource(line: string, u: string) {
    exists a, b, c :: Spaces(a) && Spaces(b) && Spaces(c) && line == a + "Source:" + b + u + c
  }

  lemma SourceIsRead(a: string, b: string, u: string, c: string)
    requires Spaces(a) && Spaces(b) && Spaces(c) && Trimmed(u) && u != ""
    ensures SourceOf(a + "Source:" + b + u + c) == Some(u)
  {
    var core := "Source:" + b + u;
    assert core[0] == 'S' && core[|core| - 1] == u[|u| - 1];
    assert a + "Source:" + b + u + c == a + core + c;
    StripTakesOff(a, core, c);
    assert core[|"Source:"|..] == b + u == b + u + "";
    StripTakesOff(b, u, "");
  }

  /** A round searches for the first three of the sub-queries, or for the query itself. */
  lemma QueriesSearched(w: World, all: seq<string>)
    ensures var subs := SubQueries(w, Some(all)); subs <= all && |subs| == if |all| < 3 then |all| else 3
    ensures SubQueries(w, None) == [w.query]
  {
  }
}
