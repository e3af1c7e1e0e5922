/** The alias table the program ships, and that it has the order the lookup's results ask for. */
module ShippedAliases {
  import opened Prelude
  import opened ModelPricingLookup

  const CLAUDE: Aliases := [
    ("claude-sonnet-4", "claude-sonnet-4-20250514"),
    ("claude-opus-4-1", "claude-opus-4-1"),
    ("claude-opus-4-8", "claude-opus-4-8"),
    ("claude-opus-4", "claude-opus-4-20250514"),
    ("claude-haiku-4-5", "claude-haiku-4-5"),
    ("claude-sonnet-5", "claude-sonnet-5"),
    ("claude-3-5-sonnet", "claude-3-5-sonnet-20241022"),
    ("claude-3-5-haiku", "claude-3-5-haiku-20241022"),
    ("claude-3-opus", "claude-3-opus-20240229"),
    ("claude-3-haiku", "claude-3-haiku-20240307")
  ]

  const GPT: Aliases := [
    ("gpt-4.1-nano", "gpt-4.1-nano"),
    ("gpt-4.1-mini", "gpt-4.1-mini"),
    ("gpt-4.1", "gpt-4.1"),
    ("gpt-4o-mini", "gpt-4o-mini"),
    ("gpt-4o", "gpt-4o"),
    ("gpt-4-turbo", "gpt-4-turbo")
  ]

  const O_SERIES: Aliases := [
    ("o3-mini", "o3-mini"),
    ("o3", "o3"),
    ("o1-mini", "o1-mini"),
    ("o1", "o1")
  ]

  const GEMINI: Aliases := [
    ("gemini-2.5-pro", "gemini-2.5-pro"),
    ("gemini-2.5-flash", "gemini-2.5-flash"),
    ("gemini-2.0-flash", "gemini-2.0-flash"),
    ("gemini-1.5-pro", "gemini-1.5-pro"),
    ("gemini-1.5-flash", "gemini-1.5-flash")
  ]

  const BEDROCK: Aliases := [
    ("anthropic.claude-3-5-sonnet", "claude-3-5-sonnet-20241022"),
    ("anthropic.claude-3-5-haiku", "claude-3-5-haiku-20241022"),
    ("anthropic.claude-3-opus", "claude-3-opus-20240229"),
    ("anthropic.claude-sonnet-4", "claude-sonnet-4-20250514"),
    ("anthropic.claude-opus-4-8", "claude-opus-4-8"),
    ("anthropic.claude-opus-4", "claude-opus-4-20250514"),
    ("anthropic.claude-haiku-4-5", "claude-haiku-4-5"),
    ("anthropic.claude-sonnet-5", "claude-sonnet-5")
  ]

  const LLAMA: Aliases := [
    ("meta.llama3-3-70b-instruct", "llama-3.3-70b-instruct"),
    ("meta.llama3-1-405b-instruct", "llama-3.1-405b-instruct"),
    ("meta.llama3-1-70b-instruct", "llama-3.1-70b-instruct"),
    ("meta.llama3-1-8b-instruct", "llama-3.1-8b-instruct")
  ]

  const MISTRAL: Aliases := [
    ("mistral-large", "mistral-large-latest"),
    ("mistral-small", "mistral-small-latest")
  ]

  const SHIPPED := CLAUDE + (GPT + (O_SERIES + (GEMINI + (BEDROCK + (LLAMA + MISTRAL)))))

  /** Every prefix has one of these characters at position `k`. */
  ghost predicate Marked(aliases: Aliases, k: nat, marks: set<char>) {
    forall i | 0 <= i < |aliases| :: |aliases[i].0| > k && aliases[i].0[k] in marks
  }

  lemma MarkedTogether(a: Aliases, b: Aliases, k: nat, marks: set<char>, others: set<char>)
    requires Marked(a, k, marks) && Marked(b, k, others)
    ensures Marked(a + b, k, marks + others)
  {
  }

  /** Families that differ at one position cannot shadow each other. */
  lemma Join(a: Aliases, b: Aliases, k: nat, marks: set<char>, others: set<char>)
    requires LongestFirst(a) && LongestFirst(b)
    requires Marked(a, k, marks) && Marked(b, k, others) && marks !! others
    ensures LongestFirst(a + b)
  {
    var all := a + b;
    forall i, j | 0 <= i < j < |all| ensures !(all[i].0 < all[j].0) {
      if i < |a| <= j {
        assert all[i].0[k] != all[j].0[k];
      }
    }
  }

  lemma ClaudeOrdered()
    ensures LongestFirst(CLAUDE)
  {
    assert CLAUDE[0].0[7] == 's';
    assert CLAUDE[1].0[7] == 'o';
    assert CLAUDE[2].0[7] == 'o';
    assert CLAUDE[3].0[7] == 'o';
    assert CLAUDE[4].0[7] == 'h';
    assert CLAUDE[5].0[7] == 's';
    assert CLAUDE[6].0[7] == '3';
    assert CLAUDE[7].0[7] == '3';
    assert CLAUDE[8].0[9] == 'o';
    assert CLAUDE[9].0[7] == '3';
    assert CLAUDE[9].0[9] == 'h';
  }

  lemma ClaudeMarks()
    ensures Marked(CLAUDE, 1, {'l'})
  {
  }

  lemma GptOrdered()
    ensures LongestFirst(GPT)
  {
    assert GPT[2].0[5] == '.';
    assert GPT[3].0[5] == 'o';
    assert GPT[4].0[5] == 'o';
    assert GPT[5].0[5] == '-';
  }

  lemma GptMarks()
    ensures Marked(GPT, 1, {'p'})
  {
  }

  lemma OSeriesOrdered()
    ensures LongestFirst(O_SERIES)
  {
    assert O_SERIES[1].0[1] == '3';
    assert O_SERIES[2].0[1] == '1';
  }

  lemma OSeriesMarks()
    ensures Marked(O_SERIES, 1, {'1', '3'})
  {
  }

  lemma GeminiOrdered()
    ensures LongestFirst(GEMINI)
  {
    assert GEMINI[0].0[7] == '2';
    assert GEMINI[0].0[9] == '5';
    assert GEMINI[0].0[11] == 'p';
    assert GEMINI[1].0[11] == 'f';
    assert GEMINI[2].0[9] == '0';
    assert GEMINI[3].0[11] == 'p';
    assert GEMINI[4].0[7] == '1';
    assert GEMINI[4].0[11] == 'f';
  }

  lemma GeminiMarks()
    ensures Marked(GEMINI, 1, {'e'}) && Marked(GEMINI, 2, {'m'})
  {
  }

  lemma BedrockOrdered()
    ensures LongestFirst(BEDROCK)
  {
    assert BEDROCK[2].0[17] == '3';
    assert BEDROCK[3].0[17] == 's';
    assert BEDROCK[4].0[17] == 'o';
    assert BEDROCK[5].0[17] == 'o';
    assert BEDROCK[6].0[17] == 'h';
    assert BEDROCK[7].0[17] == 's';
  }

  lemma BedrockMarks()
    ensures Marked(BEDROCK, 1, {'n'}) && Marked(BEDROCK, 2, {'t'})
  {
  }

  lemma LlamaOrdered()
    ensures LongestFirst(LLAMA)
  {
    assert LLAMA[0].0[12] == '3';
    assert LLAMA[1].0[12] == '1';
  }

  lemma LlamaMarks()
    ensures Marked(LLAMA, 1, {'e'}) && Marked(LLAMA, 2, {'t'})
  {
  }

  lemma MistralOrdered()
    ensures LongestFirst(MISTRAL)
  {
  }

  lemma MistralMarks()
    ensures Marked(MISTRAL, 1, {'i'}) && Marked(MISTRAL, 2, {'s'})
  {
  }

  /** No shipped prefix shadows a longer one that comes later. */
  lemma ShippedLongestFirst()
    ensures LongestFirst(SHIPPED)
  {
    var meta, bedrock := LLAMA + MISTRAL, BEDROCK + (LLAMA + MISTRAL);
    LlamaOrdered(); LlamaMarks(); MistralOrdered(); MistralMarks();
    Join(LLAMA, MISTRAL, 1, {'e'}, {'i'});
    MarkedTogether(LLAMA, MISTRAL, 1, {'e'}, {'i'});
    MarkedTogether(LLAMA, MISTRAL, 2, {'t'}, {'s'});
    BedrockOrdered(); BedrockMarks();
    Join(BEDROCK, meta, 1, {'n'}, {'e', 'i'});
    MarkedTogether(BEDROCK, meta, 1, {'n'}, {'e', 'i'});
    MarkedTogether(BEDROCK, meta, 2, {'t'}, {'t', 's'});
    GeminiOrdered(); GeminiMarks();
    Join(GEMINI, bedrock, 2, {'m'}, {'t', 's'});
    MarkedTogether(GEMINI, bedrock, 1, {'e'}, {'n', 'e', 'i'});
    FrontLongestFirst(GEMINI + bedrock);
  }

  lemma FrontLongestFirst(rest: Aliases)
    requires LongestFirst(rest) && Marked(rest, 1, {'n', 'e', 'i'})
    ensures LongestFirst(CLAUDE + (GPT + (O_SERIES + rest)))
  {
    OSeriesOrdered(); OSeriesMarks();
    Join(O_SERIES, rest, 1, {'1', '3'}, {'n', 'e', 'i'});
    MarkedTogether(O_SERIES, rest, 1, {'1', '3'}, {'n', 'e', 'i'});
    GptOrdered(); GptMarks();
    Join(GPT, O_SERIES + rest, 1, {'p'}, {'1', '3', 'n', 'e', 'i'});
    MarkedTogether(GPT, O_SERIES + rest, 1, {'p'}, {'1', '3', 'n', 'e', 'i'});
    ClaudeOrdered(); ClaudeMarks();
    Join(CLAUDE, GPT + (O_SERIES + rest), 1, {'l'}, {'p', '1', '3', 'n', 'e', 'i'});
  }

  /** With the shipped table an id without a dot that has no exact entry, dated or not, gets its
      longest matching alias, and nothing without one. */
  lemma UndottedIdInShippedTable(known: set<string>, id: string)
    requires id != "" && AfterDot(id) == None && FirstExact(known, Dated(id)) == None
    ensures match FirstAlias(SHIPPED, known, [id])
            case None => Resolve(SHIPPED, known, id) == None
            case Some(i) => Resolve(SHIPPED, known, id) == Some(SHIPPED[i].1) && IsLongest(SHIPPED, known, id, i)
  {
    ShippedLongestFirst();
    UndottedIdGetsLongestAlias(SHIPPED, known, id);
  }

  /** The same for every id: with the shipped table each of its spellings leads to its longest
      matching alias, and the earlier of the two prices it. */
  lemma AnyIdInShippedTable(known: set<string>, id: string)
    requires id != "" && FirstExact(known, Candidates(id)) == None
    ensures var own, inner := OwnAlias(SHIPPED, known, id), InnerAlias(SHIPPED, known, id);
            && (own.Some? ==> IsLongest(SHIPPED, known, id, own.value))
            && (inner.Some? ==> IsLongest(SHIPPED, known, Fragment(id).value, inner.value))
            && Resolve(SHIPPED, known, id) ==
                 match Earlier(own, inner) case Some(i) => Some(SHIPPED[i].1) case None => None
  {
    ShippedLongestFirst();
    EarlierSpellingWins(SHIPPED, known, id);
  }
}
