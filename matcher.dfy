/** `ShortcutsTrait::find`: filtering the corpus by the typed query. */
module Matcher {
  import opened Seqs
  import opened Text
  import opened Shortcuts

  /** Some alias of `s` contains `search` as a literal substring. */
  predicate MatchesQuery(s: Shortcut, search: string) {
    exists alias :: alias in s.sequences && Contains(alias, search)
  }

  /**
   * The shortcuts to show for the query `search`: all of them when the
   * trimmed query is empty, otherwise those with an alias containing the
   * untrimmed query, in corpus order.
   */
  function Find(shortcuts: seq<Shortcut>, search: string): (r: seq<Shortcut>)
    ensures IsBlank(search) ==> r == shortcuts
    ensures forall s :: s in r <==> s in shortcuts && (IsBlank(search) || MatchesQuery(s, search))
  {
    TrimEmptyIffBlank(search);
    if Trim(search) == [] then shortcuts
    else
      var r := Filter(shortcuts, s => MatchesQuery(s, search));
      assert forall s :: s in r <==> s in shortcuts && MatchesQuery(s, search) by {
        forall s ensures s in r <==> s in shortcuts && MatchesQuery(s, search) {
          FilterMembership(shortcuts, s => MatchesQuery(s, search), s);
        }
      }
      r
  }

  /** The empty corpus yields nothing, whatever the query. */
  lemma FindEmptyCorpus(search: string)
    ensures Find([], search) == []
  {
  }

  /** A one-entry corpus yields that entry exactly when the query is blank or matches it. */
  lemma FindSingleton(s: Shortcut, search: string)
    ensures Find([s], search) == if IsBlank(search) || MatchesQuery(s, search) then [s] else []
  {
  }

  /** A two-entry corpus, entry by entry. */
  lemma FindPair(a: Shortcut, b: Shortcut, search: string)
    ensures Find([a, b], search) ==
      (if IsBlank(search) || MatchesQuery(a, search) then [a] else []) +
      (if IsBlank(search) || MatchesQuery(b, search) then [b] else [])
  {
    FindSingleton(a, search);
    FindSingleton(b, search);
    FindConcat([a], [b], search);
    assert [a] + [b] == [a, b];
  }

  /** A non-blank query matching both entries of a pair keeps both. */
  lemma FindBothOfPair(a: Shortcut, b: Shortcut, search: string)
    requires !IsBlank(search) && MatchesQuery(a, search) && MatchesQuery(b, search)
    ensures Find([a, b], search) == [a, b]
  {
    FindPair(a, b, search);
  }

  /** A non-blank query matching only the second entry of a pair keeps that entry alone. */
  lemma FindSecondOfPair(a: Shortcut, b: Shortcut, search: string)
    requires !IsBlank(search) && !MatchesQuery(a, search) && MatchesQuery(b, search)
    ensures Find([a, b], search) == [b]
  {
    FindPair(a, b, search);
  }

  /**
   * Finding distributes over concatenation; with FindSingleton this
   * pins down the result entry by entry and in corpus order.
   */
  lemma FindConcat(a: seq<Shortcut>, b: seq<Shortcut>, search: string)
    ensures Find(a + b, search) == Find(a, search) + Find(b, search)
  {
    TrimEmptyIffBlank(search);
    if !IsBlank(search) {
      FilterConcat(a, b, s => MatchesQuery(s, search));
    }
  }

  /** The result keeps corpus order: it is a subsequence of the corpus. */
  lemma FindIsSubsequence(shortcuts: seq<Shortcut>, search: string)
    ensures IsSubsequence(Find(shortcuts, search), shortcuts)
  {
    TrimEmptyIffBlank(search);
    if IsBlank(search) {
      SubsequenceReflexive(shortcuts);
    } else {
      FilterIsSubsequence(shortcuts, s => MatchesQuery(s, search));
    }
  }

  /** Searching the result again with the same query changes nothing. */
  lemma FindIdempotent(shortcuts: seq<Shortcut>, search: string)
    ensures Find(Find(shortcuts, search), search) == Find(shortcuts, search)
  {
    TrimEmptyIffBlank(search);
    if !IsBlank(search) {
      FilterIdempotent(shortcuts, s => MatchesQuery(s, search));
    }
  }

  /** An entry with no aliases is returned only for a blank query. */
  lemma FindSkipsAliaslessEntries(shortcuts: seq<Shortcut>, search: string, s: Shortcut)
    requires s.sequences == []
    requires !IsBlank(search)
    ensures s !in Find(shortcuts, search)
  {
  }

  /** An entry one of whose aliases equals the query is always among the results. */
  lemma FindKeepsExactAlias(shortcuts: seq<Shortcut>, search: string, s: Shortcut)
    requires s in shortcuts
    requires search in s.sequences
    ensures s in Find(shortcuts, search)
  {
    ContainsSelf(search);
  }

  /** The whitespace test trims, the containment test does not: " vs" does not find alias "vs". */
  lemma FindUsesUntrimmedQuery(s: Shortcut)
    requires s.sequences == ["vs"]
    ensures Find([s], " vs") == []
    ensures Find([s], "vs") == [s]
  {
    assert " vs"[1] == 'v' && !IsWhitespace('v');
    assert "vs"[0] == 'v';
    assert !MatchesQuery(s, " vs") by {
      if Contains("vs", " vs") {
        ContainsNoLonger("vs", " vs");
      }
    }
    FindSingleton(s, " vs");
    ContainsSelf("vs");
    assert MatchesQuery(s, "vs");
    FindSingleton(s, "vs");
  }
}
