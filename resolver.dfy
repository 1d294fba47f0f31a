/**
 * The target decision inside `App::find_and_handle_matches`: which
 * matched shortcut, if any, is opened after an edit.
 */
module Resolver {
  import opened Wrappers
  import opened Text
  import opened Seqs
  import opened Shortcuts
  import opened Matcher

  /** Some alias of `s` is exactly the query. */
  predicate HasExactAlias(s: Shortcut, search: string) {
    search in s.sequences
  }

  /** Position `i` holds the first entry of `matched` with an alias equal to the query. */
  predicate IsFirstExact(matched: seq<Shortcut>, search: string, i: nat) {
    i < |matched| && HasExactAlias(matched[i], search)
    && forall j :: 0 <= j < i ==> !HasExactAlias(matched[j], search)
  }

  /** The index Rust's `iter().find(..)` stops at, or None when no alias equals the query. */
  function FirstExactMatch(matched: seq<Shortcut>, search: string): (r: Option<nat>)
    ensures r.Some? ==> IsFirstExact(matched, search, r.value)
    ensures r.None? ==> forall j :: 0 <= j < |matched| ==> !HasExactAlias(matched[j], search)
  {
    if matched == [] then None
    else if HasExactAlias(matched[0], search) then Some(0)
    else match FirstExactMatch(matched[1..], search)
      case None => None
      case Some(i) => Some(i + 1)
  }

  /**
   * The path to open: the sole matched entry's, whatever the query;
   * otherwise that of the first entry having an alias equal to the query;
   * otherwise none.
   */
  function ResolveTarget(matched: seq<Shortcut>, search: string, host: Host): (r: Option<string>)
    ensures |matched| == 1 ==> r == Some(PrefixedPath(matched[0], host))
    ensures |matched| != 1 && r.Some? ==>
      exists i: nat :: IsFirstExact(matched, search, i) && r.value == PrefixedPath(matched[i], host)
    ensures |matched| != 1 && r.None? ==>
      forall j :: 0 <= j < |matched| ==> !HasExactAlias(matched[j], search)
  {
    if |matched| == 1 then Some(PrefixedPath(matched[0], host))
    else match FirstExactMatch(matched, search)
      case None => None
      case Some(i) => Some(PrefixedPath(matched[i], host))
  }

  /** With several candidates, a target exists exactly when some candidate has the query as an alias. */
  lemma ResolveSeveral(matched: seq<Shortcut>, search: string, host: Host)
    requires |matched| != 1
    ensures ResolveTarget(matched, search, host).Some? <==>
      exists j :: 0 <= j < |matched| && HasExactAlias(matched[j], search)
  {
    var r := ResolveTarget(matched, search, host);
    if r.Some? {
      var i: nat :| IsFirstExact(matched, search, i) && r.value == PrefixedPath(matched[i], host);
      assert HasExactAlias(matched[i], search);
    }
  }

  /** Nothing is ever opened from an empty match list. */
  lemma ResolveEmpty(search: string, host: Host)
    ensures ResolveTarget([], search, host) == None
  {
  }

  /**
   * After a search, an entry having the query as an alias is found and so
   * some target is always resolved: typing a full alias always launches
   * something.
   */
  lemma ExactAliasAlwaysResolves(shortcuts: seq<Shortcut>, search: string, host: Host, s: Shortcut)
    requires s in shortcuts && HasExactAlias(s, search)
    ensures ResolveTarget(Find(shortcuts, search), search, host).Some?
  {
    var m := Find(shortcuts, search);
    FindKeepsExactAlias(shortcuts, search, s);
    if |m| != 1 {
      var j :| 0 <= j < |m| && m[j] == s;
      ResolveSeveral(m, search, host);
    }
  }

  /** Two candidates "git" and "github": the query "git" picks the first, not the longer alias. */
  lemma ResolvePrefersExactAlias(git: Shortcut, github: Shortcut, host: Host)
    requires git.sequences == ["git"] && github.sequences == ["github"]
    ensures ResolveTarget([git, github], "git", host) == Some(PrefixedPath(git, host))
  {
    assert HasExactAlias(git, "git");
  }

  /** Two candidates and a query that is no alias of either: nothing is resolved. */
  lemma ResolveNoExactAlias(git: Shortcut, github: Shortcut, host: Host)
    requires git.sequences == ["git"] && github.sequences == ["github"]
    ensures ResolveTarget([git, github], "gi", host) == None
  {
    assert "gi" != "git" && "gi" != "github" by {
      assert |"gi"| == 2;
    }
    assert !HasExactAlias(git, "gi") && !HasExactAlias(github, "gi");
  }

  /** A sole remaining candidate is opened even though the query is only part of its alias. */
  lemma ResolveSoleCandidate(browser: Shortcut, host: Host)
    requires browser.sequences == ["browser"]
    ensures ResolveTarget([browser], "bro", host) == Some(PrefixedPath(browser, host))
  {
  }
}
