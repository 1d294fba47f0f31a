/**
 * The session: `App` with its `new` and `find_and_handle_matches`, the
 * key dispatch and the `running` loop of `main`. The pure functions
 * State/Step/Run describe the session as values; the class and the loop
 * are proved to follow them.
 */
module Session {
  import opened Wrappers
  import opened Seqs
  import opened Text
  import opened Shortcuts
  import opened Matcher
  import opened Resolver

  /**
   * One turn of the input poll. `Edit(line)` is any key other than Esc,
   * carrying the search field's first line after the text editor applied
   * that key; `Idle` is a poll that timed out or an event that is not a key.
   */
  datatype KeyEvent = Esc | Edit(line: string) | Idle

  /** The outcome of loading the configuration. */
  type LoadResult = Result<Config, LoadConfigError>

  /** The mutable part of `App`, as a value. */
  datatype State = State(matched: seq<Shortcut>, running: bool)

  /** Every shortcut the session can show: the configuration's, or none when it failed to load. */
  function Corpus(config: LoadResult): seq<Shortcut> {
    if config.Ok? then config.value.shortcuts else []
  }

  /** The state `App::new` builds. */
  function Initial(config: LoadResult): (s: State)
    ensures s.running
    ensures config.Ok? ==> s.matched == config.value.shortcuts
    ensures config.Err? ==> s.matched == []
  {
    State(Corpus(config), true)
  }

  /** The match list after the query became `search`: recomputed only when the configuration loaded. */
  function MatchedAfterEdit(config: LoadResult, s: State, search: string): seq<Shortcut> {
    if config.Ok? then Find(config.value.shortcuts, search) else s.matched
  }

  /** A target was resolved from `matched` and the host opened it. */
  predicate Launches(matched: seq<Shortcut>, search: string, host: Host) {
    var target := ResolveTarget(matched, search, host);
    target.Some? && host.open(target.value)
  }

  /** `find_and_handle_matches` on the state: re-match, resolve, and stop only after a successful launch. */
  function HandleEdit(config: LoadResult, s: State, search: string, host: Host): State {
    var matched := MatchedAfterEdit(config, s, search);
    State(matched, if Launches(matched, search, host) then false else s.running)
  }

  /** The key dispatch in `main`. */
  function Step(config: LoadResult, s: State, key: KeyEvent, host: Host): State {
    match key
    case Esc => State(s.matched, false)
    case Edit(line) => HandleEdit(config, s, line, host)
    case Idle => s
  }

  /** The loop of `main`: handle keys in order until `running` is false or the keys run out. */
  function Run(config: LoadResult, s: State, keys: seq<KeyEvent>, host: Host): State
    decreases |keys|
  {
    if !s.running || keys == [] then s
    else Run(config, Step(config, s, keys[0], host), keys[1..], host)
  }

  /** The match list is always drawn from the corpus in corpus order. */
  ghost predicate Consistent(config: LoadResult, s: State) {
    IsSubsequence(s.matched, Corpus(config))
  }

  /**
   * One step stops the session exactly on Esc or on an edit whose resolved
   * target opened; neither a failed launch nor an idle poll stops it, and a
   * stopped session stays stopped.
   */
  lemma StepRunning(config: LoadResult, s: State, key: KeyEvent, host: Host)
    ensures Step(config, s, key, host).running <==>
      s.running && !key.Esc? &&
      !(key.Edit? && Launches(MatchedAfterEdit(config, s, key.line), key.line, host))
  {
  }

  /** Esc and idle polls leave the match list alone; an edit sets it from the corpus, or leaves it when loading failed. */
  lemma StepMatched(config: LoadResult, s: State, key: KeyEvent, host: Host)
    ensures !key.Edit? ==> Step(config, s, key, host).matched == s.matched
    ensures key.Edit? && config.Ok? ==> Step(config, s, key, host).matched == Find(config.value.shortcuts, key.line)
    ensures key.Edit? && config.Err? ==> Step(config, s, key, host).matched == s.matched
  {
  }

  /** Every entry on the match list is a configured shortcut. */
  lemma ConsistentEntries(config: LoadResult, s: State, x: Shortcut)
    requires Consistent(config, s) && x in s.matched
    ensures x in Corpus(config)
  {
    SubsequenceElements(s.matched, Corpus(config), x);
  }

  lemma InitialConsistent(config: LoadResult)
    ensures Consistent(config, Initial(config))
  {
    SubsequenceReflexive(Corpus(config));
  }

  lemma StepConsistent(config: LoadResult, s: State, key: KeyEvent, host: Host)
    requires Consistent(config, s)
    ensures Consistent(config, Step(config, s, key, host))
  {
    if key.Edit? && config.Ok? {
      FindIsSubsequence(config.value.shortcuts, key.line);
    }
  }

  /** Every state the loop reaches from a consistent state is consistent. */
  lemma {:induction false} RunConsistent(config: LoadResult, s: State, keys: seq<KeyEvent>, host: Host)
    requires Consistent(config, s)
    ensures Consistent(config, Run(config, s, keys, host))
    decreases |keys|
  {
    if s.running && keys != [] {
      StepConsistent(config, s, keys[0], host);
      RunConsistent(config, Step(config, s, keys[0], host), keys[1..], host);
    }
  }

  /** Running two batches of keys in turn is running them together. */
  lemma {:induction false} RunConcat(config: LoadResult, s: State, k1: seq<KeyEvent>, k2: seq<KeyEvent>, host: Host)
    ensures Run(config, s, k1 + k2, host) == Run(config, Run(config, s, k1, host), k2, host)
    decreases |k1|
  {
    if k1 == [] {
      assert k1 + k2 == k2;
    } else if s.running {
      assert (k1 + k2)[0] == k1[0];
      assert (k1 + k2)[1..] == k1[1..] + k2;
      RunConcat(config, Step(config, s, k1[0], host), k1[1..], k2, host);
    }
  }

  /** After the session stopped, or once every key was handled, the remaining keys change nothing. */
  lemma RunStopped(config: LoadResult, s: State, keys: seq<KeyEvent>, n: nat, host: Host)
    requires n <= |keys|
    requires !Run(config, s, keys[..n], host).running || n == |keys|
    ensures Run(config, s, keys, host) == Run(config, s, keys[..n], host)
  {
    RunConcat(config, s, keys[..n], keys[n..], host);
    assert keys[..n] + keys[n..] == keys;
  }

  /** Every state the loop reaches from the start is consistent, so it shows only configured shortcuts. */
  lemma RunEntries(config: LoadResult, keys: seq<KeyEvent>, host: Host)
    ensures Consistent(config, Run(config, Initial(config), keys, host))
    ensures forall x :: x in Run(config, Initial(config), keys, host).matched ==> x in Corpus(config)
  {
    InitialConsistent(config);
    RunConsistent(config, Initial(config), keys, host);
    forall x | x in Run(config, Initial(config), keys, host).matched
      ensures x in Corpus(config)
    {
      ConsistentEntries(config, Run(config, Initial(config), keys, host), x);
    }
  }

  /** One more key is handled only while the session is still running. */
  lemma RunSnoc(config: LoadResult, s: State, keys: seq<KeyEvent>, key: KeyEvent, host: Host)
    ensures Run(config, s, keys + [key], host) ==
      var t := Run(config, s, keys, host);
      if t.running then Step(config, t, key, host) else t
  {
    RunConcat(config, s, keys, [key], host);
    var t := Run(config, s, keys, host);
    if t.running {
      assert [key][1..] == [];
    }
  }

  /** Once Esc has been pressed, the session is over. */
  lemma {:induction false} EscStops(config: LoadResult, s: State, keys: seq<KeyEvent>, host: Host)
    requires Esc in keys
    ensures !Run(config, s, keys, host).running
    decreases |keys|
  {
    if s.running {
      if keys[0] != Esc {
        EscStops(config, Step(config, s, keys[0], host), keys[1..], host);
      }
    }
  }

  /** A stopping key after the first, seen from the state before the first. */
  lemma StopsAtShift(config: LoadResult, s: State, keys: seq<KeyEvent>, host: Host, i: nat)
    requires s.running && i + 1 < |keys|
    requires Run(config, Step(config, s, keys[0], host), keys[1..][..i], host).running
    requires StopsAt(config, Step(config, s, keys[0], host), keys[1..], host, i)
    ensures Run(config, s, keys[..i + 1], host).running
    ensures StopsAt(config, s, keys, host, i + 1)
  {
    var prefix := keys[..i + 1];
    assert prefix[0] == keys[0] && prefix[1..] == keys[1..][..i];
    assert Run(config, s, prefix, host) == Run(config, Step(config, s, keys[0], host), keys[1..][..i], host);
    assert keys[i + 1] == keys[1..][i];
  }

  /**
   * A running session stops only at some key that is Esc or an edit whose
   * target the host opened, met while the session was still running.
   */
  lemma {:induction false} StopsOnlyByEscOrLaunch(config: LoadResult, s: State, keys: seq<KeyEvent>, host: Host)
    requires s.running && !Run(config, s, keys, host).running
    ensures exists i :: 0 <= i < |keys| && Run(config, s, keys[..i], host).running && StopsAt(config, s, keys, host, i)
    decreases |keys|
  {
    var t := Step(config, s, keys[0], host);
    if !t.running {
      StepRunning(config, s, keys[0], host);
      assert Run(config, s, keys[..0], host).running && StopsAt(config, s, keys, host, 0) by {
        assert keys[..0] == [];
      }
    } else {
      StopsOnlyByEscOrLaunch(config, t, keys[1..], host);
      var i :| 0 <= i < |keys[1..]| && Run(config, t, keys[1..][..i], host).running && StopsAt(config, t, keys[1..], host, i);
      StopsAtShift(config, s, keys, host, i);
    }
  }

  /** Key `i` is Esc, or an edit that launched from the state the first `i` keys led to. */
  predicate StopsAt(config: LoadResult, s: State, keys: seq<KeyEvent>, host: Host, i: nat)
    requires i < |keys|
  {
    keys[i].Esc? ||
    (keys[i].Edit? &&
      Launches(MatchedAfterEdit(config, Run(config, s, keys[..i], host), keys[i].line), keys[i].line, host))
  }

  /**
   * A session whose configuration failed to load never matches and never
   * resolves a target: the list stays empty and only Esc ends it.
   */
  lemma {:induction false} LoadFailureNeverLaunches(config: LoadResult, s: State, keys: seq<KeyEvent>, host: Host)
    requires config.Err? && s.matched == []
    ensures Run(config, s, keys, host) == State([], s.running && Esc !in keys)
    ensures forall i :: 0 <= i < |keys| && keys[i].Edit? ==>
      ResolveTarget(MatchedAfterEdit(config, Run(config, s, keys[..i], host), keys[i].line), keys[i].line, host) == None
    decreases |keys|
  {
    forall i | 0 <= i < |keys| && keys[i].Edit?
      ensures ResolveTarget(MatchedAfterEdit(config, Run(config, s, keys[..i], host), keys[i].line), keys[i].line, host) == None
    {
      LoadFailureNeverLaunches(config, s, keys[..i], host);
      ResolveEmpty(keys[i].line, host);
    }
    if s.running && keys != [] {
      var t := Step(config, s, keys[0], host);
      assert t.matched == [];
      assert ResolveTarget([], if keys[0].Edit? then keys[0].line else "", host) == None;
      LoadFailureNeverLaunches(config, t, keys[1..], host);
      assert keys == [keys[0]] + keys[1..];
    }
  }

  /** From `App::new` after a failed load: whatever is typed, the list is empty, no target is resolved and only Esc stops. */
  lemma LoadFailureSession(config: LoadResult, keys: seq<KeyEvent>, host: Host)
    requires config.Err?
    ensures Run(config, Initial(config), keys, host) == State([], Esc !in keys)
    ensures forall i :: 0 <= i < |keys| && keys[i].Edit? ==>
      ResolveTarget(MatchedAfterEdit(config, Run(config, Initial(config), keys[..i], host), keys[i].line), keys[i].line, host) == None
  {
    LoadFailureNeverLaunches(config, Initial(config), keys, host);
  }

  /** The two shortcuts of the typing scenario below. */
  predicate ScenarioEntries(vscode: Shortcut, other: Shortcut) {
    vscode.sequences == ["vs", "code"] && vscode.pathPrefix.None? && vscode.path == "VSCode"
    && other.sequences == ["vsc"] && other.pathPrefix.None? && other.path == "OtherApp"
  }

  /** Which of the scenario's entries each typed prefix matches. */
  lemma ScenarioMatches(vscode: Shortcut, other: Shortcut)
    requires ScenarioEntries(vscode, other)
    ensures MatchesQuery(vscode, "v") && MatchesQuery(other, "v")
    ensures MatchesQuery(vscode, "vs") && MatchesQuery(other, "vs")
    ensures !MatchesQuery(vscode, "vsc") && MatchesQuery(other, "vsc")
  {
    assert vscode.sequences[0] == "vs" && other.sequences[0] == "vsc";
    ContainsPrefix("vs", "v");
    ContainsPrefix("vsc", "v");
    ContainsPrefix("vs", "vs");
    ContainsPrefix("vsc", "vs");
    ContainsPrefix("vsc", "vsc");
    if Contains("vs", "vsc") {
      ContainsNoLonger("vs", "vsc");
    }
    if Contains("code", "vsc") {
      ContainsFirstChar("code", "vsc");
    }
  }

  lemma ScenarioNotBlank()
    ensures !IsBlank("v") && !IsBlank("vs") && !IsBlank("vsc")
  {
    assert "v"[0] == 'v' && "vs"[0] == 'v' && "vsc"[0] == 'v';
  }

  /** The scenario's configuration. */
  function ScenarioConfig(vscode: Shortcut, other: Shortcut): LoadResult {
    Ok(Config([vscode, other]))
  }

  /** An edit on a two-entry corpus whose query matches both entries and is neither's alias keeps both and opens nothing. */
  lemma StepPairNoExact(a: Shortcut, b: Shortcut, s: State, search: string, host: Host)
    requires !IsBlank(search) && MatchesQuery(a, search) && MatchesQuery(b, search)
    requires !HasExactAlias(a, search) && !HasExactAlias(b, search)
    ensures Step(Ok(Config([a, b])), s, Edit(search), host) == State([a, b], s.running)
  {
    FindBothOfPair(a, b, search);
    assert FirstExactMatch([a, b], search) == None;
  }

  /** An edit on a two-entry corpus whose query matches both entries and is the first's alias tries to open the first. */
  lemma StepPairFirstExact(a: Shortcut, b: Shortcut, s: State, search: string, host: Host)
    requires !IsBlank(search) && MatchesQuery(a, search) && MatchesQuery(b, search)
    requires HasExactAlias(a, search)
    ensures Step(Ok(Config([a, b])), s, Edit(search), host) ==
      State([a, b], s.running && !host.open(PrefixedPath(a, host)))
  {
    FindBothOfPair(a, b, search);
    assert FirstExactMatch([a, b], search) == Some(0);
  }

  /** An edit on a two-entry corpus whose query matches only the second entry tries to open that entry. */
  lemma StepPairSecondOnly(a: Shortcut, b: Shortcut, s: State, search: string, host: Host)
    requires !IsBlank(search) && !MatchesQuery(a, search) && MatchesQuery(b, search)
    ensures Step(Ok(Config([a, b])), s, Edit(search), host) ==
      State([b], s.running && !host.open(PrefixedPath(b, host)))
  {
    FindSecondOfPair(a, b, search);
  }

  /** Typing "v" keeps both entries and opens nothing. */
  lemma ScenarioStepV(vscode: Shortcut, other: Shortcut, host: Host)
    requires ScenarioEntries(vscode, other)
    ensures var config := ScenarioConfig(vscode, other);
      Step(config, Initial(config), Edit("v"), host) == State([vscode, other], true)
  {
    ScenarioNotBlank();
    ScenarioMatches(vscode, other);
    assert "v" != "vs" && "v" != "code" && "v" != "vsc" by {
      assert |"v"| == 1;
    }
    StepPairNoExact(vscode, other, State([vscode, other], true), "v", host);
  }

  /** Typing "vs" keeps both entries and opens the first, whose alias it is. */
  lemma ScenarioStepVs(vscode: Shortcut, other: Shortcut, host: Host, s: State)
    requires ScenarioEntries(vscode, other)
    ensures Step(ScenarioConfig(vscode, other), s, Edit("vs"), host) ==
      State([vscode, other], s.running && !host.open("VSCode"))
  {
    ScenarioNotBlank();
    ScenarioMatches(vscode, other);
    assert vscode.sequences[0] == "vs";
    StepPairFirstExact(vscode, other, s, "vs", host);
    PrefixedPathWithoutPrefix(vscode, host);
  }

  /** Typing "vsc" leaves only the second entry, which is opened. */
  lemma ScenarioStepVsc(vscode: Shortcut, other: Shortcut, host: Host, s: State)
    requires ScenarioEntries(vscode, other)
    ensures Step(ScenarioConfig(vscode, other), s, Edit("vsc"), host) ==
      State([other], s.running && !host.open("OtherApp"))
  {
    ScenarioNotBlank();
    ScenarioMatches(vscode, other);
    StepPairSecondOnly(vscode, other, s, "vsc", host);
    PrefixedPathWithoutPrefix(other, host);
  }

  /*
   * Aliases "vs" and "code" for one app and "vsc" for another. Typing "v"
   * keeps both and opens nothing. Typing "vs" keeps both, but "vs" is an
   * alias of the first, so that app is opened. If that failed, typing
   * "vsc" leaves only the second, which is then opened.
   */

  lemma TypingScenarioV(vscode: Shortcut, other: Shortcut, host: Host)
    requires ScenarioEntries(vscode, other)
    ensures var config := ScenarioConfig(vscode, other);
      Run(config, Initial(config), [Edit("v")], host) == State([vscode, other], true)
  {
    var config := ScenarioConfig(vscode, other);
    ScenarioStepV(vscode, other, host);
    RunSnoc(config, Initial(config), [], Edit("v"), host);
    assert [] + [Edit("v")] == [Edit("v")];
  }

  lemma TypingScenarioVs(vscode: Shortcut, other: Shortcut, host: Host)
    requires ScenarioEntries(vscode, other)
    ensures var config := ScenarioConfig(vscode, other);
      Run(config, Initial(config), [Edit("v"), Edit("vs")], host) == State([vscode, other], !host.open("VSCode"))
  {
    var config := ScenarioConfig(vscode, other);
    TypingScenarioV(vscode, other, host);
    ScenarioStepVs(vscode, other, host, State([vscode, other], true));
    RunSnoc(config, Initial(config), [Edit("v")], Edit("vs"), host);
    assert [Edit("v")] + [Edit("vs")] == [Edit("v"), Edit("vs")];
  }

  lemma TypingScenarioVsc(vscode: Shortcut, other: Shortcut, host: Host)
    requires ScenarioEntries(vscode, other) && !host.open("VSCode")
    ensures var config := ScenarioConfig(vscode, other);
      Run(config, Initial(config), [Edit("v"), Edit("vs"), Edit("vsc")], host) == State([other], !host.open("OtherApp"))
  {
    var config := ScenarioConfig(vscode, other);
    TypingScenarioVs(vscode, other, host);
    ScenarioStepVsc(vscode, other, host, State([vscode, other], true));
    RunSnoc(config, Initial(config), [Edit("v"), Edit("vs")], Edit("vsc"), host);
    assert [Edit("v"), Edit("vs")] + [Edit("vsc")] == [Edit("v"), Edit("vs"), Edit("vsc")];
  }

  /** `App`: the loaded configuration, the current match list and the running flag. */
  class App {
    const config: LoadResult
    var matchedShortcuts: seq<Shortcut>
    var running: bool

    function Snapshot(): State
      reads this
    {
      State(matchedShortcuts, running)
    }

    /** `App::new`, with the outcome of `load_config` passed in. */
    constructor (config: LoadResult)
      ensures this.config == config
      ensures running
      ensures config.Ok? ==> matchedShortcuts == config.value.shortcuts
      ensures config.Err? ==> matchedShortcuts == []
      ensures Snapshot() == Initial(config)
    {
      this.config := config;
      running := true;
      matchedShortcuts := [];
      new;
      if config.Ok? {
        matchedShortcuts := config.value.shortcuts;
      }
    }

    /**
     * `find_and_handle_matches`: re-match when the configuration loaded,
     * resolve a target, try to open it, and stop running only when that
     * succeeded. Returns the target handed to the host, if any.
     */
    method FindAndHandleMatches(search: string, host: Host) returns (target: Option<string>)
      modifies this
      ensures matchedShortcuts == (if config.Ok? then Find(config.value.shortcuts, search) else old(matchedShortcuts))
      ensures target == ResolveTarget(matchedShortcuts, search, host)
      ensures running == (if target.Some? && host.open(target.value) then false else old(running))
      ensures Snapshot() == HandleEdit(config, old(Snapshot()), search, host)
    {
      if config.Ok? {
        matchedShortcuts := Find(config.value.shortcuts, search);
      }
      target := ResolveTarget(matchedShortcuts, search, host);
      if target.Some? {
        var launched := host.open(target.value);
        if launched {
          running := false;
        }
      }
    }

    /** The `match key_event.code` of `main`. */
    method HandleKey(key: KeyEvent, host: Host)
      modifies this
      ensures Snapshot() == Step(config, old(Snapshot()), key, host)
    {
      match key
      case Esc =>
        running := false;
      case Edit(line) =>
        var _ := FindAndHandleMatches(line, host);
      case Idle =>
    }
  }

  /**
   * `main` without the terminal: build the session, then take keys while
   * it is running. Returns the final state and how many keys were read;
   * the keys after those are never looked at.
   */
  method RunLauncher(config: LoadResult, keys: seq<KeyEvent>, host: Host) returns (final: State, handled: nat)
    ensures final == Run(config, Initial(config), keys, host)
    ensures handled <= |keys| && final == Run(config, Initial(config), keys[..handled], host)
    ensures final.running ==> handled == |keys|
    ensures handled > 0 ==> Run(config, Initial(config), keys[..handled - 1], host).running
    ensures Consistent(config, final)
    ensures forall x :: x in final.matched ==> x in Corpus(config)
  {
    var app := new App(config);
    handled := 0;
    while app.running && handled < |keys|
      invariant handled <= |keys|
      invariant app.config == config
      invariant app.Snapshot() == Run(config, Initial(config), keys[..handled], host)
      invariant handled > 0 ==> Run(config, Initial(config), keys[..handled - 1], host).running
      decreases |keys| - handled
    {
      RunSnoc(config, Initial(config), keys[..handled], keys[handled], host);
      assert keys[..handled + 1] == keys[..handled] + [keys[handled]];
      ghost var before := keys[..handled];
      app.HandleKey(keys[handled], host);
      handled := handled + 1;
      assert keys[..handled - 1] == before;
    }
    final := app.Snapshot();
    RunStopped(config, Initial(config), keys, handled, host);
    RunEntries(config, keys, host);
  }
}
