# bullet launcher: matching, resolution and session model

This project models the core of `bullet`, a terminal launcher. The user types into a one-line search field. The launcher filters a configured list of shortcuts (apps, directories, files, URLs) by their aliases. When one entry remains, or the query is exactly an alias of one of the remaining entries, it tries to open that entry's target, and it exits if opening succeeds. Everything here comes from `src/main.rs`.

Modules, leaves first:

- `Wrappers`: `Option` and `Result`.
- `Seqs`: an order-preserving `Filter`, the subsequence relation and `Flatten`, with their lemmas.
- `Text`: the parts of Rust's `str` that the core uses. `IsWhitespace` is Rust's `char::is_whitespace`, the Unicode White_Space set. `TrimStart`, `TrimEnd` and `Trim` model `str::trim`. `Contains` is the literal substring test. `ReplaceBackslashes` is `replace("\\", "/")`.
- `Shortcuts`: the records `ShortcutKind`, `ShortcutPathPrefix`, `Shortcut`, `Config` and `LoadConfigError`. It also holds `Host`, which stands for the operating system (the two base directories, path joining, opening a target), and `Shortcut::get_prefixed_path` as `PrefixedPath`.
- `Matcher`: `ShortcutsTrait::find` as `Find`.
- `Resolver`: the block of `find_and_handle_matches` that chooses the target, as `ResolveTarget`.
- `Session`: the session state as values (`State`, `Initial`, `Step`, `Run`). It also holds the class `App`: its constructor is `App::new`, its methods are `FindAndHandleMatches` and `HandleKey` (the key dispatch in `main`), and `RunLauncher` is `main`'s loop on `running`. The class and the loop are proved to follow `Step` and `Run`.
- `Display`: the loop in `main` that sorts the matched list into four kind vectors (`GroupByKind`), and the App, Dir, File, Url order in which their rows are pushed (`TableRows`).

External collaborators are parameters:

- The configuration load is a `Result<Config, LoadConfigError>` passed to the `App` constructor.
- The base-directory lookups are `Host.documentDir` and `Host.configDir`.
- `Path::join` is `Host.join`, an unconstrained function.
- `open::that_detached` is `Host.open`, which says for each target whether opening it succeeds.
- Each turn of the input poll is a `KeyEvent`: `Esc`; `Edit(line)`, which is any other key and carries the search field's first line after the text widget handled it; or `Idle`, a poll that timed out or an event that was not a key.

Four behaviours of the code are worth stating outright:

- Typing "vs" against the aliases {"vs", "code"} and {"vsc"} keeps two entries. Because "vs" is an exact alias of the first entry, that entry is opened (`Session.TypingScenarioVs`).
- A `path_prefix` whose base directory the system cannot report makes one of the `unwrap()` calls at src/main.rs:68-73 panic. The model assumes the lookup yields a string.
- `path_prefix` is applied to every kind of shortcut, not only to directories and files. `PrefixedPath` does the same.
- Nothing enforces a non-empty `sequences` list, so the model allows an entry with no aliases. `Find` returns such an entry only for a blank query (`Matcher.FindSkipsAliaslessEntries`).

## Model

| member | source | states |
|---|---|---|
| `Text.TrimStart` | src/main.rs:91 | the result is the suffix left after the longest all-whitespace prefix, and it does not start with whitespace |
| `Text.TrimEnd` | src/main.rs:91 | the result is the prefix left before the longest all-whitespace suffix, and it does not end with whitespace |
| `Text.TrimEmptyIffBlank` | src/main.rs:91 | `trim().is_empty()` holds exactly when every character of the query is whitespace |
| `Text.ContainsSelf` | src/main.rs:96 | every alias contains itself |
| `Text.ContainsEmpty` | src/main.rs:96 | every alias contains the empty string |
| `Text.ContainsPrefix` | src/main.rs:96 | an alias contains each of its prefixes |
| `Text.ContainsNoLonger` | src/main.rs:96 | a query longer than an alias is never contained in it |
| `Text.ContainsFirstChar` | src/main.rs:96 | an alias that contains a non-empty query contains its first character |
| `Text.ReplaceBackslashes` | src/main.rs:70 | same length; each `\` becomes `/`; every other character stays in place |
| `Text.ReplaceBackslashesNormalizes` | src/main.rs:70-74 | the prefix text holds no backslash, and normalizing it again changes nothing |
| `Shortcuts.PrefixText` | src/main.rs:65-78 | the prefix text has as many characters as the host's directory and holds no backslash |
| `Shortcuts.PrefixedPathWithoutPrefix` | src/main.rs:56-62 | with no `path_prefix`, the launch path is `path` unchanged, whatever the host |
| `Shortcuts.PrefixedPathSeparatorInsensitive` | src/main.rs:56-74 | two hosts whose base directories differ only in `\` versus `/` give every shortcut the same launch path |
| `Shortcuts.PrefixTextVerbatim` | src/main.rs:65-78 | a base directory that already uses `/` is used as the prefix verbatim |
| `Matcher.Find` | src/main.rs:89-100 | for a blank query the corpus is returned unchanged; otherwise an entry is in the result exactly when it is in the corpus and some alias contains the untrimmed query |
| `Matcher.FindEmptyCorpus` | src/main.rs:89-100 | an empty corpus gives an empty result for every query |
| `Matcher.FindSingleton` | src/main.rs:94-98 | a one-entry corpus is kept exactly when the query is blank or one of its aliases contains the query |
| `Matcher.FindPair` | src/main.rs:94-98 | a two-entry corpus is filtered entry by entry, in order |
| `Matcher.FindBothOfPair` | src/main.rs:94-98 | a non-blank query matching both entries of a pair keeps both |
| `Matcher.FindSecondOfPair` | src/main.rs:94-98 | a non-blank query matching only the second entry of a pair keeps that entry alone |
| `Matcher.FindConcat` | src/main.rs:94-98 | find distributes over concatenation of corpora, so results keep corpus order |
| `Matcher.FindIsSubsequence` | src/main.rs:89-99 | the result is a subsequence of the corpus |
| `Matcher.FindIdempotent` | src/main.rs:89-99 | `find(find(C, q), q) == find(C, q)` |
| `Matcher.FindSkipsAliaslessEntries` | src/main.rs:94-98 | an entry with an empty alias list is never returned for a non-blank query |
| `Matcher.FindKeepsExactAlias` | src/main.rs:94-98 | an entry having the query as an alias is always returned |
| `Matcher.FindUsesUntrimmedQuery` | src/main.rs:91-96 | the query " vs" keeps no entry whose only alias is "vs", but "vs" keeps it: the whitespace test trims and the containment test does not |
| `Resolver.FirstExactMatch` | src/main.rs:151-154 | returns the index of the first entry having an alias equal to the query, or None when no entry has one |
| `Resolver.ResolveTarget` | src/main.rs:147-156 | one matched entry: its prefixed path, whatever the query; otherwise the prefixed path of the first entry with an alias equal to the query; otherwise none |
| `Resolver.ResolveSeveral` | src/main.rs:150-155 | with a list of any length other than one, a target exists exactly when some entry has an alias equal to the query |
| `Resolver.ResolveEmpty` | src/main.rs:147-156 | an empty match list never yields a target |
| `Resolver.ExactAliasAlwaysResolves` | src/main.rs:143-156 | after a search, typing a full alias of some configured entry always resolves a target |
| `Resolver.ResolvePrefersExactAlias` | src/main.rs:150-155 | candidates "git" and "github" with query "git" resolve to "git" |
| `Resolver.ResolveNoExactAlias` | src/main.rs:150-155 | candidates "git" and "github" with query "gi" resolve to nothing |
| `Resolver.ResolveSoleCandidate` | src/main.rs:148-149 | a sole candidate "browser" resolves with the query "bro" |
| `Session.Initial` | src/main.rs:116-126 | `running` is true; the matched list is the configuration's shortcuts after a successful load, and empty after a failed one |
| `Session.StepRunning` | src/main.rs:157-165 | after a key the session runs exactly when it ran before, the key was not Esc, and the key was not an edit whose resolved target opened |
| `Session.StepMatched` | src/main.rs:143-146 | Esc and idle polls keep the matched list; an edit sets it to `find(corpus, line)` after a successful load, and keeps it after a failed one |
| `Session.InitialConsistent` | src/main.rs:116-126 | the initial matched list is a subsequence of the corpus |
| `Session.StepConsistent` | src/main.rs:143-146 | every key keeps the matched list a subsequence of the corpus |
| `Session.RunConsistent` | src/main.rs:181-316 | every state the loop reaches keeps the matched list a subsequence of the corpus |
| `Session.ConsistentEntries` | src/main.rs:89-100 | in a consistent state every matched entry is a configured shortcut |
| `Session.RunEntries` | src/main.rs:181-316 | from `App::new`, every state the loop reaches is consistent, and every matched entry is a configured shortcut |
| `Session.RunStopped` | src/main.rs:181-184 | once the session has stopped, or every key was handled, the remaining keys change nothing |
| `Session.RunConcat` | src/main.rs:181-316 | handling two batches of keys in turn is the same as handling them together |
| `Session.RunSnoc` | src/main.rs:181-184 | one more key is handled only while `running` is true |
| `Session.EscStops` | src/main.rs:305-307 | once Esc is among the keys, the session has stopped |
| `Session.StopsAtShift` | src/main.rs:181-184 | a stopping key met while running, after the first key, is the next position seen from the state before the first key, still met while running |
| `Session.StopsOnlyByEscOrLaunch` | src/main.rs:157-165 | a running session that stops does so at a key met while it was still running, and that key is Esc or an edit whose target opened |
| `Session.LoadFailureNeverLaunches` | src/main.rs:144-156 | with a failed load and an empty list, the list stays empty, no edit resolves any target (so nothing is handed to the opener), and the session runs exactly when no Esc was typed |
| `Session.LoadFailureSession` | src/main.rs:122-124 | from `App::new` after a failed load: the list stays empty, no edit resolves any target, and the session runs exactly when no Esc was typed |
| `Session.StepPairNoExact` | src/main.rs:143-166 | on a two-entry corpus, a non-blank query that matches both entries and is neither's alias keeps both and leaves `running` as it was |
| `Session.StepPairFirstExact` | src/main.rs:143-166 | on a two-entry corpus, a non-blank query that matches both and is an alias of the first keeps both and stops exactly when opening the first's path succeeds |
| `Session.StepPairSecondOnly` | src/main.rs:143-166 | on a two-entry corpus, a non-blank query that matches only the second keeps that entry and stops exactly when opening its path succeeds |
| `Session.ScenarioStepV` | src/main.rs:143-166 | typing "v" keeps both entries and opens nothing |
| `Session.ScenarioStepVs` | src/main.rs:143-166 | typing "vs" keeps both entries, and stops the session if opening "VSCode" succeeds |
| `Session.ScenarioStepVsc` | src/main.rs:143-166 | typing "vsc" keeps only the second entry, and stops the session if opening "OtherApp" succeeds |
| `Session.TypingScenarioV` | src/main.rs:143-166 | from `App::new`, the key "v" leaves both entries listed and the session running |
| `Session.TypingScenarioVs` | src/main.rs:143-166 | then "vs" leaves both entries listed, and the session runs exactly when opening "VSCode" fails |
| `Session.TypingScenarioVsc` | src/main.rs:143-166 | if opening "VSCode" failed, then "vsc" leaves only the second entry, and the session runs exactly when opening "OtherApp" fails |
| `Session.App.constructor` | src/main.rs:116-126 | `running` is set; the matched list is the configuration's shortcuts after a successful load, and empty after a failed one |
| `Session.App.FindAndHandleMatches` | src/main.rs:143-166 | re-matches only after a successful load; returns the resolved target; stops `running` only when opening that target succeeds; the new state is `HandleEdit` of the old |
| `Session.App.HandleKey` | src/main.rs:304-313 | the new state is `Step` of the old state and the key |
| `Session.RunLauncher` | src/main.rs:169-184 | the final state is `Run` from `Initial`; every key read was read while the session was still running, and keys stop being read once it stops; the final matched list is a subsequence of the corpus, so every entry on it is a configured shortcut |
| `Display.OfKindSingleton` | src/main.rs:194-201 | a single entry is its own kind's group and no other's |
| `Display.OfKindAppend` | src/main.rs:194-201 | pushing one more entry extends exactly the group of its kind |
| `Display.GroupByKind` | src/main.rs:189-203 | each of the four vectors holds exactly the matched entries of its kind, in match order |
| `Display.PushRows` | src/main.rs:207-208 | the rows afterwards are the earlier rows followed by the group's entries in order |
| `Display.TableRows` | src/main.rs:205-208 | the rows are the App group, then Dir, then File, then Url |
| `Seqs.FlattenSnoc` | src/main.rs:205-208 | laying one more group after a list of groups appends its entries |
| `Seqs.FlattenFour` | src/main.rs:205-208 | laying out four groups is their concatenation in order |
| `Display.GroupSizes` | src/main.rs:189-203 | the group sizes add up to the length of the matched list |
| `Display.DisplayOrderAppendShape` | src/main.rs:189-208 | adding one entry at the end of the list adds it at the end of its own kind's group in the table |
| `Display.InsertAtGroupMultiset` | src/main.rs:205-208 | appending one entry to one of the four groups adds it exactly once to their multiset |
| `Display.DisplayOrderAppend` | src/main.rs:189-208 | adding one entry to the list adds it exactly once to the table |
| `Display.DisplayOrderPermutation` | src/main.rs:189-208 | the table is a permutation of the matched list |
| `Display.OfKindConcat` | src/main.rs:194-201 | grouping distributes over concatenation |
| `Display.OfKindOfFour` | src/main.rs:194-201 | grouping four sequences laid end to end groups each of them in turn |
| `Display.OfKindOfKind` | src/main.rs:194-201 | a group regrouped by its own kind is unchanged, and by any other kind is empty |
| `Display.DisplayOrderStable` | src/main.rs:189-208 | each kind's entries appear in the table in match order, and nothing else of that kind is there |
| `Display.RankAt` | src/main.rs:206 | the entry at a table position has the kind of the group that position falls in |
| `Display.DisplayOrderSorted` | src/main.rs:206 | App entries come before Dir, Dir before File, and File before Url |

## Left out

- Terminal rendering with ratatui (src/main.rs:171-179, 185-188, 209-300) is left out: cells, spans, colours, borders, the layout, and the error message shown when loading failed. This is presentation. Only the grouping and the row order are modelled. The row key `s.seq[0]` (line 209) panics for an entry with no aliases, and such an entry is shown whenever the query is blank. The model does not capture that panic.
- Config discovery, file reading and JSON parsing (`load_config`, src/main.rs:127-142) are I/O and a foreign parser. Their outcome is the `Result` given to the `App` constructor. The `IoError` and `ParseError` payloads are reduced to message strings.
- Base-directory lookup through the `directories` crate (src/main.rs:65-78) is replaced by `Host.documentDir` and `Host.configDir`. The `unwrap()` panics when a directory is unknown are not modelled.
- `Path::join` and `to_str().unwrap()` (src/main.rs:59) are platform-defined. `Host.join` stands for them and is unconstrained. No slash normalization of the joined result is claimed, only of the prefix text.
- `open::that_detached` (src/main.rs:158) is an OS call. `Host.open` gives its outcome for each target, so the model has the same target succeed or fail the same way every time it is opened.
- The crossterm `poll` with its 100 ms timeout and `event::read` (src/main.rs:302-303) are terminal I/O. Their `unwrap()` calls panic on a terminal error, and the model has no such path. `TextArea` editing (src/main.rs:309-310) is a foreign widget. All of them are reduced to the `KeyEvent` sequence handed to `RunLauncher`. A finite key sequence stands for the input, so `RunLauncher` also stops when the keys run out.
- `ratatui::init` and `ratatui::restore` (src/main.rs:171, 318) are terminal set-up.
- The `description` field is carried but not used, because only rendering reads it.
