/**
 * What `main` draws from the match list (src/main.rs, inside `term.draw`):
 * the entries split by kind, then shown App, Dir, File, Url, each group in
 * match order.
 */
module Display {
  import opened Seqs
  import opened Shortcuts

  /** The position of a kind's group in the table. */
  function Rank(k: ShortcutKind): nat {
    match k
    case App => 0
    case Dir => 1
    case File => 2
    case Url => 3
  }

  /** The entries of `matched` of kind `k`, in match order. */
  function OfKind(matched: seq<Shortcut>, k: ShortcutKind): seq<Shortcut> {
    Filter(matched, (s: Shortcut) => s.kind == k)
  }

  /** The table's entries, top to bottom. */
  function DisplayOrder(matched: seq<Shortcut>): seq<Shortcut> {
    OfKind(matched, App) + OfKind(matched, Dir) + OfKind(matched, File) + OfKind(matched, Url)
  }

  /** A single entry forms a group of its own kind and of no other. */
  lemma OfKindSingleton(s: Shortcut, k: ShortcutKind)
    ensures OfKind([s], k) == if s.kind == k then [s] else []
  {
    assert [s][1..] == [];
  }

  /** Grouping distributes over concatenation. */
  lemma OfKindConcat(a: seq<Shortcut>, b: seq<Shortcut>, k: ShortcutKind)
    ensures OfKind(a + b, k) == OfKind(a, k) + OfKind(b, k)
  {
    FilterConcat(a, b, (s: Shortcut) => s.kind == k);
  }

  /** Adding one entry at the end extends exactly its own kind's group. */
  lemma OfKindAppend(matched: seq<Shortcut>, s: Shortcut, k: ShortcutKind)
    ensures OfKind(matched + [s], k) == OfKind(matched, k) + (if s.kind == k then [s] else [])
  {
    OfKindConcat(matched, [s], k);
    OfKindSingleton(s, k);
  }

  /**
   * The `for` loop that pushes each matched entry onto the vector of its
   * kind. Each group holds exactly the entries of that kind, in order.
   */
  method GroupByKind(matched: seq<Shortcut>)
    returns (apps: seq<Shortcut>, dirs: seq<Shortcut>, files: seq<Shortcut>, urls: seq<Shortcut>)
    ensures apps == OfKind(matched, App)
    ensures dirs == OfKind(matched, Dir)
    ensures files == OfKind(matched, File)
    ensures urls == OfKind(matched, Url)
  {
    apps, urls, dirs, files := [], [], [], [];
    for i := 0 to |matched|
      invariant apps == OfKind(matched[..i], App)
      invariant dirs == OfKind(matched[..i], Dir)
      invariant files == OfKind(matched[..i], File)
      invariant urls == OfKind(matched[..i], Url)
    {
      var s := matched[i];
      assert matched[..i + 1] == matched[..i] + [s];
      OfKindAppend(matched[..i], s, App);
      OfKindAppend(matched[..i], s, Dir);
      OfKindAppend(matched[..i], s, File);
      OfKindAppend(matched[..i], s, Url);
      match s.kind
      case App => apps := apps + [s];
      case File => files := files + [s];
      case Dir => dirs := dirs + [s];
      case Url => urls := urls + [s];
    }
    assert matched[..|matched|] == matched;
  }

  /** The inner loop of the table: push every entry of one group, in order. */
  method PushRows(rows: seq<Shortcut>, shortcuts: seq<Shortcut>) returns (r: seq<Shortcut>)
    ensures r == rows + shortcuts
  {
    r := rows;
    for j := 0 to |shortcuts|
      invariant r == rows + shortcuts[..j]
    {
      assert shortcuts[..j + 1] == shortcuts[..j] + [shortcuts[j]];
      r := r + [shortcuts[j]];
    }
    assert shortcuts[..|shortcuts|] == shortcuts;
  }

  /**
   * The table rows: the groups visited App, Dir, File, Url, every entry
   * of a non-empty group pushed in turn. A row stands for the entry it shows.
   */
  method TableRows(matched: seq<Shortcut>) returns (rows: seq<Shortcut>)
    ensures rows == DisplayOrder(matched)
  {
    var apps, dirs, files, urls := GroupByKind(matched);
    var groups := [apps, dirs, files, urls];
    rows := [];
    for g := 0 to |groups|
      invariant rows == Flatten(groups[..g])
    {
      var shortcuts := groups[g];
      assert groups[..g + 1] == groups[..g] + [shortcuts];
      FlattenSnoc(groups[..g], shortcuts);
      if |shortcuts| > 0 {
        rows := PushRows(rows, shortcuts);
      }
    }
    assert groups[..4] == groups;
    FlattenFour(apps, dirs, files, urls);
  }

  /** Every matched entry lands in exactly one group: the group sizes add up to the list's. */
  lemma {:induction false} GroupSizes(matched: seq<Shortcut>)
    ensures |OfKind(matched, App)| + |OfKind(matched, Dir)| + |OfKind(matched, File)| + |OfKind(matched, Url)| == |matched|
  {
    if matched != [] {
      var rest := matched[..|matched| - 1];
      var s := matched[|matched| - 1];
      assert matched == rest + [s];
      GroupSizes(rest);
      OfKindAppend(rest, s, App);
      OfKindAppend(rest, s, Dir);
      OfKindAppend(rest, s, File);
      OfKindAppend(rest, s, Url);
    }
  }

  /** Adding one entry at the end places it at the end of its own kind's group in the table. */
  lemma DisplayOrderAppendShape(rest: seq<Shortcut>, s: Shortcut)
    ensures DisplayOrder(rest + [s]) ==
      InsertAtGroup(OfKind(rest, App), OfKind(rest, Dir), OfKind(rest, File), OfKind(rest, Url), s, Rank(s.kind))
  {
    OfKindAppend(rest, s, App);
    OfKindAppend(rest, s, Dir);
    OfKindAppend(rest, s, File);
    OfKindAppend(rest, s, Url);
  }

  /** Four groups laid end to end, with `s` appended to group number `g`. */
  function InsertAtGroup(a: seq<Shortcut>, d: seq<Shortcut>, f: seq<Shortcut>, u: seq<Shortcut>, s: Shortcut, g: nat)
    : seq<Shortcut>
  {
    (a + (if g == 0 then [s] else [])) + (d + (if g == 1 then [s] else [])) +
    (f + (if g == 2 then [s] else [])) + (u + (if g == 3 then [s] else []))
  }

  /** Appending one entry to one of four groups adds it once to their multiset. */
  lemma InsertAtGroupMultiset(a: seq<Shortcut>, d: seq<Shortcut>, f: seq<Shortcut>, u: seq<Shortcut>, s: Shortcut, g: nat)
    requires g < 4
    ensures multiset(InsertAtGroup(a, d, f, u, s, g)) == multiset(a + d + f + u) + multiset{s}
  {
  }

  /** Adding one entry at the end adds it once to the table. */
  lemma DisplayOrderAppend(rest: seq<Shortcut>, s: Shortcut)
    ensures multiset(DisplayOrder(rest + [s])) == multiset(DisplayOrder(rest)) + multiset{s}
  {
    DisplayOrderAppendShape(rest, s);
    InsertAtGroupMultiset(OfKind(rest, App), OfKind(rest, Dir), OfKind(rest, File), OfKind(rest, Url), s, Rank(s.kind));
  }

  /** The table shows every matched entry as often as it was matched: it is a permutation of the list. */
  lemma {:induction false} DisplayOrderPermutation(matched: seq<Shortcut>)
    ensures multiset(DisplayOrder(matched)) == multiset(matched)
  {
    if matched != [] {
      var rest := matched[..|matched| - 1];
      var s := matched[|matched| - 1];
      assert matched == rest + [s];
      DisplayOrderPermutation(rest);
      DisplayOrderAppend(rest, s);
    }
  }

  /** Regrouping a group by kind keeps it whole under its own kind and leaves nothing under another. */
  lemma OfKindOfKind(matched: seq<Shortcut>, g: ShortcutKind, k: ShortcutKind)
    ensures OfKind(OfKind(matched, g), k) == if g == k then OfKind(matched, k) else []
  {
    if g == k {
      FilterIdempotent(matched, (s: Shortcut) => s.kind == k);
    } else {
      FilterNone(OfKind(matched, g), (s: Shortcut) => s.kind == k);
    }
  }

  /** Grouping four sequences laid end to end groups each of them. */
  lemma OfKindOfFour(a: seq<Shortcut>, d: seq<Shortcut>, f: seq<Shortcut>, u: seq<Shortcut>, k: ShortcutKind)
    ensures OfKind(a + d + f + u, k) == OfKind(a, k) + OfKind(d, k) + OfKind(f, k) + OfKind(u, k)
  {
    OfKindConcat(a + d + f, u, k);
    OfKindConcat(a + d, f, k);
    OfKindConcat(a, d, k);
  }

  /** Within the table, a kind's entries appear in match order and nowhere else. */
  lemma DisplayOrderStable(matched: seq<Shortcut>, k: ShortcutKind)
    ensures OfKind(DisplayOrder(matched), k) == OfKind(matched, k)
  {
    OfKindOfFour(OfKind(matched, App), OfKind(matched, Dir), OfKind(matched, File), OfKind(matched, Url), k);
    OfKindOfKind(matched, App, k);
    OfKindOfKind(matched, Dir, k);
    OfKindOfKind(matched, File, k);
    OfKindOfKind(matched, Url, k);
    var r := OfKind(matched, k);
    match k
    case App => assert r + [] + [] + [] == r;
    case Dir => assert [] + r + [] + [] == r;
    case File => assert [] + [] + r + [] == r;
    case Url => assert [] + [] + [] + r == r;
  }

  /** The entry at position `i` of the table belongs to the group the position falls in. */
  lemma RankAt(matched: seq<Shortcut>, i: nat)
    requires i < |DisplayOrder(matched)|
    ensures var a, d, f := |OfKind(matched, App)|, |OfKind(matched, Dir)|, |OfKind(matched, File)|;
      Rank(DisplayOrder(matched)[i].kind) ==
        if i < a then 0 else if i < a + d then 1 else if i < a + d + f then 2 else 3
  {
    var a, d, f, u := OfKind(matched, App), OfKind(matched, Dir), OfKind(matched, File), OfKind(matched, Url);
    var t := DisplayOrder(matched);
    if i < |a| {
      assert t[i] == a[i] && a[i] in a;
    } else if i < |a| + |d| {
      assert t[i] == d[i - |a|] && d[i - |a|] in d;
    } else if i < |a| + |d| + |f| {
      assert t[i] == f[i - |a| - |d|] && f[i - |a| - |d|] in f;
    } else {
      assert t[i] == u[i - |a| - |d| - |f|] && u[i - |a| - |d| - |f|] in u;
    }
  }

  /** The table lists all App entries, then all Dir, then all File, then all Url entries. */
  lemma DisplayOrderSorted(matched: seq<Shortcut>)
    ensures forall i, j :: 0 <= i < j < |DisplayOrder(matched)| ==>
      Rank(DisplayOrder(matched)[i].kind) <= Rank(DisplayOrder(matched)[j].kind)
  {
    forall i, j | 0 <= i < j < |DisplayOrder(matched)|
      ensures Rank(DisplayOrder(matched)[i].kind) <= Rank(DisplayOrder(matched)[j].kind)
    {
      RankAt(matched, i);
      RankAt(matched, j);
    }
  }
}
