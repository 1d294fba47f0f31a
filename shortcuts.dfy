/**
 * The shortcut records read from the configuration, the configuration
 * itself, the load errors, and the launch-time path prefixing.
 */
module Shortcuts {
  import opened Wrappers
  import opened Text

  /** What a shortcut opens; drives the display grouping. */
  datatype ShortcutKind = App | Dir | File | Url

  /** A well-known base directory that is put in front of a shortcut's path at launch time. */
  datatype ShortcutPathPrefix = Documents | Appdata

  /**
   * One launchable entry. `sequences` are the aliases the user may type
   * (the configuration's `seq` list); nothing forces it to be non-empty.
   */
  datatype Shortcut = Shortcut(
    path: string,
    sequences: seq<string>,
    description: Option<string>,
    kind: ShortcutKind,
    pathPrefix: Option<ShortcutPathPrefix>)

  datatype Config = Config(shortcuts: seq<Shortcut>)

  /** Why the configuration could not be loaded; the messages stand for the wrapped library errors. */
  datatype LoadConfigError = IoError(message: string) | ParseError(message: string) | NoConfig

  /**
   * The operating system as the launcher sees it: the two base directories
   * it can look up, path joining, and whether opening a target succeeds.
   */
  datatype Host = Host(
    documentDir: string,
    configDir: string,
    join: (string, string) -> string,
    open: string -> bool)

  /** The base directory a prefix names, as the host reports it. */
  function PrefixDir(prefix: ShortcutPathPrefix, host: Host): string {
    match prefix
    case Documents => host.documentDir
    case Appdata => host.configDir
  }

  /** The prefix as text: the host's directory with every `\` written as `/`. */
  function PrefixText(prefix: ShortcutPathPrefix, host: Host): (r: string)
    ensures |r| == |PrefixDir(prefix, host)|
    ensures '\\' !in r
  {
    ReplaceBackslashes(PrefixDir(prefix, host))
  }

  /** The string handed to the launcher: `path`, joined under the prefix's directory when there is one. */
  function PrefixedPath(s: Shortcut, host: Host): string {
    match s.pathPrefix
    case None => s.path
    case Some(prefix) => host.join(PrefixText(prefix, host), s.path)
  }

  /** Without a prefix the path is passed through untouched, whatever the host. */
  lemma PrefixedPathWithoutPrefix(s: Shortcut, host: Host)
    requires s.pathPrefix.None?
    ensures PrefixedPath(s, host) == s.path
  {
  }

  /**
   * With a prefix, the result depends on the base directory only up to the
   * direction of its separators: two hosts whose directories differ only in
   * `\` versus `/` resolve every shortcut to the same path.
   */
  lemma PrefixedPathSeparatorInsensitive(s: Shortcut, h1: Host, h2: Host)
    requires h1.join == h2.join
    requires ReplaceBackslashes(h1.documentDir) == ReplaceBackslashes(h2.documentDir)
    requires ReplaceBackslashes(h1.configDir) == ReplaceBackslashes(h2.configDir)
    ensures PrefixedPath(s, h1) == PrefixedPath(s, h2)
  {
  }

  /** A host directory already written with `/` separators is used verbatim as the prefix. */
  lemma PrefixTextVerbatim(prefix: ShortcutPathPrefix, host: Host)
    requires '\\' !in PrefixDir(prefix, host)
    ensures PrefixText(prefix, host) == PrefixDir(prefix, host)
  {
    var d := PrefixDir(prefix, host);
    assert forall i :: 0 <= i < |d| ==> d[i] != '\\';
  }
}
