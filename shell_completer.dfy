// Tab completion: command names at the start of a line, filesystem paths
// elsewhere. Readline's line buffer is the parameter `lineBefore` (the text
// before the word being completed); the filesystem listing, `shlex.quote`,
// `os.path.normpath` and the shell's `resolve_path` are parameters.
module ShellCompleter {
  import opened Wrappers
  import Text
  import StringOrder
  import PosixPath

  /** The command names that start with `text`, in the order given. */
  function CommandMatches(names: seq<string>, text: string): seq<string>
    decreases |names|
  {
    if names == [] then []
    else
      var last := names[|names| - 1];
      CommandMatches(names[..|names| - 1], text) + (if Text.StartsWith(last, text) then [last] else [])
  }

  /** `_complete_command`: every name for an empty text, otherwise those starting with it. */
  function CompleteCommand(names: seq<string>, text: string): seq<string>
  {
    if text == [] then names else CommandMatches(names, text)
  }

  /** A name is offered exactly when it is a command name starting with the text. */
  lemma {:induction false} CommandMatchesExactly(names: seq<string>, text: string, x: string)
    ensures x in CommandMatches(names, text) <==> x in names && Text.StartsWith(x, text)
    decreases |names|
  {
    if names != [] {
      var init := names[..|names| - 1];
      assert names == init + [names[|names| - 1]];
      CommandMatchesExactly(init, text, x);
    }
  }

  /** The offered names keep the strictly increasing order of the sorted command names. */
  lemma {:induction false} CommandMatchesIncreasing(names: seq<string>, text: string)
    requires StringOrder.Increasing(names)
    ensures StringOrder.Increasing(CommandMatches(names, text))
    decreases |names|
  {
    if names != [] {
      var init := names[..|names| - 1];
      var last := names[|names| - 1];
      var r := CommandMatches(init, text);
      CommandMatchesIncreasing(init, text);
      if Text.StartsWith(last, text) {
        forall i | 0 <= i < |r| ensures StringOrder.LessEq(r[i], last) && r[i] != last {
          CommandMatchesExactly(init, text, r[i]);
          var j :| 0 <= j < |init| && init[j] == r[i];
          assert names[j] == r[i];
        }
      }
    }
  }

  /** The empty text matches every name, so the shortcut for it agrees with the filter. */
  lemma {:induction false} CompleteCommandIsFilter(names: seq<string>, text: string)
    ensures CompleteCommand(names, text) == CommandMatches(names, text)
    decreases |names|
  {
    if text == [] && names != [] {
      CompleteCommandIsFilter(names[..|names| - 1], text);
      assert names == names[..|names| - 1] + [names[|names| - 1]];
    }
  }

  /** The characters that make a path need quoting. */
  const SPECIAL := " \t\n|&;<>()$`\\\"'"

  /** `any(c in path for c in chars)`. */
  function AnyIn(chars: string, path: string): (r: bool)
    ensures r <==> exists k :: 0 <= k < |chars| && chars[k] in path
    decreases |chars|
  {
    if chars == [] then false
    else
      assert forall k :: 1 <= k < |chars| ==> chars[k] == chars[1..][k - 1];
      chars[0] in path || AnyIn(chars[1..], path)
  }

  /** `_needs_quoting`. */
  function NeedsQuoting(path: string): bool
  {
    AnyIn(SPECIAL, path)
  }

  /** A path needs quoting exactly when one of its characters is special. */
  lemma NeedsQuotingIff(path: string)
    ensures NeedsQuoting(path) <==> exists i :: 0 <= i < |path| && path[i] in SPECIAL
  {
    if exists i :: 0 <= i < |path| && path[i] in SPECIAL {
      var i :| 0 <= i < |path| && path[i] in SPECIAL;
      var k :| 0 <= k < |SPECIAL| && SPECIAL[k] == path[i];
      assert SPECIAL[k] in path;
    }
  }

  /** `_quote_if_needed`, with `shlex.quote` as `quote`. */
  function QuoteIfNeeded(path: string, quote: string -> string): (r: string)
    ensures !NeedsQuoting(path) ==> r == path
  {
    if NeedsQuoting(path) then quote(path) else path
  }

  /** A directory entry: its name (`''` when the listing has none) and whether it is a directory. */
  datatype Entry = Entry(name: string, isDirectory: bool)

  /** Whether a shell is attached: without one the working directory is `/` and paths are used
      as they are. */
  datatype Context = NoShell | AttachedShell(cwd: string, resolvePath: string -> string)

  function VirtualCwd(ctx: Context): string
  {
    if ctx.NoShell? then "/" else ctx.cwd
  }

  /** The opening quote of the text, and the text without it. */
  function SplitQuote(text: string): (r: (Option<char>, string))
    ensures r.0.None? ==> r.1 == text
    ensures r.0.Some? ==> [r.0.value] + r.1 == text
  {
    if text != [] && (text[0] == '"' || text[0] == '\'') then (Some(text[0]), text[1..]) else (None, text)
  }

  /** The directory listed and the partial name matched, for the unquoted text. */
  function Target(text: string, cwd: string, normpath: string -> string): (r: (string, string))
  {
    var t := if text == [] then "." else text;
    var vpath := if Text.StartsWith(t, "/") then t else normpath(PosixPath.Join(cwd, t));
    if Text.EndsWith(vpath, "/") then (vpath, "")
    else
      var d := PosixPath.Dirname(vpath);
      var dir := if d == [] || d == "." then cwd
                 else if !Text.StartsWith(d, "/") then normpath(PosixPath.Join(cwd, d))
                 else d;
      (dir, PosixPath.Basename(vpath))
  }

  /** The absolute path shown for an entry of `dir`, with a `/` after a directory. */
  function AbsPath(dir: string, e: Entry): (r: string)
    ensures e.isDirectory ==> Text.EndsWith(r, "/")
    ensures Text.EndsWith(r, e.name + (if e.isDirectory then "/" else ""))
  {
    var base := if dir == "/" then "/" + e.name else PosixPath.TrimSlashes(dir) + "/" + e.name;
    var r := if e.isDirectory then base + "/" else base;
    assert r[|r| - |e.name + (if e.isDirectory then "/" else "")|..] == e.name + (if e.isDirectory then "/" else "");
    r
  }

  /** The path relative to the working directory when the text was relative and the working
      directory is not the root. */
  function Displayed(abs: string, relative: bool, cwd: string): (r: string)
    ensures r == abs || (r == "." && abs == cwd) || (relative && cwd != "/" && cwd + "/" + r == abs)
  {
    if relative && cwd != "/" then
      if Text.StartsWith(abs, cwd + "/") then
        assert abs == abs[..|cwd| + 1] + abs[|cwd| + 1..];
        abs[|cwd| + 1..]
      else if abs == cwd then "."
      else abs
    else abs
  }

  /** The text offered: between the user's own quote, or quoted by `shlex.quote` when needed. */
  function Quoted(p: string, quote: Option<char>, shlexQuote: string -> string): (r: string)
    ensures quote.Some? ==> r == [quote.value] + p + [quote.value]
    ensures quote.None? ==> r == QuoteIfNeeded(p, shlexQuote)
  {
    match quote
    case Some(q) => [q] + p + [q]
    case None => QuoteIfNeeded(p, shlexQuote)
  }

  /** The completion offered for one entry, if its name starts with the partial name. */
  function Candidate(e: Entry, dir: string, partial: string, relative: bool, cwd: string,
                     quote: Option<char>, shlexQuote: string -> string): (r: Option<string>)
    ensures r.Some? <==> e.name != [] && Text.StartsWith(e.name, partial)
  {
    if e.name != [] && Text.StartsWith(e.name, partial) then
      Some(Quoted(Displayed(AbsPath(dir, e), relative, cwd), quote, shlexQuote))
    else None
  }

  /** The values `f` gives for the entries that give one, in listing order. */
  function Collected(entries: seq<Entry>, f: Entry -> Option<string>): seq<string>
    decreases |entries|
  {
    if entries == [] then []
    else
      var init := Collected(entries[..|entries| - 1], f);
      match f(entries[|entries| - 1])
      case None => init
      case Some(x) => init + [x]
  }

  lemma {:induction false} CollectedSound(entries: seq<Entry>, f: Entry -> Option<string>, x: string)
    requires x in Collected(entries, f)
    ensures exists k :: 0 <= k < |entries| && f(entries[k]) == Some(x)
    decreases |entries|
  {
    var init := entries[..|entries| - 1];
    if x in Collected(init, f) {
      CollectedSound(init, f, x);
      var k :| 0 <= k < |init| && f(init[k]) == Some(x);
      assert entries[k] == init[k];
    } else {
      assert f(entries[|entries| - 1]) == Some(x);
    }
  }

  lemma {:induction false} CollectedComplete(entries: seq<Entry>, f: Entry -> Option<string>, k: int)
    requires 0 <= k < |entries| && f(entries[k]).Some?
    ensures f(entries[k]).value in Collected(entries, f)
    decreases |entries|
  {
    var init := entries[..|entries| - 1];
    if k < |entries| - 1 {
      assert init[k] == entries[k];
      CollectedComplete(init, f, k);
    }
  }

  /** The completions of the entries, in listing order. */
  function Candidates(entries: seq<Entry>, dir: string, partial: string, relative: bool, cwd: string,
                      quote: Option<char>, shlexQuote: string -> string): seq<string>
  {
    Collected(entries, e => Candidate(e, dir, partial, relative, cwd, quote, shlexQuote))
  }

  /** A completion is offered exactly for an entry whose name starts with the partial name. */
  lemma CandidatesExactly(entries: seq<Entry>, dir: string, partial: string, relative: bool,
                          cwd: string, quote: Option<char>, shlexQuote: string -> string, x: string)
    ensures x in Candidates(entries, dir, partial, relative, cwd, quote, shlexQuote)
            <==> exists k :: 0 <= k < |entries| && Candidate(entries[k], dir, partial, relative, cwd, quote, shlexQuote) == Some(x)
  {
    var f := e => Candidate(e, dir, partial, relative, cwd, quote, shlexQuote);
    if x in Collected(entries, f) {
      CollectedSound(entries, f, x);
      var k :| 0 <= k < |entries| && f(entries[k]) == Some(x);
    }
    if exists k :: 0 <= k < |entries| && Candidate(entries[k], dir, partial, relative, cwd, quote, shlexQuote) == Some(x) {
      var k :| 0 <= k < |entries| && Candidate(entries[k], dir, partial, relative, cwd, quote, shlexQuote) == Some(x);
      assert f(entries[k]) == Some(x);
      CollectedComplete(entries, f, k);
    }
  }

  /** `_complete_path`: the sorted completions, or none when the directory cannot be listed. */
  function PathCompletions(text: string, ctx: Context, normpath: string -> string,
                           list: string -> Result<seq<Entry>, string>, shlexQuote: string -> string): (r: seq<string>)
  {
    var cwd := VirtualCwd(ctx);
    var (quote, t) := SplitQuote(text);
    var (dir, partial) := Target(t, cwd, normpath);
    var directory := if ctx.NoShell? then dir else ctx.resolvePath(dir);
    var relative := !Text.StartsWith(if t == [] then "." else t, "/");
    match list(directory)
    case Err(_) => []
    case Ok(entries) => StringOrder.Sort(Candidates(entries, dir, partial, relative, cwd, quote, shlexQuote))
  }

  /** The path completions are sorted, hold exactly one completion per matching entry, and are
      empty when the listing fails. */
  lemma PathCompletionsSpec(text: string, ctx: Context, normpath: string -> string,
                            list: string -> Result<seq<Entry>, string>, shlexQuote: string -> string, x: string)
    ensures StringOrder.Sorted(PathCompletions(text, ctx, normpath, list, shlexQuote))
    ensures var cwd := VirtualCwd(ctx);
            var (quote, t) := SplitQuote(text);
            var (dir, partial) := Target(t, cwd, normpath);
            var directory := if ctx.NoShell? then dir else ctx.resolvePath(dir);
            var relative := !Text.StartsWith(if t == [] then "." else t, "/");
            match list(directory)
            case Err(_) => PathCompletions(text, ctx, normpath, list, shlexQuote) == []
            case Ok(entries) =>
              multiset(PathCompletions(text, ctx, normpath, list, shlexQuote))
                == multiset(Candidates(entries, dir, partial, relative, cwd, quote, shlexQuote))
              && (x in PathCompletions(text, ctx, normpath, list, shlexQuote) <==>
                    exists k :: 0 <= k < |entries| && Candidate(entries[k], dir, partial, relative, cwd, quote, shlexQuote) == Some(x))
  {
    var cwd := VirtualCwd(ctx);
    var (quote, t) := SplitQuote(text);
    var (dir, partial) := Target(t, cwd, normpath);
    var directory := if ctx.NoShell? then dir else ctx.resolvePath(dir);
    var relative := !Text.StartsWith(if t == [] then "." else t, "/");
    var r := PathCompletions(text, ctx, normpath, list, shlexQuote);
    if list(directory).Ok? {
      var c := Candidates(list(directory).value, dir, partial, relative, cwd, quote, shlexQuote);
      CandidatesExactly(list(directory).value, dir, partial, relative, cwd, quote, shlexQuote, x);
      assert x in r <==> x in multiset(r);
      assert x in c <==> x in multiset(c);
    }
  }

  /** A completion that started with a quote is offered between that same quote on both sides. */
  lemma QuoteRestored(e: Entry, dir: string, partial: string, relative: bool, cwd: string,
                      q: char, shlexQuote: string -> string)
    requires Candidate(e, dir, partial, relative, cwd, Some(q), shlexQuote).Some?
    ensures var x := Candidate(e, dir, partial, relative, cwd, Some(q), shlexQuote).value;
            |x| >= 2 && x[0] == q && x[|x| - 1] == q
  {
  }

  /** Without quoting, a directory is offered with a trailing `/`, either as the absolute path or
      relative to the working directory. */
  lemma DirectoryGetsSlash(e: Entry, dir: string, partial: string, relative: bool, cwd: string,
                           shlexQuote: string -> string)
    requires e.isDirectory && e.name != [] && Text.StartsWith(e.name, partial)
    requires !NeedsQuoting(Displayed(AbsPath(dir, e), relative, cwd))
    ensures var x := Candidate(e, dir, partial, relative, cwd, None, shlexQuote).value;
            var abs := AbsPath(dir, e);
            Text.EndsWith(abs, "/") && (x == abs || (x == "." && abs == cwd) || cwd + "/" + x == abs)
  {
  }

  /** The completion list kept between calls, and the sorted command names. */
  class Completer {
    var commandNames: seq<string>
    var matches: seq<string>

    /** The command names are the registry's names, sorted. */
    constructor(builtins: set<string>)
      ensures commandNames == StringOrder.SortedKeys(builtins) && matches == []
    {
      commandNames := StringOrder.SortedKeys(builtins);
      matches := [];
    }

    /** `complete(text, state)`: the first call of a round (`state == 0`) computes the matches,
        command names when only blanks precede the word, paths otherwise; each call returns
        the match at `state`, or `None` past the end. */
    method Complete(text: string, state: nat, lineBefore: string, ctx: Context, normpath: string -> string,
                    list: string -> Result<seq<Entry>, string>, shlexQuote: string -> string)
        returns (r: Option<string>)
      modifies this
      ensures commandNames == old(commandNames)
      ensures state == 0 ==> matches == (if Text.TrimSpace(lineBefore) == [] then CompleteCommand(commandNames, text)
                                         else PathCompletions(text, ctx, normpath, list, shlexQuote))
      ensures state != 0 ==> matches == old(matches)
      ensures state < |matches| ==> r == Some(matches[state])
      ensures state >= |matches| ==> r.None?
    {
      if state == 0 {
        if Text.TrimSpace(lineBefore) == [] {
          matches := CompleteCommand(commandNames, text);
        } else {
          matches := CompletePath(text, ctx, normpath, list, shlexQuote);
        }
      }
      if state < |matches| {
        return Some(matches[state]);
      }
      r := None;
    }
  }

  /** The loop of `_complete_path` over the entries. */
  method CollectCandidates(entries: seq<Entry>, dir: string, partial: string, relative: bool, cwd: string,
                           quote: Option<char>, shlexQuote: string -> string) returns (ms: seq<string>)
    ensures ms == Candidates(entries, dir, partial, relative, cwd, quote, shlexQuote)
  {
    ms := [];
    var k := 0;
    while k < |entries|
      invariant 0 <= k <= |entries|
      invariant ms == Candidates(entries[..k], dir, partial, relative, cwd, quote, shlexQuote)
    {
      assert entries[..k + 1][..k] == entries[..k];
      var e := entries[k];
      if e.name != [] && Text.StartsWith(e.name, partial) {
        var abs := AbsPath(dir, e);
        var shown := Displayed(abs, relative, cwd);
        ms := ms + [Quoted(shown, quote, shlexQuote)];
      }
      k := k + 1;
    }
    assert entries[..|entries|] == entries;
  }

  method CompletePath(text: string, ctx: Context, normpath: string -> string,
                      list: string -> Result<seq<Entry>, string>, shlexQuote: string -> string) returns (r: seq<string>)
    ensures r == PathCompletions(text, ctx, normpath, list, shlexQuote)
  {
    var cwd := VirtualCwd(ctx);
    var (quote, t) := SplitQuote(text);
    var (dir, partial) := Target(t, cwd, normpath);
    var directory := if ctx.NoShell? then dir else ctx.resolvePath(dir);
    var listing := list(directory);
    if listing.Err? {
      return [];
    }
    var relative := !Text.StartsWith(if t == [] then "." else t, "/");
    var ms := CollectCandidates(listing.value, dir, partial, relative, cwd, quote, shlexQuote);
    r := StringOrder.Sort(ms);
  }
}
