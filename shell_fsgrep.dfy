// The `fsgrep` built-in: server-side search. Its options are parsed by
// popping arguments off the front; the path is made absolute against the
// working directory; the filesystem's grep is the parameter `grep`, Python's
// `int()` is `parseInt` and `os.path.normpath` is `normpath`.
module ShellFsgrep {
  import opened Wrappers
  import opened ShellCore
  import Text
  import PosixPath

  datatype GrepOptions = GrepOptions(recursive: bool, caseInsensitive: bool, countOnly: bool,
                                     quiet: bool, limit: int)

  /** No flag set; a limit of 0 leaves the choice to the filesystem. */
  const DEFAULT_OPTIONS := GrepOptions(false, false, false, false, 0)

  const USAGE := "Usage: fsgrep [OPTIONS] PATTERN PATH\n"

  /** The argument of `-n`, popped from the front of `rest`. */
  function TakeLimit(rest: seq<string>, o: GrepOptions, parseInt: string -> Option<int>)
    : (r: Result<(GrepOptions, seq<string>), string>)
    ensures r.Ok? ==> rest != [] && parseInt(rest[0]).Some? && r.value.0 == o.(limit := parseInt(rest[0]).value) && r.value.0.limit > 0
                      && r.value.1 == rest[1..]
    ensures r.Err? <==> rest == [] || parseInt(rest[0]).None? || parseInt(rest[0]).value <= 0
    ensures rest == [] ==> r == Err("fsgrep: option '-n' requires an argument\n")
    ensures rest != [] && parseInt(rest[0]).None? ==> r == Err("fsgrep: invalid number for -n\n")
    ensures rest != [] && parseInt(rest[0]).Some? && parseInt(rest[0]).value <= 0 ==>
              r == Err("fsgrep: invalid number for -n: must be positive\n")
  {
    if rest == [] then Err("fsgrep: option '-n' requires an argument\n")
    else match parseInt(rest[0])
      case None => Err("fsgrep: invalid number for -n\n")
      case Some(n) =>
        if n <= 0 then Err("fsgrep: invalid number for -n: must be positive\n")
        else Ok((o.(limit := n), rest[1..]))
  }

  /** A cluster of one-letter flags, each `n` taking the next argument. */
  function Cluster(chars: string, rest: seq<string>, o: GrepOptions, parseInt: string -> Option<int>)
    : (r: Result<(GrepOptions, seq<string>), string>)
    ensures r.Ok? ==> |r.value.1| <= |rest|
    decreases |chars|
  {
    if chars == [] then Ok((o, rest))
    else
      var c := chars[0];
      if c == 'r' then Cluster(chars[1..], rest, o.(recursive := true), parseInt)
      else if c == 'i' then Cluster(chars[1..], rest, o.(caseInsensitive := true), parseInt)
      else if c == 'n' then
        match TakeLimit(rest, o, parseInt)
        case Err(e) => Err(e)
        case Ok((o', rest')) => Cluster(chars[1..], rest', o', parseInt)
      else if c == 'c' then Cluster(chars[1..], rest, o.(countOnly := true), parseInt)
      else if c == 'q' then Cluster(chars[1..], rest, o.(quiet := true), parseInt)
      else Err("fsgrep: invalid option -- '" + [c] + "'\n")
  }

  /** The option loop: arguments starting with `-` (other than a lone `-`) are options until `--`. The
      result is the options and what remains, or the message of an error (always exit code 2). */
  function ParseOpts(args: seq<string>, o: GrepOptions, parseInt: string -> Option<int>)
    : (r: Result<(GrepOptions, seq<string>), string>)
    ensures r.Ok? ==> |r.value.1| <= |args|
    decreases |args|
  {
    if args == [] || !Text.StartsWith(args[0], "-") || args[0] == "-" then Ok((o, args))
    else
      var opt := args[0];
      var rest := args[1..];
      if opt == "--" then Ok((o, rest))
      else if opt == "-n" then
        match TakeLimit(rest, o, parseInt)
        case Err(e) => Err(e)
        case Ok((o', rest')) => ParseOpts(rest', o', parseInt)
      else
        match Cluster(opt[1..], rest, o, parseInt)
        case Err(e) => Err(e)
        case Ok((o', rest')) => ParseOpts(rest', o', parseInt)
  }

  /** The inner loop over the characters of a flag cluster. */
  method ClusterLoop(chars: string, rest: seq<string>, o: GrepOptions, parseInt: string -> Option<int>)
      returns (r: Result<(GrepOptions, seq<string>), string>)
    ensures r == Cluster(chars, rest, o, parseInt)
  {
    var opts, args := o, rest;
    var k := 0;
    while k < |chars|
      invariant 0 <= k <= |chars|
      invariant Cluster(chars[k..], args, opts, parseInt) == Cluster(chars, rest, o, parseInt)
    {
      var c := chars[k];
      assert chars[k..][1..] == chars[k + 1..];
      if c == 'r' {
        opts := opts.(recursive := true);
      } else if c == 'i' {
        opts := opts.(caseInsensitive := true);
      } else if c == 'n' {
        var t := TakeLimit(args, opts, parseInt);
        if t.Err? {
          return t;
        }
        opts, args := t.value.0, t.value.1;
      } else if c == 'c' {
        opts := opts.(countOnly := true);
      } else if c == 'q' {
        opts := opts.(quiet := true);
      } else {
        return Err("fsgrep: invalid option -- '" + [c] + "'\n");
      }
      k := k + 1;
    }
    r := Ok((opts, args));
  }

  /** The outer option loop, popping options off the front of the arguments. */
  method ParseOptions(args0: seq<string>, parseInt: string -> Option<int>)
      returns (r: Result<(GrepOptions, seq<string>), string>)
    ensures r == ParseOpts(args0, DEFAULT_OPTIONS, parseInt)
  {
    var opts := DEFAULT_OPTIONS;
    var args := args0;
    while args != [] && Text.StartsWith(args[0], "-") && args[0] != "-"
      invariant ParseOpts(args, opts, parseInt) == ParseOpts(args0, DEFAULT_OPTIONS, parseInt)
      decreases |args|
    {
      var opt := args[0];
      args := args[1..];
      if opt == "--" {
        break;
      }
      if opt == "-n" {
        var t := TakeLimit(args, opts, parseInt);
        if t.Err? {
          return t;
        }
        opts, args := t.value.0, t.value.1;
        continue;
      }
      var c := ClusterLoop(opt[1..], args, opts, parseInt);
      if c.Err? {
        return c;
      }
      opts, args := c.value.0, c.value.1;
    }
    r := Ok((opts, args));
  }

  /** `-n` needs a positive number after it, alone or inside a cluster; the number becomes the limit
      and parsing goes on after it. */
  lemma LimitNeedsPositive(flag: string, x: string, rest: seq<string>, parseInt: string -> Option<int>)
    requires flag == "-n" || flag == "-rn"
    ensures parseInt(x).None? || parseInt(x).value <= 0 ==>
              ParseOpts([flag, x] + rest, DEFAULT_OPTIONS, parseInt).Err?
    ensures parseInt(x).Some? && parseInt(x).value > 0 ==>
              ParseOpts([flag, x] + rest, DEFAULT_OPTIONS, parseInt)
              == ParseOpts(rest, DEFAULT_OPTIONS.(recursive := flag == "-rn", limit := parseInt(x).value), parseInt)
    ensures ParseOpts([flag], DEFAULT_OPTIONS, parseInt) == Err("fsgrep: option '-n' requires an argument\n")
  {
    var args := [flag, x] + rest;
    assert args[1..] == [x] + rest && ([x] + rest)[1..] == rest;
    if flag == "-rn" {
      assert flag[1..] == "rn" && "rn"[1..] == "n" && "n"[1..] == [];
      assert [flag][1..] == [];
    } else {
      assert [flag][1..] == [];
    }
  }

  /** `--` ends the options and is dropped; a lone `-` and the first argument not starting with `-`
      end them and stay. */
  lemma OptionsEnd(rest: seq<string>, o: GrepOptions, parseInt: string -> Option<int>)
    ensures ParseOpts(["--"] + rest, o, parseInt) == Ok((o, rest))
    ensures ParseOpts(["-"] + rest, o, parseInt) == Ok((o, ["-"] + rest))
    ensures rest != [] && !Text.StartsWith(rest[0], "-") ==> ParseOpts(rest, o, parseInt) == Ok((o, rest))
  {
    assert (["--"] + rest)[1..] == rest;
  }

  /** A cluster character other than `r`, `i`, `n`, `c` and `q` is an error. */
  lemma ClusterRejects(c: char, rest: seq<string>, o: GrepOptions, parseInt: string -> Option<int>)
    requires c !in "rincq" && c != '-'
    ensures ParseOpts(["-" + [c]] + rest, o, parseInt) == Err("fsgrep: invalid option -- '" + [c] + "'\n")
  {
    var opt := "-" + [c];
    assert opt[1..] == [c] && opt[..1] == "-";
    assert (["-" + [c]] + rest)[0] == opt;
  }

  /** The path searched. */
  function Resolve(path: string, cwd: string, normpath: string -> string): (r: string)
    ensures Text.StartsWith(r, "/")
    ensures var n := normpath(if Text.StartsWith(path, "/") then path
                              else if path == "." then cwd
                              else if path == ".." then (if PosixPath.Dirname(cwd) == [] then "/" else PosixPath.Dirname(cwd))
                              else PosixPath.Join(cwd, path));
            r == (if Text.StartsWith(n, "/") then n else "/" + n)
  {
    var p := if Text.StartsWith(path, "/") then path
             else if path == "." then cwd
             else if path == ".." then (var d := PosixPath.Dirname(cwd); if d == [] then "/" else d)
             else PosixPath.Join(cwd, path);
    var n := normpath(p);
    if Text.StartsWith(n, "/") then n else "/" + n
  }

  /** How a hit's relevance is reported. */
  datatype Relevance = NoRelevance | Score(shown: string) | Distance(shown: string)

  datatype Match = Match(file: string, line: int, content: string, relevance: Relevance)

  datatype GrepResult = GrepResult(matches: seq<Match>, count: int)

  /** The filesystem client's failure: its own error, or any other exception. */
  datatype GrepError = ClientError(msg: string) | OtherError(msg: string)

  const ESC := "\U{1B}"

  /** The line printed for one hit; relevance is shown only for VectorFS. */
  function MatchLine(m: Match, isVectorfs: bool): string
  {
    var base := ESC + "[35m" + m.file + ESC + "[0m:" + ESC + "[32m" + Text.IntToString(m.line) + ESC + "[0m: " + m.content;
    var extra := if !isVectorfs then ""
                 else match m.relevance
                   case NoRelevance => ""
                   case Score(s) => " " + ESC + "[90m[score: " + s + "]" + ESC + "[0m"
                   case Distance(s) => " " + ESC + "[90m[distance: " + s + "]" + ESC + "[0m";
    base + extra + "\n"
  }

  function MatchLines(ms: seq<Match>, isVectorfs: bool): string
    decreases |ms|
  {
    if ms == [] then "" else MatchLines(ms[..|ms| - 1], isVectorfs) + MatchLine(ms[|ms| - 1], isVectorfs)
  }

  /** The reply to a search that returned. */
  function ResultReply(res: GrepResult, o: GrepOptions, isVectorfs: bool): (r: Reply)
  {
    if o.countOnly then Reply(if res.count > 0 then 0 else 1, Text.IntToString(res.count) + "\n", "")
    else if o.quiet then Reply(if res.count > 0 then 0 else 1, "", "")
    else if res.count == 0 then Reply(1, "", "No matches found\n")
    else
      Reply(0, MatchLines(res.matches, isVectorfs)
               + (if isVectorfs && res.count > 0
                  then "\n" + ESC + "[90mFound " + Text.IntToString(res.count) + " semantically relevant results" + ESC + "[0m\n"
                  else ""), "")
  }

  /** The exit code is 0 exactly when something matched, in every mode; quiet mode prints nothing. */
  lemma ExitCodeIff(res: GrepResult, o: GrepOptions, isVectorfs: bool)
    requires res.count >= 0
    ensures ResultReply(res, o, isVectorfs).code == 0 <==> res.count > 0
    ensures ResultReply(res, o, isVectorfs).code == 0 || ResultReply(res, o, isVectorfs).code == 1
    ensures o.quiet && !o.countOnly ==> ResultReply(res, o, isVectorfs).out == ""
  {
  }

  /** The reply to a failed search. */
  function ErrorReply(e: GrepError, path: string): Reply
  {
    match e
    case ClientError(msg) =>
      if Text.Contains(Text.LowerText(msg), "not support custom grep") then
        Reply(1, "", "fsgrep: " + path + " does not support server-side grep\nUse regular 'grep' command for text search\n")
      else Reply(1, "", "fsgrep: " + msg + "\n")
    case OtherError(msg) => Reply(1, "", "fsgrep: error: " + msg + "\n")
  }

  /** The query handed to the filesystem: path, pattern, recursive, case-insensitive, limit. */
  datatype Query = Query(path: string, pattern: string, recursive: bool, caseInsensitive: bool, limit: int)

  /** The query for a pattern and a resolved path: a search under `/vectorfs` is always
      recursive, and otherwise recursive exactly when `-r` was given. */
  function QueryOf(o: GrepOptions, pattern: string, path: string): (q: Query)
    ensures q.path == path && q.pattern == pattern
    ensures q.caseInsensitive == o.caseInsensitive && q.limit == o.limit
    ensures q.recursive <==> o.recursive || Text.StartsWith(path, "/vectorfs")
  {
    Query(path, pattern, o.recursive || Text.StartsWith(path, "/vectorfs"), o.caseInsensitive, o.limit)
  }

  /** The query `cmd_fsgrep` sends, or none when it stops before searching. */
  function SentQuery(args: seq<string>, cwd: string, parseInt: string -> Option<int>, normpath: string -> string)
    : (q: Option<Query>)
    ensures q.Some? <==> ParseOpts(args, DEFAULT_OPTIONS, parseInt).Ok? && |ParseOpts(args, DEFAULT_OPTIONS, parseInt).value.1| >= 2
  {
    match ParseOpts(args, DEFAULT_OPTIONS, parseInt)
    case Err(_) => None
    case Ok((o, rest)) =>
      if |rest| < 2 then None else Some(QueryOf(o, rest[0], Resolve(rest[1], cwd, normpath)))
  }

  /** `cmd_fsgrep`, with the query it sends. */
  function FsgrepReply(args: seq<string>, cwd: string, parseInt: string -> Option<int>, normpath: string -> string,
                       grep: Query -> Result<GrepResult, GrepError>): (r: Reply)
  {
    match ParseOpts(args, DEFAULT_OPTIONS, parseInt)
    case Err(e) => Reply(2, "", e)
    case Ok((o, rest)) =>
      if |rest| < 2 then Reply(2, "", USAGE)
      else
        var q := QueryOf(o, rest[0], Resolve(rest[1], cwd, normpath));
        match grep(q)
        case Err(e) => ErrorReply(e, q.path)
        case Ok(res) => ResultReply(res, o, Text.StartsWith(q.path, "/vectorfs"))
  }

  /** Option errors and a missing pattern or path exit with 2; every other outcome is 0 or 1. */
  lemma ExitCodes(args: seq<string>, cwd: string, parseInt: string -> Option<int>, normpath: string -> string,
                  grep: Query -> Result<GrepResult, GrepError>)
    ensures var r := FsgrepReply(args, cwd, parseInt, normpath, grep);
            r.code == 2 <==> ParseOpts(args, DEFAULT_OPTIONS, parseInt).Err?
                             || |ParseOpts(args, DEFAULT_OPTIONS, parseInt).value.1| < 2
    ensures FsgrepReply(args, cwd, parseInt, normpath, grep).code in {0, 1, 2}
  {
  }

  /** The reply depends on the filesystem only through its answer to the one query sent: two
      filesystems that answer that query alike give the same reply. */
  lemma RepliesToSentQuery(args: seq<string>, cwd: string, parseInt: string -> Option<int>, normpath: string -> string,
                           grep1: Query -> Result<GrepResult, GrepError>, grep2: Query -> Result<GrepResult, GrepError>)
    requires SentQuery(args, cwd, parseInt, normpath).Some? ==>
               grep1(SentQuery(args, cwd, parseInt, normpath).value) == grep2(SentQuery(args, cwd, parseInt, normpath).value)
    ensures FsgrepReply(args, cwd, parseInt, normpath, grep1) == FsgrepReply(args, cwd, parseInt, normpath, grep2)
  {
  }

  /** Whenever the searched path resolves under `/vectorfs`, the query sent is recursive, with
      or without `-r`, and names that resolved path and the pattern. */
  lemma VectorfsIsRecursive(args: seq<string>, cwd: string, parseInt: string -> Option<int>, normpath: string -> string)
    requires ParseOpts(args, DEFAULT_OPTIONS, parseInt).Ok?
    requires var rest := ParseOpts(args, DEFAULT_OPTIONS, parseInt).value.1;
             |rest| >= 2 && Text.StartsWith(Resolve(rest[1], cwd, normpath), "/vectorfs")
    ensures var rest := ParseOpts(args, DEFAULT_OPTIONS, parseInt).value.1;
            var q := SentQuery(args, cwd, parseInt, normpath);
            q.Some? && q.value.recursive && q.value.path == Resolve(rest[1], cwd, normpath) && q.value.pattern == rest[0]
  {
  }

  lemma MatchLinesStep(ms: seq<Match>, k: int, isVectorfs: bool)
    requires 0 <= k < |ms|
    ensures MatchLines(ms[..k + 1], isVectorfs) == MatchLines(ms[..k], isVectorfs) + MatchLine(ms[k], isVectorfs)
  {
    assert ms[..k + 1][..k] == ms[..k];
  }

  /** The printing of the hits. */
  method PrintMatches(ms: seq<Match>, isVectorfs: bool) returns (out: string)
    ensures out == MatchLines(ms, isVectorfs)
  {
    out := "";
    var k := 0;
    while k < |ms|
      invariant 0 <= k <= |ms|
      invariant out == MatchLines(ms[..k], isVectorfs)
    {
      MatchLinesStep(ms, k, isVectorfs);
      out := out + MatchLine(ms[k], isVectorfs);
      k := k + 1;
    }
    assert ms[..|ms|] == ms;
  }

  method Fsgrep(args: seq<string>, cwd: string, parseInt: string -> Option<int>, normpath: string -> string,
                grep: Query -> Result<GrepResult, GrepError>) returns (r: Reply)
    ensures r == FsgrepReply(args, cwd, parseInt, normpath, grep)
  {
    var parsed := ParseOptions(args, parseInt);
    if parsed.Err? {
      return Reply(2, "", parsed.error);
    }
    var o, rest := parsed.value.0, parsed.value.1;
    if |rest| < 2 {
      return Reply(2, "", USAGE);
    }
    var pattern, path := rest[0], Resolve(rest[1], cwd, normpath);
    var isVectorfs := Text.StartsWith(path, "/vectorfs");
    var recursive := o.recursive;
    if isVectorfs {
      recursive := true;
    }
    var result := grep(Query(path, pattern, recursive, o.caseInsensitive, o.limit));
    assert Query(path, pattern, recursive, o.caseInsensitive, o.limit) == QueryOf(o, pattern, path);
    if result.Err? {
      return ErrorReply(result.error, path);
    }
    var res := result.value;
    if o.countOnly {
      return Reply(if res.count > 0 then 0 else 1, Text.IntToString(res.count) + "\n", "");
    }
    if o.quiet {
      return Reply(if res.count > 0 then 0 else 1, "", "");
    }
    if res.count == 0 {
      return Reply(1, "", "No matches found\n");
    }
    var out := PrintMatches(res.matches, isVectorfs);
    if isVectorfs && res.count > 0 {
      out := out + ("\n" + ESC + "[90mFound " + Text.IntToString(res.count) + " semantically relevant results" + ESC + "[0m\n");
    }
    r := Reply(0, out, "");
  }
}
