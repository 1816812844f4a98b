// The entry points of the shell that run more than one command: script files
// (`execute_script_file`) and the `-c` command string of `main`. Running one
// line is the shell's business and is a parameter here (`Executor`), as are
// the script file's contents and the bytes waiting on standard input.
module ShellCli {
  import opened Wrappers
  import opened ShellCore
  import Text

  // ---------------------------------------------------------------------------------------------
  // Positional variables of a script

  /** `$1` … `$n` set to the arguments, on top of `env`. */
  function Positional(env: map<string, string>, args: seq<string>): map<string, string>
    decreases |args|
  {
    if args == [] then env
    else Positional(env, args[..|args| - 1])[Text.IntToString(|args|) := args[|args| - 1]]
  }

  /** The variables a script starts with: `$0` the script, `$1` … `$n` its arguments, `$#` their
      number and `$@` the arguments joined by spaces. */
  function ScriptEnv(env: map<string, string>, path: string, args: seq<string>): map<string, string>
  {
    var e := Positional(env["0" := path], args);
    if args != [] then e["#" := Text.IntToString(|args|)]["@" := Text.Join(args, " ")]
    else e["#" := "0"]["@" := ""]
  }

  /** Distinct numbers have distinct decimal renderings. */
  lemma NumeralsDiffer(i: nat, j: nat)
    requires i != j
    ensures Text.NatToString(i) != Text.NatToString(j)
  {
    Text.DigitsOfNatToString(i);
    Text.DigitsOfNatToString(j);
  }

  lemma {:induction false} PositionalLookup(env: map<string, string>, args: seq<string>, k: string)
    ensures forall i :: 1 <= i <= |args| && k == Text.NatToString(i) ==> k in Positional(env, args) && Positional(env, args)[k] == args[i - 1]
    ensures (forall i :: 1 <= i <= |args| ==> k != Text.NatToString(i)) ==>
              (k in Positional(env, args) <==> k in env) && (k in env ==> Positional(env, args)[k] == env[k])
    decreases |args|
  {
    if args != [] {
      var init := args[..|args| - 1];
      PositionalLookup(env, init, k);
      forall i | 1 <= i < |args| && k == Text.NatToString(i)
        ensures k != Text.NatToString(|args|)
      {
        NumeralsDiffer(i, |args|);
      }
    }
  }

  /** No rendering of a positive number is `0`, `#` or `@`. */
  lemma NumeralIsNotSpecial(i: nat)
    requires i >= 1
    ensures Text.NatToString(i) != "0" && Text.NatToString(i) != "#" && Text.NatToString(i) != "@"
  {
    NumeralsDiffer(i, 0);
    assert Text.NatToString(0) == "0";
    assert Text.IsDigit(Text.NatToString(i)[0]);
  }

  /** `$0` is the script, `$#` the number of arguments and `$@` the arguments joined by spaces
      (`'0'` and `''` without any). */
  lemma ScriptEnvSpecial(env: map<string, string>, path: string, args: seq<string>)
    ensures var e := ScriptEnv(env, path, args);
            "0" in e && e["0"] == path && "#" in e && e["#"] == Text.IntToString(|args|)
            && "@" in e && e["@"] == Text.Join(args, " ")
  {
    forall i | 1 <= i <= |args| ensures "0" != Text.NatToString(i) {
      NumeralIsNotSpecial(i);
    }
    PositionalLookup(env["0" := path], args, "0");
    assert Text.IntToString(0) == "0";
  }

  /** `$i` holds the i-th argument. */
  lemma ScriptEnvArgument(env: map<string, string>, path: string, args: seq<string>, i: int)
    requires 1 <= i <= |args|
    ensures var e := ScriptEnv(env, path, args);
            Text.NatToString(i) in e && e[Text.NatToString(i)] == args[i - 1]
  {
    NumeralIsNotSpecial(i);
    PositionalLookup(env["0" := path], args, Text.NatToString(i));
  }

  /** No other variable changes. */
  lemma ScriptEnvKeepsOthers(env: map<string, string>, path: string, args: seq<string>, k: string)
    requires k != "0" && k != "#" && k != "@"
    requires forall i :: 1 <= i <= |args| ==> k != Text.NatToString(i)
    ensures (k in ScriptEnv(env, path, args) <==> k in env)
    ensures k in env ==> ScriptEnv(env, path, args)[k] == env[k]
  {
    PositionalLookup(env["0" := path], args, k);
  }

  /** Setting the script's variables in the shell. */
  method SetScriptEnv(shell: Shell, path: string, args: seq<string>)
    modifies shell
    ensures shell.env == ScriptEnv(old(shell.env), path, args)
    ensures shell.aliases == old(shell.aliases)
  {
    ghost var env0 := shell.env;
    shell.env := shell.env["0" := path];
    var k := 0;
    while k < |args|
      invariant 0 <= k <= |args|
      invariant shell.env == Positional(env0["0" := path], args[..k])
      invariant shell.aliases == old(shell.aliases)
    {
      assert args[..k + 1][..k] == args[..k];
      shell.env := shell.env[Text.IntToString(k + 1) := args[k]];
      k := k + 1;
    }
    assert args[..|args|] == args;
    if args != [] {
      shell.env := shell.env["#" := Text.IntToString(|args|)]["@" := Text.Join(args, " ")];
    } else {
      shell.env := shell.env["#" := "0"]["@" := ""];
    }
  }

  // ---------------------------------------------------------------------------------------------
  // Running a script file

  /** What running a line (or a collected block) ended in: an exit code, a `SystemExit` with its
      code, or another exception with its message. */
  datatype Outcome = Code(code: int) | Exit(exitCode: Option<int>) | Raised(msg: string)

  /** The shell's `execute`, `execute_for_loop` and `execute_if_statement`. */
  datatype Executor = Executor(run: string -> Outcome, runFor: seq<string> -> Outcome, runIf: seq<string> -> Outcome)

  /** Why the script could not be read. */
  datatype FileError = NotFound | Unreadable(msg: string)

  /** The exit code of the script and the message written to standard error. */
  datatype ScriptResult = ScriptResult(code: int, err: string)

  /** The code `SystemExit` carries, 0 for none. */
  function ExitCode(c: Option<int>): int
  {
    if c.None? then 0 else c.value
  }

  const FOR_PENDING := -997
  const IF_PENDING := -998

  /** The change a line makes to the nesting depth of a block. */
  function Delta(line: string, opener: string, closer: string): int
  {
    if Text.StartsWith(line, opener) then 1 else if line == closer then -1 else 0
  }

  /** The net nesting change over some lines. */
  function Balance(lines: seq<string>, opener: string, closer: string): int
    decreases |lines|
  {
    if lines == [] then 0 else Delta(Text.TrimSpace(lines[0]), opener, closer) + Balance(lines[1..], opener, closer)
  }

  /** The index of the line closing a block whose depth is `depth` at line `i`: nested openers
      raise the depth, closers lower it, and the closer that brings it to 0 ends the block; the
      number of lines when the block is not closed. */
  function Collect(lines: seq<string>, i: int, depth: int, opener: string, closer: string): (j: int)
    requires 0 <= i <= |lines|
    ensures i <= j <= |lines|
    decreases |lines| - i
  {
    if i == |lines| then |lines|
    else
      var l := Text.TrimSpace(lines[i]);
      if Text.StartsWith(l, opener) then Collect(lines, i + 1, depth + 1, opener, closer)
      else if l == closer then (if depth - 1 == 0 then i else Collect(lines, i + 1, depth - 1, opener, closer))
      else Collect(lines, i + 1, depth, opener, closer)
  }

  /** The block ends at a closer where the depth returns to 0, and at no earlier closer does it. */
  lemma {:induction false} CollectEndsBalanced(lines: seq<string>, i: int, depth: int, opener: string, closer: string)
    requires 0 <= i <= |lines| && depth >= 1
    requires !Text.StartsWith(closer, opener)
    ensures var j := Collect(lines, i, depth, opener, closer);
            j < |lines| ==> Text.TrimSpace(lines[j]) == closer && depth + Balance(lines[i..j], opener, closer) == 1
    ensures var j := Collect(lines, i, depth, opener, closer);
            forall k :: i <= k < j && Text.TrimSpace(lines[k]) == closer ==> depth + Balance(lines[i..k], opener, closer) > 1
    decreases |lines| - i
  {
    CollectEndsAtCloser(lines, i, depth, opener, closer);
    CollectPassesClosers(lines, i, depth, opener, closer);
  }

  /** Before the end, a line that does not end the block moves the scan on with the depth it
      leaves. */
  lemma CollectNext(lines: seq<string>, i: int, depth: int, opener: string, closer: string)
    requires 0 <= i < |lines|
    requires !(Text.TrimSpace(lines[i]) == closer && depth - 1 == 0)
    requires !Text.StartsWith(closer, opener)
    ensures Collect(lines, i, depth, opener, closer)
            == Collect(lines, i + 1, depth + Delta(Text.TrimSpace(lines[i]), opener, closer), opener, closer)
  {
  }

  lemma {:induction false} CollectEndsAtCloser(lines: seq<string>, i: int, depth: int, opener: string, closer: string)
    requires 0 <= i <= |lines| && depth >= 1
    requires !Text.StartsWith(closer, opener)
    ensures var j := Collect(lines, i, depth, opener, closer);
            j < |lines| ==> Text.TrimSpace(lines[j]) == closer && depth + Balance(lines[i..j], opener, closer) == 1
    decreases |lines| - i
  {
    if i < |lines| {
      var l := Text.TrimSpace(lines[i]);
      var d := depth + Delta(l, opener, closer);
      if !(l == closer && depth - 1 == 0) {
        CollectEndsAtCloser(lines, i + 1, d, opener, closer);
        CollectNext(lines, i, depth, opener, closer);
        var j := Collect(lines, i + 1, d, opener, closer);
        if j < |lines| {
          BalanceFrom(lines, i, opener, closer);
          assert Balance(lines[i..j], opener, closer) == Delta(l, opener, closer) + Balance(lines[i + 1..j], opener, closer);
        }
      } else {
        assert lines[i..i] == [];
      }
    }
  }

  lemma {:induction false} CollectPassesClosers(lines: seq<string>, i: int, depth: int, opener: string, closer: string)
    requires 0 <= i <= |lines| && depth >= 1
    requires !Text.StartsWith(closer, opener)
    ensures var j := Collect(lines, i, depth, opener, closer);
            forall k :: i <= k < j && Text.TrimSpace(lines[k]) == closer ==> depth + Balance(lines[i..k], opener, closer) > 1
    decreases |lines| - i
  {
    if i < |lines| {
      var l := Text.TrimSpace(lines[i]);
      var d := depth + Delta(l, opener, closer);
      if !(l == closer && depth - 1 == 0) {
        CollectPassesClosers(lines, i + 1, d, opener, closer);
        CollectNext(lines, i, depth, opener, closer);
        BalanceFrom(lines, i, opener, closer);
        assert lines[i..i] == [];
      }
    }
  }

  /** The balance of the lines from `i` on is the change at line `i` plus the balance after it. */
  lemma BalanceFrom(lines: seq<string>, i: int, opener: string, closer: string)
    requires 0 <= i < |lines|
    ensures forall k :: i < k <= |lines| ==>
              Balance(lines[i..k], opener, closer) == Delta(Text.TrimSpace(lines[i]), opener, closer) + Balance(lines[i + 1..k], opener, closer)
  {
    forall k | i < k <= |lines|
      ensures Balance(lines[i..k], opener, closer) == Delta(Text.TrimSpace(lines[i]), opener, closer) + Balance(lines[i + 1..k], opener, closer)
    {
      assert lines[i..k][1..] == lines[i + 1..k];
    }
  }

  /** The stripped text of some lines. */
  function Trimmed(lines: seq<string>): (r: seq<string>)
    ensures |r| == |lines| && forall k :: 0 <= k < |lines| ==> r[k] == Text.TrimSpace(lines[k])
  {
    seq(|lines|, k requires 0 <= k < |lines| => Text.TrimSpace(lines[k]))
  }

  /** The lines after the opening line of a block, up to and including the closer at `j`. */
  function Block(lines: seq<string>, i: int, j: int): seq<string>
    requires 0 <= i <= j <= |lines|
  {
    Trimmed(lines[i..if j < |lines| then j + 1 else |lines|])
  }

  /** The message for a line that failed. */
  function LineError(n: int, what: string): string
  {
    "Error at line " + Text.IntToString(n) + ": " + what + "\n"
  }

  /** The end of a collected block: the block's outcome, or the rest of the script. */
  function AfterBlock(lines: seq<string>, j: int, n: int, kind: string, o: Outcome, ex: Executor): ScriptResult
    requires 0 <= j <= |lines|
    decreases |lines| - j, 0
  {
    match o
    case Exit(c) => ScriptResult(ExitCode(c), "")
    case Raised(m) => ScriptResult(1, LineError(n, m))
    case Code(c) =>
      if c != 0 then ScriptResult(c, LineError(n, kind + " failed with exit code " + Text.IntToString(c)))
      else if j < |lines| then RunFrom(lines, j + 1, ex) else ScriptResult(0, "")
  }

  /** The rest of the script from line `i`: blank lines and comments are skipped; a line whose
      code asks for a `for` or `if` block has the block collected and run; the first non-zero
      code, exit or exception ends the script. */
  function RunFrom(lines: seq<string>, i: int, ex: Executor): ScriptResult
    requires 0 <= i <= |lines|
    decreases |lines| - i, 1
  {
    if i == |lines| then ScriptResult(0, "")
    else
      var line := Text.TrimSpace(lines[i]);
      if line == [] || Text.StartsWith(line, "#") then RunFrom(lines, i + 1, ex)
      else match ex.run(line)
        case Exit(c) => ScriptResult(ExitCode(c), "")
        case Raised(m) => ScriptResult(1, LineError(i + 1, m))
        case Code(c) =>
          if c == FOR_PENDING then
            var j := Collect(lines, i + 1, 1, "for ", "done");
            AfterBlock(lines, j, i + 1, "for loop", ex.runFor([line] + Block(lines, i + 1, j)), ex)
          else if c == IF_PENDING then
            var j := Collect(lines, i + 1, 1, "if ", "fi");
            AfterBlock(lines, j, i + 1, "if statement", ex.runIf([line] + Block(lines, i + 1, j)), ex)
          else if c != 0 then ScriptResult(c, LineError(i + 1, "command failed with exit code " + Text.IntToString(c)))
          else RunFrom(lines, i + 1, ex)
  }

  /** `execute_script_file` once the variables are set: a missing file exits with 127, another
      read error with 1. */
  function ScriptReply(file: Result<seq<string>, FileError>, path: string, ex: Executor): ScriptResult
  {
    match file
    case Err(NotFound) => ScriptResult(127, "agfs-shell: " + path + ": No such file or directory\n")
    case Err(Unreadable(m)) => ScriptResult(1, "agfs-shell: " + path + ": " + m + "\n")
    case Ok(lines) => RunFrom(lines, 0, ex)
  }

  /** A script whose commands and blocks all succeed exits with 0 and reports nothing. */
  lemma {:induction false} AllSucceed(lines: seq<string>, i: int, ex: Executor)
    requires 0 <= i <= |lines|
    requires forall l :: ex.run(l) == Code(0)
    ensures RunFrom(lines, i, ex) == ScriptResult(0, "")
    decreases |lines| - i
  {
    if i < |lines| {
      AllSucceed(lines, i + 1, ex);
    }
  }

  /** Every error message comes with a non-zero exit code. */
  lemma {:induction false} ErrorMeansFailure(lines: seq<string>, i: int, ex: Executor)
    requires 0 <= i <= |lines|
    ensures RunFrom(lines, i, ex).err != [] ==> RunFrom(lines, i, ex).code != 0
    decreases |lines| - i
  {
    if i < |lines| {
      var line := Text.TrimSpace(lines[i]);
      if line == [] || Text.StartsWith(line, "#") {
        ErrorMeansFailure(lines, i + 1, ex);
      } else if ex.run(line).Code? {
        var c := ex.run(line).code;
        if c == FOR_PENDING || c == IF_PENDING {
          var j := if c == FOR_PENDING then Collect(lines, i + 1, 1, "for ", "done") else Collect(lines, i + 1, 1, "if ", "fi");
          if j < |lines| {
            ErrorMeansFailure(lines, j + 1, ex);
          }
        } else if c == 0 {
          ErrorMeansFailure(lines, i + 1, ex);
        }
      }
    }
  }

  lemma TrimmedSnoc(lines: seq<string>, start: int, j: int)
    requires 0 <= start <= j < |lines|
    ensures Trimmed(lines[start..j + 1]) == Trimmed(lines[start..j]) + [Text.TrimSpace(lines[j])]
  {
    assert lines[start..j + 1] == lines[start..j] + [lines[j]];
  }

  /** The loop collecting a block: the stripped lines up to the closer, and the closer's index. */
  method CollectBlock(lines: seq<string>, start: int, opener: string, closer: string) returns (block: seq<string>, j: int)
    requires 0 <= start <= |lines|
    ensures j == Collect(lines, start, 1, opener, closer)
    ensures block == Block(lines, start, j)
  {
    block := [];
    var depth := 1;
    j := start;
    while j < |lines|
      invariant start <= j <= |lines|
      invariant Collect(lines, j, depth, opener, closer) == Collect(lines, start, 1, opener, closer)
      invariant block == Trimmed(lines[start..j])
    {
      var next := Text.TrimSpace(lines[j]);
      TrimmedSnoc(lines, start, j);
      block := block + [next];
      if Text.StartsWith(next, opener) {
        depth := depth + 1;
      } else if next == closer {
        depth := depth - 1;
        if depth == 0 {
          return;
        }
      }
      j := j + 1;
    }
  }

  /** A line asking for a `for` or `if` block: the block is collected and run; `stop` says the
      script ends there with `r`, otherwise it goes on after the closer at `j`. */
  method RunBlock(lines: seq<string>, i: int, c: int, ex: Executor) returns (stop: bool, r: ScriptResult, j: int)
    requires 0 <= i < |lines|
    requires var line := Text.TrimSpace(lines[i]);
             line != [] && !Text.StartsWith(line, "#") && ex.run(line) == Code(c)
    requires c == FOR_PENDING || c == IF_PENDING
    ensures i < j <= |lines|
    ensures stop ==> r == RunFrom(lines, i, ex)
    ensures !stop ==> RunFrom(lines, i, ex) == if j < |lines| then RunFrom(lines, j + 1, ex) else ScriptResult(0, "")
  {
    var line := Text.TrimSpace(lines[i]);
    var opener, closer, kind := "for ", "done", "for loop";
    if c == IF_PENDING {
      opener, closer, kind := "if ", "fi", "if statement";
    }
    var block;
    block, j := CollectBlock(lines, i + 1, opener, closer);
    var b := if c == FOR_PENDING then ex.runFor([line] + block) else ex.runIf([line] + block);
    assert RunFrom(lines, i, ex) == AfterBlock(lines, j, i + 1, kind, b, ex);
    stop := true;
    if b.Exit? {
      return stop, ScriptResult(ExitCode(b.exitCode), ""), j;
    }
    if b.Raised? {
      return stop, ScriptResult(1, LineError(i + 1, b.msg)), j;
    }
    if b.code != 0 {
      return stop, ScriptResult(b.code, LineError(i + 1, kind + " failed with exit code " + Text.IntToString(b.code))), j;
    }
    stop, r := false, ScriptResult(0, "");
  }

  /** A blank line, a comment or a command that succeeds passes on to the next line. */
  lemma RunFromSkips(lines: seq<string>, i: int, ex: Executor)
    requires 0 <= i < |lines|
    requires var line := Text.TrimSpace(lines[i]);
             line == [] || Text.StartsWith(line, "#") || ex.run(line) == Code(0)
    ensures RunFrom(lines, i, ex) == RunFrom(lines, i + 1, ex)
  {
  }

  /** An exit, an exception or a failing command that opens no block ends the script at its line. */
  lemma RunFromStops(lines: seq<string>, i: int, ex: Executor)
    requires 0 <= i < |lines|
    requires var line := Text.TrimSpace(lines[i]);
             line != [] && !Text.StartsWith(line, "#")
    ensures var o := ex.run(Text.TrimSpace(lines[i]));
            (o.Exit? ==> RunFrom(lines, i, ex) == ScriptResult(ExitCode(o.exitCode), ""))
            && (o.Raised? ==> RunFrom(lines, i, ex) == ScriptResult(1, LineError(i + 1, o.msg)))
            && (o.Code? && o.code != FOR_PENDING && o.code != IF_PENDING && o.code != 0 ==>
                  RunFrom(lines, i, ex) == ScriptResult(o.code, LineError(i + 1, "command failed with exit code " + Text.IntToString(o.code))))
  {
  }

  /** One command line of the loop: it stops the script with the reference result, or says
      where the loop goes on. */
  method RunLine(lines: seq<string>, i: int, ex: Executor) returns (stop: bool, r: ScriptResult, next: int)
    requires 0 <= i < |lines|
    requires var line := Text.TrimSpace(lines[i]);
             line != [] && !Text.StartsWith(line, "#")
    ensures stop ==> r == RunFrom(lines, i, ex)
    ensures !stop ==> i < next <= |lines| && RunFrom(lines, next, ex) == RunFrom(lines, i, ex)
  {
    var line := Text.TrimSpace(lines[i]);
    var o := ex.run(line);
    RunFromStops(lines, i, ex);
    next := i + 1;
    if o.Exit? {
      return true, ScriptResult(ExitCode(o.exitCode), ""), next;
    }
    if o.Raised? {
      return true, ScriptResult(1, LineError(i + 1, o.msg)), next;
    }
    var c := o.code;
    if c == FOR_PENDING || c == IF_PENDING {
      var j;
      stop, r, j := RunBlock(lines, i, c, ex);
      next := if j < |lines| then j + 1 else |lines|;
    } else if c != 0 {
      stop, r := true, ScriptResult(c, LineError(i + 1, "command failed with exit code " + Text.IntToString(c)));
    } else {
      RunFromSkips(lines, i, ex);
      stop, r := false, ScriptResult(0, "");
    }
  }

  /** The line loop of `execute_script_file`. */
  method RunLines(lines: seq<string>, ex: Executor) returns (r: ScriptResult)
    ensures r == RunFrom(lines, 0, ex)
  {
    var i := 0;
    while i < |lines|
      invariant 0 <= i <= |lines|
      invariant RunFrom(lines, i, ex) == RunFrom(lines, 0, ex)
      decreases |lines| - i
    {
      var line := Text.TrimSpace(lines[i]);
      if line == [] || Text.StartsWith(line, "#") {
        RunFromSkips(lines, i, ex);
        i := i + 1;
      } else {
        var stop, res, next := RunLine(lines, i, ex);
        if stop {
          return res;
        }
        i := next;
      }
    }
    r := ScriptResult(0, "");
  }

  /** `execute_script_file`: sets the script's variables, then runs its lines. */
  method ExecuteScriptFile(shell: Shell, path: string, args: seq<string>, file: Result<seq<string>, FileError>,
                           ex: Executor) returns (r: ScriptResult)
    modifies shell
    ensures shell.env == ScriptEnv(old(shell.env), path, args)
    ensures r == ScriptReply(file, path, ex)
  {
    SetScriptEnv(shell, path, args);
    if file.Err? {
      if file.error.NotFound? {
        return ScriptResult(127, "agfs-shell: " + path + ": No such file or directory\n");
      }
      return ScriptResult(1, "agfs-shell: " + path + ": " + file.error.msg + "\n");
    }
    r := RunLines(file.value, ex);
  }

  // ---------------------------------------------------------------------------------------------
  // The `-c` command string

  /** The control-flow statement being collected, if any. */
  datatype Flow = NoFlow | IfFlow | ForFlow

  /** The splitter's state: the finished commands, the parts of a statement being collected, and
      what statement that is. */
  datatype Splitter = Splitter(commands: seq<string>, current: seq<string>, flow: Flow)

  const START := Splitter([], [], NoFlow)

  /** Whether a part ends the statement being collected. As written, a part ends an `if` when
      `fi` occurs anywhere in it and a `for` when `done` does; corrected, the part's first word
      must be the keyword. */
  predicate Closes(p: string, flow: Flow, asWritten: bool)
  {
    if asWritten then (flow == IfFlow && Text.Contains(p, "fi")) || (flow == ForFlow && Text.Contains(p, "done"))
    else (flow == IfFlow && Text.Word(p) == "fi") || (flow == ForFlow && Text.Word(p) == "done")
  }

  /** One `;`-separated part: stripped, dropped when empty, collected while a statement is open,
      otherwise a command of its own. */
  function Step(s: Splitter, part: string, asWritten: bool): Splitter
  {
    var p := Text.TrimSpace(part);
    if p == [] then s
    else if Text.StartsWith(p, "if ") then Splitter(s.commands, s.current + [p], IfFlow)
    else if Text.StartsWith(p, "for ") then Splitter(s.commands, s.current + [p], ForFlow)
    else if s.flow != NoFlow then
      var cur := s.current + [p];
      if Closes(p, s.flow, asWritten) then Splitter(s.commands + [Text.Join(cur, "; ")], [], NoFlow)
      else Splitter(s.commands, cur, s.flow)
    else
      Splitter((if s.current != [] then s.commands + [Text.Join(s.current, "; ")] else s.commands) + [p], [], NoFlow)
  }

  function Fold(parts: seq<string>, asWritten: bool): Splitter
    decreases |parts|
  {
    if parts == [] then START else Step(Fold(parts[..|parts| - 1], asWritten), parts[|parts| - 1], asWritten)
  }

  /** The commands, with a statement still open at the end added as it stands. */
  function Finish(s: Splitter): seq<string>
  {
    if s.current != [] then s.commands + [Text.Join(s.current, "; ")] else s.commands
  }

  /** The commands a `-c` string is cut into, for either closing test. */
  function SplitCommandsWith(command: string, asWritten: bool): seq<string>
  {
    if ';' !in command then [command] else Finish(Fold(Text.Split(command, ";"), asWritten))
  }

  /** The splitter as the source writes it. */
  function SplitCommandsAsWritten(command: string): seq<string>
  {
    SplitCommandsWith(command, true)
  }

  /** The splitter with the closing keyword matched as a word. */
  function SplitCommands(command: string): seq<string>
  {
    SplitCommandsWith(command, false)
  }

  /** The non-empty stripped parts. */
  function Kept(parts: seq<string>): seq<string>
    decreases |parts|
  {
    if parts == [] then []
    else
      var p := Text.TrimSpace(parts[|parts| - 1]);
      Kept(parts[..|parts| - 1]) + (if p == [] then [] else [p])
  }

  /** Every command cut at `"; "`, one after another. */
  function ReSplit(commands: seq<string>): seq<string>
    decreases |commands|
  {
    if commands == [] then [] else ReSplit(commands[..|commands| - 1]) + Text.Split(commands[|commands| - 1], "; ")
  }

  lemma ReSplitAppend(commands: seq<string>, c: string)
    ensures ReSplit(commands + [c]) == ReSplit(commands) + Text.Split(c, "; ")
  {
    assert (commands + [c])[..|commands|] == commands;
  }

  /** Stripping keeps only characters of the text. */
  lemma TrimSpaceWithin(s: string, c: char)
    requires c !in s
    ensures c !in Text.TrimSpace(s)
  {
    var l := Text.TrimLeft(s);
    Text.TrimLeftDrops(s);
    Text.TrimRightDrops(l);
    assert Text.TrimSpace(s) == l[..|Text.TrimRight(l)|];
  }

  predicate NoSemicolon(ps: seq<string>)
  {
    forall k :: 0 <= k < |ps| ==> ';' !in ps[k]
  }

  lemma JoinedSplitsBack(ps: seq<string>)
    requires ps != [] && NoSemicolon(ps)
    ensures Text.Split(Text.Join(ps, "; "), "; ") == ps
  {
    Text.SplitJoin(ps, "; ");
  }

  /** One step keeps the invariant: the part, stripped, joins what was kept. */
  predicate KeepsParts(s: Splitter, part: string, asWritten: bool)
  {
    var p := Text.TrimSpace(part);
    var t := Step(s, part, asWritten);
    ReSplit(t.commands) + t.current == ReSplit(s.commands) + s.current + (if p == [] then [] else [p])
    && NoSemicolon(t.current)
  }

  lemma StepKeepsParts(s: Splitter, part: string, asWritten: bool)
    requires ';' !in part && NoSemicolon(s.current)
    ensures var p := Text.TrimSpace(part);
            var t := Step(s, part, asWritten);
            ReSplit(t.commands) + t.current == ReSplit(s.commands) + s.current + (if p == [] then [] else [p])
            && NoSemicolon(t.current)
  {
    var p := Text.TrimSpace(part);
    TrimSpaceWithin(part, ';');
    if p == [] || Text.StartsWith(p, "if ") || Text.StartsWith(p, "for ") {
      KeepsOpening(s, part, asWritten);
    } else if s.flow != NoFlow {
      KeepsInFlow(s, part, asWritten);
    } else {
      KeepsOutside(s, part, asWritten);
    }
  }

  lemma KeepsOpening(s: Splitter, part: string, asWritten: bool)
    requires ';' !in Text.TrimSpace(part) && NoSemicolon(s.current)
    requires var p := Text.TrimSpace(part); p == [] || Text.StartsWith(p, "if ") || Text.StartsWith(p, "for ")
    ensures KeepsParts(s, part, asWritten)
  {
  }

  lemma KeepsInFlow(s: Splitter, part: string, asWritten: bool)
    requires ';' !in Text.TrimSpace(part) && NoSemicolon(s.current)
    requires PlainPart(Text.TrimSpace(part)) && s.flow != NoFlow
    ensures KeepsParts(s, part, asWritten)
  {
    var p := Text.TrimSpace(part);
    var cur := s.current + [p];
    var t := Step(s, part, asWritten);
    NoSemicolonSnoc(s.current, p);
    if Closes(p, s.flow, asWritten) {
      assert t == Splitter(s.commands + [Text.Join(cur, "; ")], [], NoFlow);
      ClosingKeepsParts(s.commands, cur);
      assert ReSplit(t.commands) + t.current == ReSplit(s.commands) + s.current + [p];
    } else {
      assert t == Splitter(s.commands, cur, s.flow);
      assert ReSplit(t.commands) + t.current == ReSplit(s.commands) + s.current + [p];
    }
  }

  lemma NoSemicolonSnoc(ps: seq<string>, p: string)
    requires NoSemicolon(ps) && ';' !in p
    ensures NoSemicolon(ps + [p])
  {
  }

  /** Closing a statement: the joined command cuts back into its parts. */
  lemma ClosingKeepsParts(commands: seq<string>, cur: seq<string>)
    requires cur != [] && NoSemicolon(cur)
    ensures ReSplit(commands + [Text.Join(cur, "; ")]) == ReSplit(commands) + cur
  {
    ReSplitAppend(commands, Text.Join(cur, "; "));
    JoinedSplitsBack(cur);
  }

  lemma KeepsOutside(s: Splitter, part: string, asWritten: bool)
    requires ';' !in Text.TrimSpace(part) && NoSemicolon(s.current)
    requires PlainPart(Text.TrimSpace(part)) && s.flow == NoFlow
    ensures KeepsParts(s, part, asWritten)
  {
    var p := Text.TrimSpace(part);
    var done := if s.current != [] then s.commands + [Text.Join(s.current, "; ")] else s.commands;
    var t := Step(s, part, asWritten);
    assert t == Splitter(done + [p], [], NoFlow);
    StepRegular(s, p);
    assert ReSplit(t.commands) + t.current == ReSplit(s.commands) + s.current + [p];
  }

  /** A part outside any statement becomes a command of its own, after the open parts if any. */
  lemma StepRegular(s: Splitter, p: string)
    requires ';' !in p && NoSemicolon(s.current)
    ensures var done := if s.current != [] then s.commands + [Text.Join(s.current, "; ")] else s.commands;
            ReSplit(done + [p]) == ReSplit(s.commands) + s.current + [p]
  {
    var done := if s.current != [] then s.commands + [Text.Join(s.current, "; ")] else s.commands;
    if s.current != [] {
      ReSplitAppend(s.commands, Text.Join(s.current, "; "));
      JoinedSplitsBack(s.current);
    }
    ReSplitAppend(done, p);
    JoinedSplitsBack([p]);
  }

  /** The splitter's invariant: the finished commands, cut again, followed by the open parts, are
      the kept parts so far. */
  lemma {:induction false} FoldKeepsParts(parts: seq<string>, asWritten: bool)
    requires NoSemicolon(parts)
    ensures ReSplit(Fold(parts, asWritten).commands) + Fold(parts, asWritten).current == Kept(parts)
    ensures NoSemicolon(Fold(parts, asWritten).current)
    decreases |parts|
  {
    if parts != [] {
      var init := parts[..|parts| - 1];
      FoldKeepsParts(init, asWritten);
      StepKeepsParts(Fold(init, asWritten), parts[|parts| - 1], asWritten);
    }
  }

  /** Cutting each command again at `"; "` gives back the non-empty stripped parts of the
      string, in order: the splitter only regroups them. */
  lemma ReSplitGivesParts(command: string, asWritten: bool)
    requires ';' in command
    ensures ReSplit(SplitCommandsWith(command, asWritten)) == Kept(Text.Split(command, ";"))
  {
    var parts := Text.Split(command, ";");
    forall k | 0 <= k < |parts| ensures ';' !in parts[k] {
      Text.CharAbsent(parts[k], ';');
    }
    FoldKeepsParts(parts, asWritten);
    var s := Fold(parts, asWritten);
    if s.current != [] {
      ReSplitAppend(s.commands, Text.Join(s.current, "; "));
      JoinedSplitsBack(s.current);
    }
  }

  /** A part that is already stripped and opens no statement. */
  predicate PlainPart(p: string)
  {
    p != [] && Text.TrimSpace(p) == p && !Text.StartsWith(p, "if ") && !Text.StartsWith(p, "for ")
  }

  /** Parts that are already stripped and open no statement. */
  predicate Plain(ps: seq<string>)
  {
    forall k :: 0 <= k < |ps| ==> PlainPart(ps[k])
  }

  /** Inside an open statement, a plain part that does not close it is collected. */
  lemma StepCollects(s: Splitter, p: string, asWritten: bool)
    requires PlainPart(p) && s.flow != NoFlow && !Closes(p, s.flow, asWritten)
    ensures Step(s, p, asWritten) == Splitter(s.commands, s.current + [p], s.flow)
  {
  }

  /** Inside an open statement, a plain part that closes it finishes the statement as one command. */
  lemma StepCloses(s: Splitter, p: string, asWritten: bool)
    requires PlainPart(p) && s.flow != NoFlow && Closes(p, s.flow, asWritten)
    ensures Step(s, p, asWritten) == Splitter(s.commands + [Text.Join(s.current + [p], "; ")], [], NoFlow)
  {
  }

  /** With the keyword matched as a word, an `if` statement whose inner parts do not begin with
      `fi` stays open through all of them. */
  lemma {:induction false} InnerPartsStayOpen(opening: string, inner: seq<string>)
    requires Text.TrimSpace(opening) == opening && Text.StartsWith(opening, "if ")
    requires Plain(inner) && forall k :: 0 <= k < |inner| ==> Text.Word(inner[k]) != "fi"
    ensures Fold([opening] + inner, false) == Splitter([], [opening] + inner, IfFlow)
    decreases |inner|
  {
    if inner == [] {
      FoldOpening(opening, false);
      assert [opening] + inner == [opening];
    } else {
      var init := inner[..|inner| - 1];
      var last := inner[|inner| - 1];
      assert [opening] + inner == ([opening] + init) + [last];
      InnerPartsStayOpen(opening, init);
      FoldSnoc([opening] + init, last, false);
      assert PlainPart(last) && Text.Word(last) != "fi";
      StepCollects(Splitter([], [opening] + init, IfFlow), last, false);
    }
  }

  /** The corrected splitter keeps a whole `if … fi` statement in one command. */
  lemma IfStatementStaysWhole(opening: string, inner: seq<string>, closing: string)
    requires Text.TrimSpace(opening) == opening && Text.StartsWith(opening, "if ")
    requires Plain(inner) && forall k :: 0 <= k < |inner| ==> Text.Word(inner[k]) != "fi"
    requires Plain([closing]) && Text.Word(closing) == "fi"
    ensures Finish(Fold([opening] + inner + [closing], false)) == [Text.Join([opening] + inner + [closing], "; ")]
  {
    InnerPartsStayOpen(opening, inner);
    var all := [opening] + inner + [closing];
    assert all[..|all| - 1] == [opening] + inner;
    assert PlainPart(all[|all| - 1]);
    StepCloses(Splitter([], [opening] + inner, IfFlow), closing, false);
  }

  lemma ExampleOpening()
    ensures Text.TrimSpace("if a") == "if a" && Text.StartsWith("if a", "if ")
  {
    assert Text.TrimLeft("if a") == "if a" && Text.TrimRight("if a") == "if a";
  }

  lemma ExampleThenFine()
    ensures PlainPart("then fine") && Text.Contains("then fine", "fi")
  {
    assert Text.TrimLeft("then fine") == "then fine" && Text.TrimRight("then fine") == "then fine";
    assert Text.OccursAt("then fine", "fi", 5);
  }

  lemma ExampleThenFineWord()
    ensures Text.Word("then fine") == "then"
  {
    assert "then fine"[..4] == "then";
    Text.WordEndsAt("then fine", 4);
  }

  lemma ExampleFi()
    ensures PlainPart("fi") && Text.Word("fi") == "fi"
  {
    assert Text.TrimLeft("fi") == "fi" && Text.TrimRight("fi") == "fi";
  }

  lemma FoldSnoc(parts: seq<string>, p: string, asWritten: bool)
    ensures Fold(parts + [p], asWritten) == Step(Fold(parts, asWritten), p, asWritten)
  {
    assert (parts + [p])[..|parts|] == parts;
  }

  /** Outside any statement, with nothing open, a plain part is a command of its own. */
  lemma StepOutside(s: Splitter, p: string, asWritten: bool)
    requires PlainPart(p) && s.flow == NoFlow && s.current == []
    ensures Step(s, p, asWritten) == Splitter(s.commands + [p], [], NoFlow)
  {
  }

  lemma FoldOpening(opening: string, asWritten: bool)
    requires Text.TrimSpace(opening) == opening && Text.StartsWith(opening, "if ")
    ensures Fold([opening], asWritten) == Splitter([], [opening], IfFlow)
  {
    FoldSnoc([], opening, asWritten);
    assert [] + [opening] == [opening];
  }

  lemma ExampleFirstTwo()
    ensures Fold(["if a", "then fine"], true) == Splitter(["if a; then fine"], [], NoFlow)
  {
    ExampleOpening();
    ExampleThenFine();
    FoldOpening("if a", true);
    StepCloses(Splitter([], ["if a"], IfFlow), "then fine", true);
    assert ["if a"] + ["then fine"] == ["if a", "then fine"];
    ExampleFirstTwoJoin();
    FoldSnoc(["if a"], "then fine", true);
  }

  lemma ExampleFirstTwoJoin()
    ensures Text.Join(["if a", "then fine"], "; ") == "if a; then fine"
  {
    var ps := ["if a", "then fine"];
    assert ps[1..] == ["then fine"];
  }

  /** As written, a part that merely contains `fi`, such as `then fine`, ends the `if`: the
      parts of `if a; then fine; fi` become two commands, the second a stray `fi`. */
  lemma FiInsideWordEndsIf()
    ensures Finish(Fold(["if a", "then fine", "fi"], true)) == ["if a; then fine", "fi"]
  {
    ExampleFi();
    ExampleFirstTwo();
    StepOutside(Splitter(["if a; then fine"], [], NoFlow), "fi", true);
    FoldSnoc(["if a", "then fine"], "fi", true);
    assert ["if a", "then fine"] + ["fi"] == ["if a", "then fine", "fi"];
  }

  lemma NoSemicolonBefore(s: string, n: int)
    requires 0 <= n <= |s| && ';' !in s[..n]
    ensures forall i :: 0 <= i < n ==> !Text.OccursAt(s, ";", i)
  {
    forall i | 0 <= i < n ensures !Text.OccursAt(s, ";", i) {
      assert s[i..i + 1] == [s[i]] && s[i] == s[..n][i];
    }
  }

  /** Splitting a text without `;`. */
  lemma SplitWithoutSemicolon(s: string)
    requires ';' !in s
    ensures Text.Split(s, ";") == [s]
  {
    assert s[..|s|] == s;
    NoSemicolonBefore(s, |s|);
    assert !Text.Contains(s, ";");
  }

  lemma ExampleSplitTail()
    ensures Text.Split("then fine;fi", ";") == ["then fine", "fi"]
  {
    assert "then fine;fi" == "then fine" + ";" + "fi";
    Text.SplitAtFirstSeparator("then fine", ";", "fi");
    SplitWithoutSemicolon("fi");
  }

  lemma ExampleSplit()
    ensures Text.Split("if a;then fine;fi", ";") == ["if a", "then fine", "fi"]
  {
    assert "if a;then fine;fi" == "if a" + ";" + "then fine;fi";
    Text.SplitAtFirstSeparator("if a", ";", "then fine;fi");
    ExampleSplitTail();
  }

  /** The whole `-c` string `if a;then fine;fi` is cut into two commands as written. */
  lemma FiInsideWordSplitsCommand()
    ensures SplitCommandsAsWritten("if a;then fine;fi") == ["if a; then fine", "fi"]
  {
    ExampleSplit();
    FiInsideWordEndsIf();
    assert "if a;then fine;fi"[4] == ';';
  }

  /** The corrected splitter keeps the same parts as one command. */
  lemma FiAsWordEndsIf()
    ensures Finish(Fold(["if a", "then fine", "fi"], false)) == ["if a; then fine; fi"]
  {
    var opening, inner, closing := "if a", ["then fine"], "fi";
    ExampleInner();
    IfStatementStaysWhole(opening, inner, closing);
    ExampleJoin();
    assert [opening] + inner + [closing] == ["if a", "then fine", "fi"];
  }

  lemma ExampleInner()
    ensures Text.TrimSpace("if a") == "if a" && Text.StartsWith("if a", "if ")
    ensures Plain(["then fine"]) && forall k :: 0 <= k < |["then fine"]| ==> Text.Word(["then fine"][k]) != "fi"
    ensures Plain(["fi"]) && Text.Word("fi") == "fi"
  {
    ExampleOpening();
    ExampleThenFine();
    ExampleThenFineWord();
    ExampleFi();
  }

  lemma ExampleJoin()
    ensures Text.Join(["if a", "then fine", "fi"], "; ") == "if a; then fine; fi"
  {
    var ps := ["if a", "then fine", "fi"];
    assert ps[1..] == ["then fine", "fi"] && ps[1..][1..] == ["fi"];
  }

  /** The loop of `main` that cuts the string at `;`. With `asWritten` it closes a statement on
      the substring test the program uses; without, on the corrected word test. */
  method SplitCommandString(command: string, asWritten: bool) returns (commands: seq<string>)
    ensures asWritten ==> commands == SplitCommandsAsWritten(command)
    ensures !asWritten ==> commands == SplitCommands(command)
  {
    if ';' !in command {
      return [command];
    }
    var parts := Text.Split(command, ";");
    var s := START;
    var k := 0;
    while k < |parts|
      invariant 0 <= k <= |parts|
      invariant s == Fold(parts[..k], asWritten)
    {
      assert parts[..k + 1][..k] == parts[..k];
      s := Step(s, parts[k], asWritten);
      k := k + 1;
    }
    assert parts[..|parts|] == parts;
    commands := Finish(s);
  }

  // ---------------------------------------------------------------------------------------------
  // Running the commands in sequence

  /** Bytes read from standard input before running. */
  type Input = seq<bv8>

  /** One execution: the command and the input it was given. */
  datatype Call = Call(command: string, stdin: Option<Input>)

  /** Codes that do not stop the sequence besides 0: a pending `for`, `if` or function body. */
  predicate Continues(code: int)
  {
    code == 0 || code == -997 || code == -998 || code == -999
  }

  /** The commands run in order, only the first with the input, until one returns a code other
      than 0, -997, -998 and -999; the result is the last code and the calls made. */
  function RunSequence(commands: seq<string>, stdin: Option<Input>, exec: (string, Option<Input>) -> int)
    : (r: (int, seq<Call>))
    decreases |commands|
  {
    if commands == [] then (0, [])
    else
      var c := exec(commands[0], stdin);
      if !Continues(c) || |commands| == 1 then (c, [Call(commands[0], stdin)])
      else
        var (code, calls) := RunSequence(commands[1..], None, exec);
        (code, [Call(commands[0], stdin)] + calls)
  }

  /** The calls run a prefix of the commands in order; only the first gets the input; every call
      but the last continued; the code is the last call's, and the sequence stopped early only
      at a code that does not continue. */
  lemma {:induction false} RunSequenceSpec(commands: seq<string>, stdin: Option<Input>, exec: (string, Option<Input>) -> int)
    requires commands != []
    ensures var (code, calls) := RunSequence(commands, stdin, exec);
            1 <= |calls| <= |commands|
            && (forall k :: 0 <= k < |calls| ==> calls[k].command == commands[k])
            && calls[0].stdin == stdin
            && (forall k :: 1 <= k < |calls| ==> calls[k].stdin.None?)
            && (forall k :: 0 <= k < |calls| - 1 ==> Continues(exec(calls[k].command, calls[k].stdin)))
            && code == exec(calls[|calls| - 1].command, calls[|calls| - 1].stdin)
            && (|calls| < |commands| ==> !Continues(code))
    decreases |commands|
  {
    var c := exec(commands[0], stdin);
    if Continues(c) && |commands| > 1 {
      RunSequenceSpec(commands[1..], None, exec);
      var (code, calls) := RunSequence(commands[1..], None, exec);
      var all := [Call(commands[0], stdin)] + calls;
      assert forall k :: 1 <= k < |all| ==> all[k] == calls[k - 1];
    }
  }

  /** The calls made so far before the rest of a run. */
  function Prepend(calls: seq<Call>, r: (int, seq<Call>)): (int, seq<Call>)
  {
    (r.0, calls + r.1)
  }

  /** The loop running the commands. */
  method RunCommands(commands: seq<string>, stdin0: Option<Input>, exec: (string, Option<Input>) -> int)
      returns (code: int, calls: seq<Call>)
    ensures (code, calls) == RunSequence(commands, stdin0, exec)
  {
    code := 0;
    calls := [];
    var stdin := stdin0;
    var k := 0;
    assert commands[0..] == commands;
    ghost var r0 := RunSequence(commands, stdin0, exec);
    assert [] + r0.1 == r0.1;
    while k < |commands| && (k == 0 || Continues(code))
      invariant 0 <= k <= |commands|
      invariant k == 0 ==> calls == [] && code == 0 && stdin == stdin0
      invariant k < |commands| && (k == 0 || Continues(code)) ==>
                  RunSequence(commands, stdin0, exec) == Prepend(calls, RunSequence(commands[k..], stdin, exec))
      invariant k > 0 && (k == |commands| || !Continues(code)) ==> RunSequence(commands, stdin0, exec) == (code, calls)
      invariant k > 0 ==> stdin.None?
    {
      var c := exec(commands[k], stdin);
      ghost var rest := commands[k..];
      assert rest[0] == commands[k] && rest[1..] == commands[k + 1..];
      ghost var before := calls;
      calls := calls + [Call(commands[k], stdin)];
      if Continues(c) && k + 1 < |commands| {
        var tail := RunSequence(commands[k + 1..], None, exec);
        assert RunSequence(rest, stdin, exec) == (tail.0, [Call(commands[k], stdin)] + tail.1);
        assert before + ([Call(commands[k], stdin)] + tail.1) == calls + tail.1;
      }
      code := c;
      stdin := None;
      k := k + 1;
    }
  }

  /** `-c`: a string with `;` is cut and its commands run in sequence; one without runs as it is.
      Either way the exit code is that of the sequence of commands the splitter gives: the
      program's own splitter with `asWritten`, the corrected one without. */
  method RunCommandString(command: string, asWritten: bool, stdin: Option<Input>, exec: (string, Option<Input>) -> int)
      returns (code: int)
    ensures code == RunSequence(SplitCommandsWith(command, asWritten), stdin, exec).0
  {
    if ';' in command {
      var commands := SplitCommandString(command, asWritten);
      var calls;
      code, calls := RunCommands(commands, stdin, exec);
    } else {
      code := exec(command, stdin);
    }
  }

  /** As the program runs `-c 'if a;then fine;fi'`, the first command it executes is the
      truncated statement `if a; then fine`, and `fi` is executed on its own after it. */
  lemma StrayFiRunsAlone(stdin: Option<Input>, exec: (string, Option<Input>) -> int)
    requires Continues(exec("if a; then fine", stdin))
    ensures RunSequence(SplitCommandsAsWritten("if a;then fine;fi"), stdin, exec).1
            == [Call("if a; then fine", stdin), Call("fi", None)]
  {
    FiInsideWordSplitsCommand();
    var cs := ["if a; then fine", "fi"];
    assert cs[1..] == ["fi"];
  }
}
