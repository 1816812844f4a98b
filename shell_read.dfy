// The `read` built-in: reads one line and assigns it, whole or split into
// fields, to shell variables. The option parser that separates `-r` from the
// names is not part of this model: its flags and remaining arguments are
// parameters. What the process's standard input returns is the parameter
// `stdinLine` (empty at end of input); whether the real standard input is a
// terminal is `tty`, and the line typed there is `typed` (`None` at end of
// input).
module ShellRead {
  import opened Wrappers
  import opened ShellCore
  import Text

  /** Python's `str.replace`: every occurrence of `pat`, left to right and without overlap, becomes `with`. */
  function ReplaceAll(s: string, pat: string, with: string): string
    requires pat != []
    decreases |s|
  {
    if |s| < |pat| then s
    else if s[..|pat|] == pat then with + ReplaceAll(s[|pat|..], pat, with)
    else [s[0]] + ReplaceAll(s[1..], pat, with)
  }

  /** Text without the pattern is left alone. */
  lemma {:induction false} ReplaceAllAbsent(s: string, pat: string, with: string)
    requires pat != [] && !Text.Contains(s, pat)
    ensures ReplaceAll(s, pat, with) == s
    decreases |s|
  {
    if |s| >= |pat| {
      assert !Text.OccursAt(s, pat, 0);
      DropFirstAbsent(s, pat);
      ReplaceAllAbsent(s[1..], pat, with);
      assert s == [s[0]] + s[1..];
    }
  }

  lemma DropFirstAbsent(s: string, pat: string)
    requires s != [] && !Text.Contains(s, pat)
    ensures !Text.Contains(s[1..], pat)
  {
    Text.OccursShift(s, pat);
    forall i | 0 <= i <= |s| - 1 - |pat| ensures !Text.OccursAt(s[1..], pat, i) {
      assert !Text.OccursAt(s, pat, i + 1);
    }
  }

  /** With a one-character pattern, replacing agrees with replacing that character. */
  lemma {:induction false} ReplaceAllOneChar(s: string, c: char, with: string)
    ensures ReplaceAll(s, [c], with) == Text.ReplaceChar(s, c, with)
    decreases |s|
  {
    if s != [] {
      ReplaceAllOneChar(s[1..], c, with);
      var p: string := [c];
      assert |p| == 1 && s[..|p|] == [s[0]];
      assert s[..|p|] == p <==> s[0] == c;
      assert ReplaceAll(s, p, with) == (if s[0] == c then with else [s[0]]) + ReplaceAll(s[1..], p, with);
    }
  }

  /** A two-character text is replaced whole or kept. */
  lemma ReplaceAllPair(t: string, pat: string, with: string)
    requires |t| == 2 && |pat| == 2
    ensures ReplaceAll(t, pat, with) == if t == pat then with else t
  {
    if t != pat {
      assert t[..2] == t;
      assert ReplaceAll(t[1..], pat, with) == t[1..];
      assert t == [t[0]] + t[1..];
    } else {
      assert t[..2] == t && t[2..] == [];
    }
  }

  /** The escapes `read` interprets without `-r`, replaced one kind after another. */
  function Unescape(line: string): string
  {
    var a := ReplaceAll(line, "\\n", "\n");
    var b := ReplaceAll(a, "\\t", "\t");
    var c := ReplaceAll(b, "\\r", "\r");
    ReplaceAll(c, "\\\\", "\\")
  }

  /** A line without backslashes is not changed. */
  lemma UnescapePlain(line: string)
    requires '\\' !in line
    ensures Unescape(line) == line
  {
    forall pat: string, i | |pat| == 2 && pat[0] == '\\' && 0 <= i <= |line| - 2
      ensures !Text.OccursAt(line, pat, i)
    {
      assert line[i..i + 2][0] == line[i];
    }
    ReplaceAllAbsent(line, "\\n", "\n");
    ReplaceAllAbsent(line, "\\t", "\t");
    ReplaceAllAbsent(line, "\\r", "\r");
    ReplaceAllAbsent(line, "\\\\", "\\");
  }

  /** Each escape on its own becomes its character. */
  lemma UnescapeEach()
    ensures Unescape("\\n") == "\n" && Unescape("\\t") == "\t"
    ensures Unescape("\\r") == "\r" && Unescape("\\\\") == "\\"
  {
    ReplaceAllPair("\\n", "\\n", "\n");
    ReplaceAllPair("\\t", "\\n", "\n");
    ReplaceAllPair("\\t", "\\t", "\t");
    ReplaceAllPair("\\r", "\\n", "\n");
    ReplaceAllPair("\\r", "\\t", "\t");
    ReplaceAllPair("\\r", "\\r", "\r");
    ReplaceAllPair("\\\\", "\\n", "\n");
    ReplaceAllPair("\\\\", "\\t", "\t");
    ReplaceAllPair("\\\\", "\\r", "\r");
    ReplaceAllPair("\\\\", "\\\\", "\\");
  }

  /** Because the replacements run one kind after another, an escaped backslash followed by `n`
      becomes a backslash and a newline. */
  lemma UnescapeInSequence()
    ensures Unescape("\\\\n") == "\\\n"
  {
    var t := "\\\\n";
    assert ReplaceAll(t, "\\n", "\n") == "\\\n" by {
      assert t[..2][1] == '\\' && "\\n"[1] == 'n';
      assert t[1..] == "\\n";
      ReplaceAllPair("\\n", "\\n", "\n");
    }
    var u := "\\\n";
    ReplaceAllPair(u, "\\t", "\t");
    ReplaceAllPair(u, "\\r", "\r");
    ReplaceAllPair(u, "\\\\", "\\");
  }

  /** The end of line `read` removes from the process's input: one `\n`, then one `\r`. */
  function StripLineEnd(s: string): (r: string)
  {
    var a := if Text.EndsWith(s, "\n") then s[..|s| - 1] else s;
    if Text.EndsWith(a, "\r") then a[..|a| - 1] else a
  }

  /** A `\r\n` or `\n` ending goes, and only one of each; a line with neither is kept. */
  lemma StripLineEndCases(s: string)
    ensures StripLineEnd(s + "\r\n") == s
    ensures !Text.EndsWith(s, "\r") ==> StripLineEnd(s + "\n") == s
    ensures !Text.EndsWith(s, "\n") && !Text.EndsWith(s, "\r") ==> StripLineEnd(s) == s
    ensures StripLineEnd(s + "\n\n") == s + "\n"
  {
    assert (s + "\r\n")[..|s| + 1] == s + "\r";
    assert (s + "\r")[..|s|] == s;
    assert (s + "\n")[..|s|] == s;
    assert (s + "\n\n")[..|s| + 1] == s + "\n";
  }

  /** The line `read` works on, or `None` at end of input: the process's input with its line end
      removed, or else (on a terminal) the typed line. */
  function LineRead(stdinLine: string, tty: bool, typed: Option<string>): Option<string>
  {
    if stdinLine == [] then (if tty then typed else None)
    else Some(StripLineEnd(stdinLine))
  }

  /** The value variable `i` of `n` receives when the line has the given fields. */
  function FieldValue(i: nat, n: nat, fields: seq<string>): (r: string)
  {
    if i >= |fields| then ""
    else if i + 1 < n then fields[i]
    else Text.Join(fields[i..], " ")
  }

  /** The variables after the first `k` of several names have been assigned, in order. */
  function Fill(vars: map<string, string>, names: seq<string>, fields: seq<string>, k: nat): map<string, string>
    requires k <= |names|
  {
    if k == 0 then vars
    else Fill(vars, names, fields, k - 1)[names[k - 1] := FieldValue(k - 1, |names|, fields)]
  }

  /** The variables after `read` assigns the line to `names`. */
  function Assign(vars: map<string, string>, names: seq<string>, line: string): map<string, string>
    requires names != []
  {
    if |names| == 1 then vars[names[0] := Text.TrimSpace(line)]
    else Fill(vars, names, Text.Fields(line), |names|)
  }

  /** The assignment loop of `read` for several names. */
  method FillFields(env: Environment?, names: seq<string>, fields: seq<string>)
    modifies env
    ensures env != null ==> env.vars == Fill(old(env.vars), names, fields, |names|)
  {
    if fields == [] {
      var i := 0;
      while i < |names|
        invariant 0 <= i <= |names|
        invariant env != null ==> env.vars == Fill(old(env.vars), names, fields, i)
      {
        if env != null {
          env.vars := env.vars[names[i] := ""];
        }
        i := i + 1;
      }
    } else {
      var i := 0;
      while i < |names|
        invariant 0 <= i <= |names|
        invariant env != null ==> env.vars == Fill(old(env.vars), names, fields, i)
      {
        if i < |names| - 1 {
          if i < |fields| {
            if env != null { env.vars := env.vars[names[i] := fields[i]]; }
          } else {
            if env != null { env.vars := env.vars[names[i] := ""]; }
          }
        } else {
          if i < |fields| {
            var remaining := Text.Join(fields[i..], " ");
            if env != null { env.vars := env.vars[names[i] := remaining]; }
          } else {
            if env != null { env.vars := env.vars[names[i] := ""]; }
          }
        }
        i := i + 1;
      }
    }
  }

  /** The reading step of `cmd_read`. */
  method ReadLine(stdinLine: string, tty: bool, typed: Option<string>) returns (r: Option<string>)
    ensures r == LineRead(stdinLine, tty, typed)
  {
    if stdinLine == [] {
      if !tty {
        return None;
      }
      if typed.None? {
        return None;
      }
      return Some(typed.value);
    }
    var line := stdinLine;
    if Text.EndsWith(line, "\n") {
      line := line[..|line| - 1];
    }
    if Text.EndsWith(line, "\r") {
      line := line[..|line| - 1];
    }
    r := Some(line);
  }

  /** `cmd_read`: 1 at end of input with nothing assigned; otherwise 0, with the line (its escapes
      interpreted unless `-r` was given) assigned to the names, or to `REPLY` when there are none. */
  method Read(flags: seq<string>, args: seq<string>, stdinLine: string, tty: bool, typed: Option<string>,
              env: Environment?) returns (code: int)
    modifies env
    ensures LineRead(stdinLine, tty, typed).None? ==> code == 1 && (env != null ==> env.vars == old(env.vars))
    ensures LineRead(stdinLine, tty, typed).Some? ==>
              code == 0 &&
              var raw := LineRead(stdinLine, tty, typed).value;
              var line := if "-r" in flags then raw else Unescape(raw);
              (env != null ==> env.vars == Assign(old(env.vars), if args != [] then args else ["REPLY"], line))
  {
    var rawMode := "-r" in flags;
    var names := if args != [] then args else ["REPLY"];
    var got := ReadLine(stdinLine, tty, typed);
    if got.None? {
      return 1;
    }
    var line := got.value;
    if !rawMode {
      line := ReplaceAll(line, "\\n", "\n");
      line := ReplaceAll(line, "\\t", "\t");
      line := ReplaceAll(line, "\\r", "\r");
      line := ReplaceAll(line, "\\\\", "\\");
    }
    if |names| == 1 {
      if env != null {
        env.vars := env.vars[names[0] := Text.TrimSpace(line)];
      }
    } else {
      FillFields(env, names, Text.Fields(line));
    }
    code := 0;
  }

  /** With distinct names, each name holds its own field's value and no other variable changes. */
  lemma {:induction false} FillLookup(vars: map<string, string>, names: seq<string>, fields: seq<string>, k: nat)
    requires k <= |names|
    requires forall i, j :: 0 <= i < j < |names| ==> names[i] != names[j]
    ensures forall i :: 0 <= i < k ==>
              names[i] in Fill(vars, names, fields, k) && Fill(vars, names, fields, k)[names[i]] == FieldValue(i, |names|, fields)
    ensures forall v :: v !in names[..k] ==>
              (v in Fill(vars, names, fields, k) <==> v in vars) &&
              (v in vars ==> Fill(vars, names, fields, k)[v] == vars[v])
    decreases k
  {
    if k > 0 {
      FillLookup(vars, names, fields, k - 1);
      assert forall v :: v in names[..k] <==> v in names[..k - 1] || v == names[k - 1];
    }
  }

  /** An empty or blank line gives every one of several names the empty value. */
  lemma BlankLineClears(names: seq<string>, line: string, i: nat)
    requires |names| >= 2 && i < |names| && Text.AllSpace(line)
    ensures FieldValue(i, |names|, Text.Fields(line)) == ""
  {
  }

  /** Joining two non-empty lists is joining their joins. */
  lemma {:induction false} JoinAppend(a: seq<string>, b: seq<string>, sep: string)
    requires a != [] && b != []
    ensures Text.Join(a + b, sep) == Text.Join(a, sep) + sep + Text.Join(b, sep)
    decreases |a|
  {
    if |a| == 1 {
      assert (a + b)[0] == a[0] && (a + b)[1..] == b;
    } else {
      JoinAppend(a[1..], b, sep);
      assert (a + b)[1..] == a[1..] + b;
    }
  }

  /** No field is lost: when the line has at least as many fields as there are names, the values of
      the names, joined by spaces, are the fields joined by spaces. */
  lemma {:induction false} FieldsKept(n: nat, fields: seq<string>, k: nat)
    requires 1 <= k <= n <= |fields|
    ensures Text.Join(seq(k, i requires 0 <= i < k => FieldValue(i + n - k, n, fields)), " ")
            == Text.Join(fields[n - k..], " ")
    decreases k
  {
    var values := seq(k, i requires 0 <= i < k => FieldValue(i + n - k, n, fields));
    if k == 1 {
      assert values[0] == FieldValue(n - 1, n, fields) == Text.Join(fields[n - 1..], " ");
      assert values == [Text.Join(fields[n - 1..], " ")];
    } else {
      FieldsKept(n, fields, k - 1);
      var rest := seq(k - 1, i requires 0 <= i < k - 1 => FieldValue(i + n - (k - 1), n, fields));
      assert values[0] == FieldValue(n - k, n, fields) == fields[n - k];
      assert forall i :: 0 <= i < k - 1 ==> values[i + 1] == rest[i];
      assert values == [fields[n - k]] + rest;
      assert fields[n - k..] == [fields[n - k]] + fields[n - k + 1..];
      JoinAppend([fields[n - k]], rest, " ");
      JoinAppend([fields[n - k]], fields[n - k + 1..], " ");
    }
  }
}
