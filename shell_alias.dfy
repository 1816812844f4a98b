// The `alias` built-in: lists, shows and defines the shell's aliases. Each
// argument is handled in turn; an argument holding `=` defines an alias, any
// other argument shows one. Errors are reported on standard error and set the
// exit code to 1 without stopping the remaining arguments.
module ShellAlias {
  import opened ShellCore
  import StringOrder
  import Text

  predicate IsAlnum(c: char) { Text.IsAsciiLetter(c) || Text.IsDigit(c) }

  /** The characters an alias name may hold: letters, digits, `_`, `-` and `.`. */
  predicate NameChar(c: char) { IsAlnum(c) || c == '_' || c == '-' || c == '.' }

  /** An alias name begins with a letter, `_` or `.`, and holds only name characters. */
  predicate ValidAliasName(name: string) {
    name != [] && (Text.IsAsciiLetter(name[0]) || name[0] == '_' || name[0] == '.')
    && forall i :: 0 <= i < |name| ==> NameChar(name[i])
  }

  /** `_is_valid_alias_name`: the first character, then every character, is checked in turn. */
  method IsValidAliasName(name: string) returns (ok: bool)
    ensures ok <==> ValidAliasName(name)
  {
    if name == [] {
      return false;
    }
    if !(Text.IsAsciiLetter(name[0]) || name[0] == '_') {
      if name[0] != '.' {
        return false;
      }
    }
    var i := 0;
    while i < |name|
      invariant 0 <= i <= |name|
      invariant forall j :: 0 <= j < i ==> NameChar(name[j])
    {
      if !NameChar(name[i]) {
        return false;
      }
      i := i + 1;
    }
    return true;
  }

  /** A valid name never holds `=`, so the text before the first `=` of a definition is its name. */
  lemma NoEqualsInName(name: string)
    requires ValidAliasName(name)
    ensures '=' !in name
  {
  }

  predicate IsQuote(c: char) { c == '"' || c == '\'' }

  /** A value of length at least two that begins and ends with the same quote loses those two. */
  function StripQuotes(v: string): (r: string)
  {
    if |v| >= 2 && IsQuote(v[0]) && v[|v| - 1] == v[0] then v[1..|v| - 1] else v
  }

  /** Quoting a value with either quote and stripping gives the value back, once: an inner pair stays;
      a value that does not start with a quote, or starts and ends with different ones, is kept. */
  lemma StripQuotesExact(q: char, inner: string, v: string)
    requires IsQuote(q)
    ensures StripQuotes([q] + inner + [q]) == inner
    ensures v == [] || !IsQuote(v[0]) || v[|v| - 1] != v[0] ==> StripQuotes(v) == v
    ensures |StripQuotes(v)| == |v| || |StripQuotes(v)| == |v| - 2
  {
    var w := [q] + inner + [q];
    assert w[1..|w| - 1] == inner;
  }

  /** The line that shows one alias. */
  function Definition(name: string, value: string): (r: string)
    ensures r != []
  {
    "alias " + name + "='" + value + "'\n"
  }

  /** The alias table and the text written so far, with the exit code. */
  datatype State = State(aliases: map<string, string>, out: string, err: string, code: int)

  /** One argument of `alias`. */
  function ArgStep(s: State, arg: string): State
  {
    var i := Text.IndexOfChar(arg, '=');
    if i >= 0 then
      var name := arg[..i];
      if !ValidAliasName(name) then
        s.(err := s.err + "alias: `" + name + "': invalid alias name\n", code := 1)
      else
        s.(aliases := s.aliases[name := StripQuotes(arg[i + 1..])])
    else if arg in s.aliases then
      s.(out := s.out + Definition(arg, s.aliases[arg]))
    else
      s.(err := s.err + "alias: " + arg + ": not found\n", code := 1)
  }

  /** The arguments handled from first to last. */
  function ArgsEffect(s: State, args: seq<string>): State
    decreases |args|
  {
    if args == [] then s else ArgStep(ArgsEffect(s, args[..|args| - 1]), args[|args| - 1])
  }

  /** The definitions of `names`, in that order. */
  function Listing(names: seq<string>, aliases: map<string, string>): string
    requires forall k :: 0 <= k < |names| ==> names[k] in aliases
    decreases |names|
  {
    if names == [] then ""
    else
      var last := names[|names| - 1];
      Listing(names[..|names| - 1], aliases) + Definition(last, aliases[last])
  }

  /** The listing of every alias in name order. */
  function AllDefinitions(aliases: map<string, string>): string
  {
    Listing(StringOrder.SortedKeys(aliases.Keys), aliases)
  }

  /** The listing loop of `cmd_alias`: the definitions of `names`, in order. */
  method ListAliases(names: seq<string>, aliases: map<string, string>) returns (out: string)
    requires forall k :: 0 <= k < |names| ==> names[k] in aliases
    ensures out == Listing(names, aliases)
  {
    out := "";
    var k := 0;
    while k < |names|
      invariant 0 <= k <= |names|
      invariant out == Listing(names[..k], aliases)
    {
      assert names[..k + 1][..k] == names[..k];
      out := out + Definition(names[k], aliases[names[k]]);
      k := k + 1;
    }
    assert names[..|names|] == names;
  }

  /** The body of the argument loop of `cmd_alias`, on one argument. */
  method HandleArg(shell: Shell, arg: string, out: string, err: string, code: int)
      returns (out': string, err': string, code': int)
    modifies shell
    ensures State(shell.aliases, out', err', code') == ArgStep(State(old(shell.aliases), out, err, code), arg)
  {
    out', err', code' := out, err, code;
    var eq := Text.IndexOfChar(arg, '=');
    if eq >= 0 {
      var name := arg[..eq];
      var valid := IsValidAliasName(name);
      if !valid {
        err' := err + "alias: `" + name + "': invalid alias name\n";
        code' := 1;
      } else {
        var value := StripQuotes(arg[eq + 1..]);
        shell.aliases := shell.aliases[name := value];
      }
    } else if arg in shell.aliases {
      out' := out + Definition(arg, shell.aliases[arg]);
    } else {
      err' := err + "alias: " + arg + ": not found\n";
      code' := 1;
    }
  }

  /** `cmd_alias`. With no arguments it lists every alias in name order and changes nothing; otherwise
      the alias table and the reply are those of the arguments handled in turn. */
  method Alias(shell: Shell?, args: seq<string>) returns (r: Reply)
    modifies shell
    ensures shell == null ==> r == Reply(1, "", "alias: shell context not available\n")
    ensures shell != null && args == [] ==>
              shell.aliases == old(shell.aliases) && r == Reply(0, AllDefinitions(shell.aliases), "")
    ensures shell != null && args != [] ==>
              var e := ArgsEffect(State(old(shell.aliases), "", "", 0), args);
              shell.aliases == e.aliases && r == Reply(e.code, e.out, e.err)
  {
    if shell == null {
      return Reply(1, "", "alias: shell context not available\n");
    }
    if args == [] {
      if shell.aliases == map[] {
        ListingEmptyIff(shell.aliases);
        return Reply(0, "", "");
      }
      var names := StringOrder.SortedKeys(shell.aliases.Keys);
      var out := ListAliases(names, shell.aliases);
      return Reply(0, out, "");
    }
    ghost var start := State(shell.aliases, "", "", 0);
    var out, err, code := "", "", 0;
    var i := 0;
    while i < |args|
      invariant 0 <= i <= |args|
      invariant State(shell.aliases, out, err, code) == ArgsEffect(start, args[..i])
    {
      assert args[..i + 1][..i] == args[..i];
      out, err, code := HandleArg(shell, args[i], out, err, code);
      i := i + 1;
    }
    assert args[..|args|] == args;
    r := Reply(code, out, err);
  }

  /** Handling one list of arguments and then another is handling them all. */
  lemma {:induction false} ArgsEffectAppend(s: State, a: seq<string>, b: seq<string>)
    ensures ArgsEffect(s, a + b) == ArgsEffect(ArgsEffect(s, a), b)
    decreases |b|
  {
    if b == [] {
      assert a + b == a;
    } else {
      assert (a + b)[..|a + b| - 1] == a + b[..|b| - 1];
      ArgsEffectAppend(s, a, b[..|b| - 1]);
    }
  }

  /** The listing is empty exactly when no alias is defined. */
  lemma ListingEmptyIff(aliases: map<string, string>)
    ensures AllDefinitions(aliases) == "" <==> aliases == map[]
  {
    var names := StringOrder.SortedKeys(aliases.Keys);
    if aliases != map[] {
      var k :| k in aliases;
      assert k in names;
      assert names != [];
    } else {
      assert aliases.Keys == {};
    }
  }

  /** Defining an alias and then naming it shows the definition, with its quotes stripped. */
  lemma DefineThenShow(s: State, name: string, value: string)
    requires ValidAliasName(name)
    ensures ArgsEffect(s, [name + "=" + value, name]) ==
              s.(aliases := s.aliases[name := StripQuotes(value)],
                 out := s.out + Definition(name, StripQuotes(value)))
  {
    NoEqualsInName(name);
    var arg := name + "=" + value;
    assert arg[..|name|] == name && arg[|name|] == '=';
    assert '=' !in arg[..|name|];
    assert Text.IndexOfChar(arg, '=') == |name|;
    assert arg[|name| + 1..] == value;
    assert [arg, name][..1] == [arg];
    assert [arg][..0] == [];
    var s1 := s.(aliases := s.aliases[name := StripQuotes(value)]);
    assert ArgsEffect(s, [arg]) == ArgStep(s, arg) == s1;
    assert Text.IndexOfChar(name, '=') < 0;
    assert name in s1.aliases && s1.aliases[name] == StripQuotes(value);
  }

  /** An argument with `=` whose name is not valid leaves the table alone and sets the exit code to 1;
      the arguments after it are still handled. */
  lemma InvalidNameKeepsTable(s: State, before: seq<string>, arg: string, after: seq<string>)
    requires '=' in arg && !ValidAliasName(arg[..Text.IndexOfChar(arg, '=')])
    ensures ArgsEffect(s, before + [arg]).aliases == ArgsEffect(s, before).aliases
    ensures ArgsEffect(s, before + [arg]).code == 1
    ensures ArgsEffect(s, before + [arg] + after) == ArgsEffect(ArgsEffect(s, before + [arg]), after)
  {
    assert (before + [arg])[..|before|] == before;
    ArgsEffectAppend(s, before + [arg], after);
  }

  /** Starting from a fresh reply, the exit code is 0 or 1, and it is 1 exactly when something was
      written to standard error. */
  lemma {:induction false} CodeMatchesErrors(aliases: map<string, string>, args: seq<string>)
    ensures var e := ArgsEffect(State(aliases, "", "", 0), args);
            (e.code == 0 || e.code == 1) && (e.code == 1 <==> e.err != "")
    decreases |args|
  {
    if args != [] {
      CodeMatchesErrors(aliases, args[..|args| - 1]);
    }
  }

  /** Every alias the command defines has a valid name: the table gains no other key. */
  lemma {:induction false} OnlyValidNamesAdded(s: State, args: seq<string>)
    ensures forall k :: k in ArgsEffect(s, args).aliases ==> k in s.aliases || ValidAliasName(k)
    decreases |args|
  {
    if args != [] {
      OnlyValidNamesAdded(s, args[..|args| - 1]);
    }
  }
}
