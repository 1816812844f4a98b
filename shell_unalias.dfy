// The `unalias` built-in: removes aliases by name, or all of them with `-a`.
module ShellUnalias {
  import opened ShellCore
  import Text

  /** The alias table and what has been reported so far. */
  datatype State = State(aliases: map<string, string>, err: string, code: int)

  /** One argument of the removal loop. */
  function NameStep(s: State, name: string): State
  {
    if Text.StartsWith(name, "-") then
      s.(err := s.err + "unalias: " + name + ": invalid option\n", code := 1)
    else if name in s.aliases then
      s.(aliases := s.aliases - {name})
    else
      s.(err := s.err + "unalias: " + name + ": not found\n", code := 1)
  }

  /** The arguments handled from first to last. */
  function NamesEffect(s: State, names: seq<string>): State
    decreases |names|
  {
    if names == [] then s else NameStep(NamesEffect(s, names[..|names| - 1]), names[|names| - 1])
  }

  const USAGE := "unalias: usage: unalias [-a] name [name ...]\n"

  /** `cmd_unalias`. No shell gives 1; no arguments gives 2 and the usage line; `-a` anywhere clears the
      table and gives 0; otherwise the named aliases are removed one argument at a time. */
  method Unalias(shell: Shell?, args: seq<string>) returns (r: Reply)
    modifies shell
    ensures shell == null ==> r == Reply(1, "", "unalias: shell context not available\n")
    ensures shell != null && args == [] ==> r == Reply(2, "", USAGE) && shell.aliases == old(shell.aliases)
    ensures shell != null && "-a" in args ==> r == Reply(0, "", "") && shell.aliases == map[]
    ensures shell != null && args != [] && "-a" !in args ==>
              var e := NamesEffect(State(old(shell.aliases), "", 0), args);
              shell.aliases == e.aliases && r == Reply(e.code, "", e.err)
  {
    if shell == null {
      return Reply(1, "", "unalias: shell context not available\n");
    }
    if args == [] {
      return Reply(2, "", USAGE);
    }
    if "-a" in args {
      shell.aliases := map[];
      return Reply(0, "", "");
    }
    ghost var start := State(shell.aliases, "", 0);
    var err, code := "", 0;
    var i := 0;
    while i < |args|
      invariant 0 <= i <= |args|
      invariant State(shell.aliases, err, code) == NamesEffect(start, args[..i])
    {
      assert args[..i + 1][..i] == args[..i];
      var name := args[i];
      if Text.StartsWith(name, "-") {
        err := err + "unalias: " + name + ": invalid option\n";
        code := 1;
      } else if name in shell.aliases {
        shell.aliases := shell.aliases - {name};
      } else {
        err := err + "unalias: " + name + ": not found\n";
        code := 1;
      }
      i := i + 1;
    }
    assert args[..|args|] == args;
    r := Reply(code, "", err);
  }

  /** An alias survives the arguments unless one of them names it; an argument starting with `-` never
      removes anything. No other alias changes and none is added. */
  lemma {:induction false} SurvivorsAreUnnamed(s: State, names: seq<string>)
    ensures NamesEffect(s, names).aliases ==
              map k | k in s.aliases && (k !in names || Text.StartsWith(k, "-")) :: s.aliases[k]
    decreases |names|
  {
    if names != [] {
      var init := names[..|names| - 1];
      var last := names[|names| - 1];
      SurvivorsAreUnnamed(s, init);
      assert forall k :: k in names <==> k in init || k == last;
    }
  }

  /** The exit code is 0 exactly when every argument is a name (not an option) of an alias that is
      still there when its turn comes: defined at the start and not named earlier. */
  lemma {:induction false} SucceedsIff(aliases: map<string, string>, names: seq<string>)
    ensures var e := NamesEffect(State(aliases, "", 0), names);
            (e.code == 0 || e.code == 1) && (e.code == 1 <==> e.err != "")
    ensures NamesEffect(State(aliases, "", 0), names).code == 0 <==>
              forall i :: 0 <= i < |names| ==>
                !Text.StartsWith(names[i], "-") && names[i] in aliases && names[i] !in names[..i]
    decreases |names|
  {
    if names != [] {
      var init := names[..|names| - 1];
      var last := names[|names| - 1];
      SucceedsIff(aliases, init);
      SurvivorsAreUnnamed(State(aliases, "", 0), init);
      assert forall i :: 0 <= i < |init| ==> names[i] == init[i] && names[..i] == init[..i];
      assert names[..|names| - 1] == init;
    }
  }
}
