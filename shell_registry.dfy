// The built-in command registry: a dictionary from command names to the
// functions that run them. Command functions are opaque here; a value of
// `CommandFn` stands for the identity of one function object.
module ShellRegistry {
  import opened Wrappers

  type CommandFn = nat

  /** The registry after registering `f` under each of `names`, in order. */
  function Registered(m: map<string, CommandFn>, names: seq<string>, f: CommandFn): map<string, CommandFn>
    decreases |names|
  {
    if names == [] then m else Registered(m, names[..|names| - 1], f)[names[|names| - 1] := f]
  }

  /** Every given name maps to the function; every other name keeps what it had. */
  lemma {:induction false} RegisteredLookup(m: map<string, CommandFn>, names: seq<string>, f: CommandFn, k: string)
    ensures k in names ==> k in Registered(m, names, f) && Registered(m, names, f)[k] == f
    ensures k !in names ==> (k in Registered(m, names, f) <==> k in m)
    ensures k !in names && k in m ==> Registered(m, names, f)[k] == m[k]
    decreases |names|
  {
    if names != [] {
      var init := names[..|names| - 1];
      assert k in names <==> k in init || k == names[|names| - 1];
      RegisteredLookup(m, init, f, k);
    }
  }

  /** A later registration of a name overwrites an earlier one. */
  lemma LaterRegistrationWins(m: map<string, CommandFn>, first: seq<string>, f: CommandFn,
                              second: seq<string>, g: CommandFn, k: string)
    requires k in first && k in second
    ensures var r := Registered(Registered(m, first, f), second, g); k in r && r[k] == g
  {
    RegisteredLookup(Registered(m, first, f), second, g, k);
  }

  /** The registry. `BUILTINS` is the same dictionary, so readers of it see exactly these keys. */
  class Registry {
    var commands: map<string, CommandFn>

    constructor()
      ensures commands == map[]
    {
      commands := map[];
    }

    /** `register_command(*names)` applied to `f`: every name maps to `f`, and the decorator
        returns `f` itself. */
    method RegisterCommand(names: seq<string>, f: CommandFn) returns (g: CommandFn)
      modifies this
      ensures g == f
      ensures commands == Registered(old(commands), names, f)
    {
      var k := 0;
      while k < |names|
        invariant 0 <= k <= |names|
        invariant commands == Registered(old(commands), names[..k], f)
      {
        assert names[..k + 1][..k] == names[..k];
        commands := commands[names[k] := f];
        k := k + 1;
      }
      assert names[..|names|] == names;
      g := f;
    }

    /** `get_builtin`: the registered function, or `None` for an unknown name. */
    function GetBuiltin(command: string): (r: Option<CommandFn>)
      reads this
      ensures r.Some? <==> command in commands
      ensures r.Some? ==> r.value == commands[command]
    {
      if command in commands then Some(commands[command]) else None
    }
  }
}
