// The state the shell's built-in commands share: the interactive shell's
// alias table and variables, a process's variable table, plus the reply every built-in
// gives (its exit code and what it wrote to standard output and standard
// error, as text).
module ShellCore {

  /** The interactive shell, as far as the built-ins modelled here touch it: its alias table and its
      variables. */
  class Shell {
    var aliases: map<string, string>
    var env: map<string, string>

    constructor(aliases: map<string, string>, env: map<string, string>)
      ensures this.aliases == aliases && this.env == env
    {
      this.aliases := aliases;
      this.env := env;
    }
  }

  /** A process's environment (`process.env`), a dictionary of shell variables. */
  class Environment {
    var vars: map<string, string>

    constructor(vars: map<string, string>)
      ensures this.vars == vars
    {
      this.vars := vars;
    }
  }

  /** A built-in's exit code and the text it wrote to standard output and standard error. */
  datatype Reply = Reply(code: int, out: string, err: string)
}
