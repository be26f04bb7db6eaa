/**
 * The command line `exec` hands to the process spawner: the shell's name as
 * the program, the inline-execution flag, and the user's command unchanged,
 * run in the resolved working directory. The spawn itself, the inherited
 * standard streams and the timing are outside the model.
 */
module Exec {
  import opened Shells

  /** A process the spawner is asked to start. */
  datatype Invocation = Invocation(program: string, args: seq<string>, cwd: string)

  /** The inline-execution flag: "/c" for the Windows command shell, "-c" for the rest. */
  function Flag(shell: Shell): (f: string) {
    match shell
    case Cmd => "/c"
    case _ => "-c"
  }

  /**
   * `Command::new(shell.to_string()).args([op, cmd]).current_dir(&cwd)`:
   * the program name tells which shell was asked for, the flag is "/c"
   * exactly for Cmd, the command is passed through as the last argument and
   * the child runs in the given directory.
   */
  function Command(shell: Shell, cmd: string, cwd: string): (inv: Invocation)
    ensures Parse(inv.program) == shell
    ensures |inv.args| == 2 && inv.args[|inv.args| - 1] == cmd
    ensures inv.args[0] == "/c" <==> shell == Cmd
    ensures inv.cwd == cwd
  {
    Invocation(Name(shell), [Flag(shell), cmd], cwd)
  }

  /** The whole argument vector, program name first. */
  function Argv(inv: Invocation): (argv: seq<string>) {
    [inv.program] + inv.args
  }

  /** The flag is "/c" exactly for Cmd and "-c" for the six other shells. */
  lemma FlagChoice(shell: Shell)
    ensures Flag(shell) == "/c" <==> shell == Cmd
    ensures Flag(shell) == "-c" <==> shell != Cmd
  {
  }

  /**
   * The spawned argv is the shell's name, its flag and the command, the
   * command passed through as the last argument whatever it contains, and
   * the child runs in the given directory.
   */
  lemma CommandLine(shell: Shell, cmd: string, cwd: string)
    ensures Argv(Command(shell, cmd, cwd)) == [Name(shell), Flag(shell), cmd]
    ensures Argv(Command(shell, cmd, cwd))[2] == cmd
    ensures Command(shell, cmd, cwd).cwd == cwd
  {
  }
}
