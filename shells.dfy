/**
 * The shells the watcher can run a command in, with the name each one is
 * written as (`Display`) and the parse of a name back to a shell
 * (`From<&str>`), which falls back to Bash for any other string.
 */
module Shells {

  datatype Shell = Bash | Zsh | Sh | Fish | Cmd | Powershell | Pwsh

  /** The `#[default]` variant. */
  const DefaultShell: Shell := Bash

  /** The seven names `Parse` recognises. */
  const KnownNames: set<string> := {"bash", "zsh", "sh", "fish", "cmd", "powershell", "pwsh"}

  /** `Display for Shell`: the shell's lower-case name, also the program spawned. */
  function Name(shell: Shell): (r: string)
    ensures r in KnownNames
  {
    match shell
    case Bash => "bash"
    case Zsh => "zsh"
    case Sh => "sh"
    case Fish => "fish"
    case Cmd => "cmd"
    case Powershell => "powershell"
    case Pwsh => "pwsh"
  }

  /** `From<&str> for Shell`: exact, case-sensitive match; anything else is Bash. */
  function Parse(value: string): (r: Shell)
    ensures value !in KnownNames ==> r == DefaultShell
    ensures r != DefaultShell ==> Name(r) == value
  {
    match value
    case "bash" => Bash
    case "zsh" => Zsh
    case "sh" => Sh
    case "fish" => Fish
    case "cmd" => Cmd
    case "powershell" => Powershell
    case "pwsh" => Pwsh
    case _ => Bash
  }

  /** Parsing the displayed name of a shell gives that shell back. */
  lemma ParseName(shell: Shell)
    ensures Parse(Name(shell)) == shell
  {
  }

  /** Every known name is the display name of exactly the shell it parses to. */
  lemma NameParse(value: string)
    requires value in KnownNames
    ensures Name(Parse(value)) == value
  {
  }

  /** Distinct shells have distinct names. */
  lemma NameInjective(a: Shell, b: Shell)
    requires Name(a) == Name(b)
    ensures a == b
  {
    ParseName(a);
    ParseName(b);
  }

  /**
   * A string parses to Bash exactly when it is "bash" or no known name:
   * Bash is both the default variant and the fallback of the parse.
   */
  lemma ParseFallback(value: string)
    ensures Parse(value) == DefaultShell <==> value == Name(DefaultShell) || value !in KnownNames
  {
  }
}
