/**
 * The configuration part of the Cosa command shell: the command table,
 * the prompt, local echo, the first-run flag and the privilege level, as
 * its inline members set and read them.  Parsing and running commands is
 * not part of this model.
 *
 * Pointers become values: the command table is an abstract identifier and
 * the prompt is either the shell's default prompt or a given string, so a
 * null prompt argument is `None`.
 */
module Shell {
  import opened Options

  /** Command privilege levels, with the enum values the ordering test compares. */
  datatype Level = Guest | User | Admin

  function Rank(l: Level): (r: nat)
    ensures r <= 2
    ensures l == Guest <==> r == 0
    ensures l == Admin <==> r == 2
  {
    match l
    case Guest => 0
    case User => 1
    case Admin => 2
  }

  /** The error codes of command actions and of the shell run loop. */
  const IllegalCommand: int := -1
  const PermissionDenied: int := -2
  const UnknownCommand: int := -3
  const UnknownOption: int := -4
  const IllegalOption: int := -5

  /** The five error codes are negative and pairwise different, so none is taken for success and each can be told apart. */
  lemma ErrorCodesDistinct()
    ensures var codes := [IllegalCommand, PermissionDenied, UnknownCommand, UnknownOption, IllegalOption];
      (forall i | 0 <= i < |codes| :: codes[i] < 0)
      && (forall i, j | 0 <= i < j < |codes| :: codes[i] != codes[j])
  {
  }

  /** A command table in program memory, identified abstractly. */
  type TableId = nat

  /** The prompt the shell writes: its own default or a string it was given. */
  datatype Prompt = DefaultPrompt | Given(text: string)

  datatype Shell = Shell(cmdc: bv8, cmdtab: TableId, prompt: Prompt, firstrun: bool, echo: bool, level: Level)

  /** A null prompt argument selects the default prompt; any other is kept as given. */
  function PromptOf(p: Option<string>): (r: Prompt)
    ensures p.None? <==> r == DefaultPrompt
    ensures p.Some? ==> r == Given(p.value)
  {
    if p.None? then DefaultPrompt else Given(p.value)
  }

  /** Shell(cmdc, cmdtab, prompt): a first run with echo on at the administrator level. */
  function New(cmdc: bv8, cmdtab: TableId, prompt: Option<string>): (s: Shell)
    ensures s.cmdc == cmdc && s.cmdtab == cmdtab && s.prompt == PromptOf(prompt)
    ensures s.firstrun && GetEcho(s) && GetPrivilege(s) == Admin
  {
    Shell(cmdc, cmdtab, PromptOf(prompt), true, true, Admin)
  }

  function SetEcho(s: Shell, mode: bool): (t: Shell)
    ensures GetEcho(t) == mode
    ensures t.(echo := s.echo) == s
  {
    s.(echo := mode)
  }

  function GetEcho(s: Shell): bool {
    s.echo
  }

  function SetPrompt(s: Shell, prompt: Option<string>): (t: Shell)
    ensures prompt.None? ==> GetPrompt(t) == DefaultPrompt
    ensures prompt.Some? ==> GetPrompt(t) == Given(prompt.value)
    ensures t.(prompt := s.prompt) == s
  {
    s.(prompt := PromptOf(prompt))
  }

  function GetPrompt(s: Shell): Prompt {
    s.prompt
  }

  function SetPrivilege(s: Shell, level: Level): (t: Shell)
    ensures GetPrivilege(t) == level
    ensures t.(level := s.level) == s
  {
    s.(level := level)
  }

  function GetPrivilege(s: Shell): Level {
    s.level
  }

  /** is_privileged(level): the current level is at or above the one asked for. */
  function IsPrivileged(s: Shell, level: Level): (r: bool)
    ensures s.level == Admin ==> r
    ensures level == Guest ==> r
    ensures s.level == Guest ==> (r <==> level == Guest)
    ensures r <==> Rank(s.level) >= Rank(level)
  {
    Rank(s.level) >= Rank(level)
  }

  /** A shell passing a check passes every lower one, and a shell set to a level passes exactly the checks up to that level. */
  lemma PrivilegeOrdered(s: Shell, l: Level, m: Level)
    ensures IsPrivileged(s, l) && Rank(m) <= Rank(l) ==> IsPrivileged(s, m)
    ensures IsPrivileged(SetPrivilege(s, l), m) <==> Rank(m) <= Rank(l)
  {
  }

  /** reset(): a new session; only the first-run flag changes. */
  function Reset(s: Shell): (t: Shell)
    ensures t.firstrun
    ensures t.(firstrun := s.firstrun) == s
  {
    s.(firstrun := true)
  }

  /** set_commands(cmdc, cmdtab, prompt): a new table and prompt; echo, level and the first-run flag are kept. */
  function SetCommands(s: Shell, cmdc: bv8, cmdtab: TableId, prompt: Option<string>): (t: Shell)
    ensures t.cmdc == cmdc && t.cmdtab == cmdtab && t.prompt == PromptOf(prompt)
    ensures t.echo == s.echo && t.level == s.level && t.firstrun == s.firstrun
  {
    s.(cmdc := cmdc, cmdtab := cmdtab, prompt := PromptOf(prompt))
  }

  /** set_commands on a freshly built shell gives the shell the constructor builds from the new arguments. */
  lemma SetCommandsLikeNew(cmdc: bv8, cmdtab: TableId, prompt: Option<string>, cmdc2: bv8, cmdtab2: TableId, prompt2: Option<string>)
    ensures SetCommands(New(cmdc, cmdtab, prompt), cmdc2, cmdtab2, prompt2) == New(cmdc2, cmdtab2, prompt2)
  {
  }
}
