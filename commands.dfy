/**
 * The command executor: `execCmd` maps a command string to one actuator call
 * and the new value of the lock flag.
 */
module Commands {
  import opened Wrappers
  import Series
  import opened CarState

  /** The two commands the executor recognises. */
  datatype Command = LockCommand | UnlockCommand

  /** The string a command arrives as. */
  function CommandName(c: Command): string
  {
    match c
    case LockCommand => "lock"
    case UnlockCommand => "unlock"
  }

  /** Recognises a command string; every other string is unrecognised. */
  function ParseCommand(command: string): (c: Option<Command>)
    ensures c.Some? ==> CommandName(c.value) == command
    ensures c.None? ==> forall k :: CommandName(k) != command
  {
    if command == "lock" then Some(LockCommand)
    else if command == "unlock" then Some(UnlockCommand)
    else None
  }

  /** The lock flag a command leaves behind. */
  function LockAfter(c: Command): Lock
  {
    match c
    case LockCommand => Locked
    case UnlockCommand => Unlocked
  }

  /** The keyfob operation a command triggers. */
  function Actuator(c: Command): Call
  {
    match c
    case LockCommand => KeyfobLock
    case UnlockCommand => KeyfobUnlock
  }

  /**
   * `execCmd(command)`. A recognised command calls its actuator once and then
   * sets the lock flag. Any other command reaches a log line that reads the
   * undeclared variable `msg`, so the call throws before anything happens.
   */
  function ExecCmd(s: Car, command: string): (e: Effect)
    ensures e.after == s.(locked := e.after.locked)
    ensures command == "lock" ==>
              e.after.locked == Locked && e.calls == [KeyfobLock] && e.outcome == Pass
    ensures command == "unlock" ==>
              e.after.locked == Unlocked && e.calls == [KeyfobUnlock] && e.outcome == Pass
    ensures command != "lock" && command != "unlock" ==>
              e.after == s && e.calls == [] && e.outcome == Fail(MsgNotDefinedError)
  {
    match ParseCommand(command)
    case Some(c) => Series.Step(s.(locked := LockAfter(c)), [Actuator(c)], Pass)
    case None => Series.Step(s, [], Fail(MsgNotDefinedError))
  }

  /**
   * The state and the calls after `execCmd` has been invoked with each of the
   * commands in turn (a throwing invocation changes nothing).
   */
  function ExecCmds(s: Car, commands: seq<string>): (Car, seq<Call>)
    decreases |commands|
  {
    if commands == [] then (s, [])
    else
      var prev := ExecCmds(s, commands[..|commands| - 1]);
      var e := ExecCmd(prev.0, commands[|commands| - 1]);
      (e.after, prev.1 + e.calls)
  }

  /** The last recognised command in a list, if any. */
  function LastCommand(commands: seq<string>): Option<Command>
    decreases |commands|
  {
    if commands == [] then None
    else match ParseCommand(commands[|commands| - 1])
      case Some(c) => Some(c)
      case None => LastCommand(commands[..|commands| - 1])
  }

  /**
   * After any sequence of commands the lock flag is the one the last
   * recognised command set (or the old one if there was none), nothing else
   * has changed, and the keyfob was called once per "lock" and once per
   * "unlock", and never otherwise.
   */
  lemma {:induction false} ExecCmdsFollowsLastCommand(s: Car, commands: seq<string>)
    ensures var (t, calls) := ExecCmds(s, commands);
            t == s.(locked := match LastCommand(commands)
                              case None => s.locked
                              case Some(c) => LockAfter(c))
            && Count(calls, KeyfobLock) == multiset(commands)["lock"]
            && Count(calls, KeyfobUnlock) == multiset(commands)["unlock"]
            && |calls| == multiset(commands)["lock"] + multiset(commands)["unlock"]
    decreases |commands|
  {
    if commands != [] {
      var init, last := commands[..|commands| - 1], commands[|commands| - 1];
      assert commands == init + [last];
      ExecCmdsFollowsLastCommand(s, init);
      var prev := ExecCmds(s, init);
      var e := ExecCmd(prev.0, last);
      assert multiset(commands) == multiset(init) + multiset{last};
      assert multiset(prev.1 + e.calls) == multiset(prev.1) + multiset(e.calls);
    }
  }
}
