/** What the core sees of a child process (the real `rustc`, a real build
    script) and of its own termination. Spawning and exiting are not
    modelled; their results are values. */
module Process {

  /** `ExitStatus`: an exit code, or killed by a signal (`code()` is `None`). */
  datatype ExitStatus = Exited(code: int) | Signalled

  /** `Command::status`: the child could not be started, or ran to a status. */
  datatype Spawn = FailedToStart | Ran(status: ExitStatus)

  /** How the wrapper process ends: `main` returned `Ok(())`, it called
      `std::process::exit(code)`, or `main` returned an error. */
  datatype Termination = Completed | ExitWith(code: int) | Failed(msg: string)

  predicate Succeeded(s: Spawn) {
    s == Ran(Exited(0))
  }

  /** The tail of `run_real_rustc` and of the build-script runners: keep going
      on success, exit with the child's code on failure, fail when there is
      no code. */
  function ChildResult(s: Spawn, startMsg: string, signalMsg: string): (t: Termination)
    ensures t.Completed? <==> Succeeded(s)
    ensures t.ExitWith? <==> s.Ran? && s.status.Exited? && s.status.code != 0
    ensures t.ExitWith? ==> t.code == s.status.code
  {
    match s
    case FailedToStart => Failed(startMsg)
    case Ran(Signalled) => Failed(signalMsg)
    case Ran(Exited(code)) => if code == 0 then Completed else ExitWith(code)
  }
}
