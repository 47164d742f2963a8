/**
 * The supervised retry loop of SupervisedStagedShellTask.execute, as pure
 * functions over a scripted environment. The class in module ShellTask runs
 * the same loop imperatively and is proved equal to `Supervised`.
 */
module Supervision {
  import opened Wrappers
  import opened Handlers

  /** The return code Python reports for a process group killed with SIGKILL. */
  const KilledReturnCode: int := -9

  /**
   * What one launch of the command does, as the supervisor observes it.
   * `polls` is how many polls see the process still running (so the poll
   * numbered polls + 1 sees it exited); `exitCode` is its return code when it
   * ends on its own. `checkAt(n)(h)` / `correctAt(n)(h)` are what handler h's
   * check / correct return during the monitor cycle at poll n, and
   * `checkAfter(h)` / `correctAfter(h)` what they return in the pass after the
   * exit. A correct result of None stands for correct raising an exception.
   */
  datatype Attempt = Attempt(
    polls: nat,
    exitCode: int,
    checkAt: nat -> Handler -> bool,
    correctAt: nat -> Handler -> Option<string>,
    checkAfter: Handler -> bool,
    correctAfter: Handler -> Option<string>)

  /** The task's settings that `execute` reads. */
  datatype Config = Config(
    handlers: seq<Handler>,
    maxCorrections: int,
    monitor: bool,
    monitorFreq: int,
    saveCorrections: bool)

  /** How the monitoring of one attempt ended. */
  datatype MonitorEnd =
    | Exited                                          // a poll saw the process finished
    | Killed(handler: Handler, poll: nat)                  // a terminating monitor fired; process group killed
    | Fixed(handler: Handler, poll: nat, entry: Correction) // a non-terminating monitor fired and was corrected
    | Aborted(handler: Handler, poll: nat)                 // that monitor's correct raised

  /** How `execute` ends. Every kind carries the in-memory ledger at that point. */
  datatype Outcome =
    | Ok(corrections: seq<Correction>)
    | NonZeroExit(returnCode: int, corrections: seq<Correction>)     // NonZeroExitError
    | MaxCorrections(corrections: seq<Correction>)                  // MaxCorrectionsError
    | HandlerAborted(handler: string, corrections: seq<Correction>) // an exception from correct
    | ScriptExhausted(corrections: seq<Correction>)                 // the script has no further attempt

  /** The end of one attempt: raise, or go on with the new ledger and has_error. */
  datatype Step = Continue(ledger: seq<Correction>, hasError: bool) | Stop(outcome: Outcome)

  /** The outcome, how many commands were launched, and the ledger last written to the CSV file. */
  datatype Trace = Trace(outcome: Outcome, attempts: nat, flushed: Option<seq<Correction>>)

  /**
   * The monitor loop from poll counter n on: poll, stop if the process has
   * exited, and on every monitorFreq-th poll let the first monitor whose check
   * is truthy end the monitoring.
   */
  function MonitorFrom(ms: seq<Handler>, freq: int, a: Attempt, n: nat): (e: MonitorEnd)
    requires freq != 0 && n <= a.polls
    ensures !e.Exited? ==> n < e.poll <= a.polls && e.poll % freq == 0
    ensures !e.Exited? ==> e.handler in ms && a.checkAt(e.poll)(e.handler)
    ensures e.Killed? <==> !e.Exited? && e.handler.isTerminating
    ensures e.Aborted? ==> a.correctAt(e.poll)(e.handler).None?
    ensures e.Fixed? ==> e.entry.handler == e.handler.name && a.correctAt(e.poll)(e.handler) == Some(e.entry.applied)
    decreases a.polls - n
  {
    var n' := n + 1;
    if n' > a.polls then Exited
    else if n' % freq != 0 then MonitorFrom(ms, freq, a, n')
    else match FirstMatch(ms, a.checkAt(n'))
      case None => MonitorFrom(ms, freq, a, n')
      case Some(i) =>
        var h := ms[i];
        if h.isTerminating then Killed(h, n')
        else match a.correctAt(n')(h)
          case None => Aborted(h, n')
          case Some(c) => Fixed(h, n', Correction(h.name, c))
  }

  /** Monitoring runs only when it is enabled and at least one handler is a monitor. */
  function Monitoring(cfg: Config, a: Attempt): (e: MonitorEnd)
    requires cfg.monitorFreq != 0
    ensures !cfg.monitor || Monitors(cfg.handlers) == [] ==> e == Exited
    ensures !e.Exited? ==> e.handler in Monitors(cfg.handlers) && a.checkAt(e.poll)(e.handler)
    ensures !e.Exited? ==> 0 < e.poll <= a.polls && e.poll % cfg.monitorFreq == 0
  {
    var ms := Monitors(cfg.handlers);
    if cfg.monitor && ms != [] then MonitorFrom(ms, cfg.monitorFreq, a, 0) else Exited
  }

  /** The return code seen after the monitoring ended. */
  function ReturnCode(m: MonitorEnd, a: Attempt): (rc: int)
    ensures m.Killed? ==> rc != 0
    ensures rc == 0 <==> !m.Killed? && a.exitCode == 0
  {
    if m.Killed? then KilledReturnCode else a.exitCode
  }

  /**
   * One pass of the main loop body: monitoring, the non-zero-exit check, and
   * the post-exit pass over the full handler list in which only the first
   * handler whose check is truthy is corrected.
   */
  function Attempted(cfg: Config, a: Attempt, ledger: seq<Correction>): (st: Step)
    requires cfg.monitorFreq != 0
    ensures st.Stop? ==> st.outcome.NonZeroExit? || st.outcome.HandlerAborted?
    ensures st.Continue? && !st.hasError ==> st.ledger == ledger
  {
    var m := Monitoring(cfg, a);
    if m.Aborted? then Stop(HandlerAborted(m.handler.name, ledger))
    else
      var hasError := !m.Exited?;
      var ledger1 := if m.Fixed? then ledger + [m.entry] else ledger;
      var rc := ReturnCode(m, a);
      if rc != 0 && !hasError then Stop(NonZeroExit(rc, ledger1))
      else match FirstMatch(cfg.handlers, a.checkAfter)
        case None => Continue(ledger1, hasError)
        case Some(i) =>
          var h := cfg.handlers[i];
          match a.correctAfter(h)
          case None => Stop(HandlerAborted(h.name, ledger1))
          case Some(c) => Continue(ledger1 + [Correction(h.name, c)], true)
  }

  /** The check made once the main loop is left, as written in the source. */
  function Budget(ledger: seq<Correction>, maxCorrections: int): (o: Outcome)
    ensures o.Ok? || o.MaxCorrections?
    ensures o.corrections == ledger
    ensures o.Ok? <==> |ledger| < maxCorrections
  {
    if |ledger| >= maxCorrections then MaxCorrections(ledger) else Ok(ledger)
  }

  /**
   * The main loop from attempt k on, for any attempt step: `steps(k)(ledger)`
   * is what attempt k does to the ledger, n is the number of launches the
   * environment script provides, and `flushed` is the ledger last written to
   * the corrections file.
   */
  function Drive(steps: nat -> seq<Correction> -> Step, n: nat, maxCorrections: int, save: bool,
                 k: nat, ledger: seq<Correction>, flushed: Option<seq<Correction>>): (t: Trace)
    requires k <= n
    ensures k <= t.attempts <= n
    decreases n - k
  {
    if |ledger| > maxCorrections then Trace(Budget(ledger, maxCorrections), k, flushed)
    else if k == n then Trace(ScriptExhausted(ledger), k, flushed)
    else match steps(k)(ledger)
      case Stop(o) => Trace(o, k + 1, flushed)
      case Continue(l, hasError) =>
        var f := if save then Some(l) else flushed;
        if hasError then Drive(steps, n, maxCorrections, save, k + 1, l, f)
        else Trace(Budget(l, maxCorrections), k + 1, f)
  }

  /** Attempt i of the script, as a step of the main loop. */
  function AttemptsOf(cfg: Config, script: seq<Attempt>): (steps: nat -> seq<Correction> -> Step)
    requires cfg.monitorFreq != 0
  {
    (i: nat) => (l: seq<Correction>) =>
      if i < |script| then Attempted(cfg, script[i], l) else Stop(ScriptExhausted(l))
  }

  /** The main loop of `execute` from attempt k on, over the environment script. */
  function Loop(cfg: Config, script: seq<Attempt>, k: nat, ledger: seq<Correction>,
                flushed: Option<seq<Correction>>): (t: Trace)
    requires cfg.monitorFreq != 0 && k <= |script|
    ensures k <= t.attempts <= |script|
  {
    Drive(AttemptsOf(cfg, script), |script|, cfg.maxCorrections, cfg.saveCorrections, k, ledger, flushed)
  }

  /** `execute` started with an empty ledger. */
  function Supervised(cfg: Config, script: seq<Attempt>): (t: Trace)
    requires cfg.monitorFreq != 0
    ensures t.attempts <= |script|
  {
    Loop(cfg, script, 0, [], None)
  }
}
