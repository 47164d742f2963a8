/**
 * Concrete runs of the supervised loop: the handlers of the task's tests
 * (AlwaysPassesHandler, AlwaysFailsHandler), a handler that fires after some
 * launches only, and a terminating monitor, against scripted commands.
 */
module Scenarios {
  import opened Wrappers
  import opened Handlers
  import opened Supervision
  import opened SupervisionProofs

  const Passes := Handler("AlwaysPassesHandler", false, false)
  const Fails := Handler("AlwaysFailsHandler", false, false)
  /** A handler whose check is truthy after some launches only: the script decides which. */
  const Flaky := Handler("FlakyHandler", false, false)
  const Stalled := Handler("StalledMonitor", true, true)
  const Fix := "ExampleCorrection"

  /** The class defaults: monitoring on, monitor_freq 30, corrections written to file. */
  function Settings(hs: seq<Handler>, maxCorrections: int): (cfg: Config)
  {
    Config(hs, maxCorrections, true, 30, true)
  }

  /** A command that runs for `polls` polls and exits with `code`; no handler ever reports an error. */
  function Quiet(polls: nat, code: int): (a: Attempt)
  {
    Attempt(polls, code, (n: nat) => (h: Handler) => false, (n: nat) => (h: Handler) => None,
            (h: Handler) => false, (h: Handler) => None)
  }

  /** A command exiting with 0 after which handler `culprit` reports an error and corrects it. */
  function FaultAfterExit(culprit: Handler): (a: Attempt)
  {
    Quiet(0, 0).(checkAfter := (h: Handler) => h == culprit,
                 correctAfter := (h: Handler) => if h == culprit then Some(Fix) else None)
  }

  /** A long command whose terminating monitor fires from poll `from` on; the fault is visible after the kill iff `visibleAfter`. */
  function StallsFrom(from: nat, visibleAfter: bool): (a: Attempt)
  {
    Attempt(100, 0, (n: nat) => (h: Handler) => n >= from && h == Stalled,
            (n: nat) => (h: Handler) => Some(Fix),
            (h: Handler) => visibleAfter && h == Stalled,
            (h: Handler) => Some(Fix))
  }

  /** No handlers and a zero exit: one launch, an empty ledger. */
  lemma NoHandlersCleanExit()
    ensures Supervised(Settings([], 5), [Quiet(3, 0)]) == Trace(Ok([]), 1, Some([]))
  {
    QuietRunSucceedsFirstTime(Settings([], 5), [Quiet(3, 0)]);
  }

  /** A failing command that no handler explains raises NonZeroExitError at once, before anything is written. */
  lemma FailingCommandRaises()
    ensures Supervised(Settings([Passes], 5), [Quiet(0, 127), Quiet(0, 0)]) == Trace(NonZeroExit(127, []), 1, None)
  {
  }

  /** A fault seen after attempts 1 and 2 but not 3: success after three launches with two rows. */
  lemma TwoFaultsThenSuccess()
    ensures Supervised(Settings([Passes, Flaky], 5), [FaultAfterExit(Flaky), FaultAfterExit(Flaky), Quiet(0, 0)]).outcome
            == Ok([Correction(Flaky.name, Fix), Correction(Flaky.name, Fix)])
    ensures Supervised(Settings([Passes, Flaky], 5), [FaultAfterExit(Flaky), FaultAfterExit(Flaky), Quiet(0, 0)]).attempts == 3
  {
    var cfg := Settings([Passes, Flaky], 5);
    var row := Correction(Flaky.name, Fix);
    var a := FaultAfterExit(Flaky);
    assert [Passes, Flaky][1..] == [Flaky];
    assert Monitors([Passes, Flaky]) == [];
    assert Passes.name != Flaky.name;
    assert !a.checkAfter(Passes) && a.checkAfter(Flaky);
    assert FirstMatch([Passes, Flaky], a.checkAfter) == Some(1);
    assert Attempted(cfg, FaultAfterExit(Flaky), []) == Continue([row], true);
    assert Attempted(cfg, FaultAfterExit(Flaky), [row]) == Continue([row, row], true);
    QuietAttemptIsClean(cfg, Quiet(0, 0), [row, row]);
    var script := [a, a, Quiet(0, 0)];
    assert Loop(cfg, script, 2, [row, row], Some([row, row])) == Trace(Ok([row, row]), 3, Some([row, row]));
    assert Loop(cfg, script, 1, [row], Some([row])) == Loop(cfg, script, 2, [row, row], Some([row, row]));
    assert Supervised(cfg, script) == Loop(cfg, script, 1, [row], Some([row]));
  }

  /**
   * A terminating monitor that fires at the first monitor cycle (poll 30)
   * kills the command; the fault is corrected after the exit, and the second
   * launch is clean.
   */
  lemma TerminatingMonitorKillsThenCorrects()
    ensures Monitoring(Settings([Stalled], 5), StallsFrom(1, true)) == Killed(Stalled, 30)
    ensures Supervised(Settings([Stalled], 5), [StallsFrom(1, true), Quiet(0, 0)]) ==
            Trace(Ok([Correction(Stalled.name, Fix)]), 2, Some([Correction(Stalled.name, Fix)]))
  {
    var cfg := Settings([Stalled], 5);
    var a := StallsFrom(1, true);
    assert Monitors([Stalled]) == [Stalled];
    MonitorEndsAtFirstAlarm([Stalled], 30, a, 0);
    var e := MonitorFrom([Stalled], 30, a, 0);
    assert FirstMatch([Stalled], a.checkAt(30)) == Some(0);
    assert e.poll == 30;
    var row := Correction(Stalled.name, Fix);
    assert Attempted(cfg, a, []) == Continue([row], true);
    QuietAttemptIsClean(cfg, Quiet(0, 0), [row]);
    assert Loop(cfg, [a, Quiet(0, 0)], 1, [row], Some([row])) == Trace(Ok([row]), 2, Some([row]));
  }

  /** AlwaysFailsHandler is corrected after every launch. */
  lemma AlwaysFailsEveryAttempt(maxCorrections: int)
    ensures AlwaysCorrected(Settings([Fails], maxCorrections), FaultAfterExit(Fails))
  {
    var cfg := Settings([Fails], maxCorrections);
    forall l: seq<Correction>
      ensures Attempted(cfg, FaultAfterExit(Fails), l) == Continue(l + [Correction(Fails.name, Fix)], true)
    {
    }
  }

  /**
   * A handler that reports an error after every launch, with the default
   * budget of 5: six launches, six rows, MaxCorrectionsError.
   */
  lemma AlwaysFailingHandlerExhaustsBudget()
    ensures var t := Supervised(Settings([Fails], 5), seq(10, _ => FaultAfterExit(Fails)));
            t.outcome.MaxCorrections? && |t.outcome.corrections| == 6 && t.attempts == 6
  {
    AlwaysFailsEveryAttempt(5);
    PersistentFaultExhaustsBudget(Settings([Fails], 5), seq(10, _ => FaultAfterExit(Fails)));
  }

  /**
   * The budget check as written: a handler that fires after the first launch
   * only, so one correction and then a clean launch, with max_corrections = 1
   * raises MaxCorrectionsError although nothing was exceeded; the intended
   * check returns the ledger.
   */
  lemma CleanFinishAtBudgetRaises()
    ensures Supervised(Settings([Flaky], 1), [FaultAfterExit(Flaky), Quiet(0, 0)]).outcome
            == MaxCorrections([Correction(Flaky.name, Fix)])
    ensures SupervisedIntended(Settings([Flaky], 1), [FaultAfterExit(Flaky), Quiet(0, 0)]).outcome
            == Ok([Correction(Flaky.name, Fix)])
  {
    var cfg := Settings([Flaky], 1);
    var row := Correction(Flaky.name, Fix);
    assert Attempted(cfg, FaultAfterExit(Flaky), []) == Continue([row], true);
    QuietAttemptIsClean(cfg, Quiet(0, 0), [row]);
    assert Loop(cfg, [FaultAfterExit(Flaky), Quiet(0, 0)], 1, [row], Some([row])).outcome == MaxCorrections([row]);
  }

  lemma {:induction false} EndlessRelaunchLoop(s: seq<Attempt>, k: nat)
    requires k <= |s|
    requires forall j :: 0 <= j < |s| ==> s[j] == StallsFrom(1, false)
    ensures Loop(Settings([Stalled], 5), s, k, [], if k == 0 then None else Some([])) == Trace(ScriptExhausted([]), |s|, if |s| == 0 then None else Some([]))
    decreases |s| - k
  {
    var cfg := Settings([Stalled], 5);
    if k < |s| {
      var a := StallsFrom(1, false);
      assert Monitors([Stalled]) == [Stalled];
      MonitorEndsAtFirstAlarm([Stalled], 30, a, 0);
      assert FirstMatch([Stalled], a.checkAt(30)) == Some(0);
      KillWithoutPostMatchMakesNoProgress(cfg, a, []);
      EndlessRelaunchLoop(s, k + 1);
    }
  }

  /**
   * A terminating monitor whose fault is no longer visible after the kill
   * makes the loop relaunch the command without ever adding a row: however
   * many launches the environment allows, all are used up.
   */
  lemma EndlessRelaunch(n: nat)
    ensures Supervised(Settings([Stalled], 5), seq(n, _ => StallsFrom(1, false))) ==
            Trace(ScriptExhausted([]), n, if n == 0 then None else Some([]))
  {
    EndlessRelaunchLoop(seq(n, _ => StallsFrom(1, false)), 0);
  }
}
