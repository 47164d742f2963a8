/**
 * Properties of the supervised retry loop: how monitoring ends, what one
 * attempt may append to the ledger, when a non-zero exit is raised, and how
 * the correction budget ends the loop.
 */
module SupervisionProofs {
  import opened Wrappers
  import opened Handlers
  import opened Supervision

  // ---------------------------------------------------------------- monitoring

  /**
   * The monitor loop ends at the first monitor cycle (a poll numbered by a
   * multiple of monitorFreq, while the process still runs) at which some
   * monitor's check is truthy, and that cycle's first such monitor decides:
   * a terminating one kills the process, any other one is corrected. With no
   * such cycle the loop ends because a poll saw the process exit.
   */
  lemma MonitorEndsAtFirstAlarm(ms: seq<Handler>, freq: int, a: Attempt, n: nat)
    requires freq != 0 && n <= a.polls
    ensures var e := MonitorFrom(ms, freq, a, n);
      && (e.Exited? ==> forall m :: n < m <= a.polls && m % freq == 0 ==> FirstMatch(ms, a.checkAt(m)).None?)
      && (!e.Exited? ==>
            && n < e.poll <= a.polls && e.poll % freq == 0
            && (forall m :: n < m < e.poll && m % freq == 0 ==> FirstMatch(ms, a.checkAt(m)).None?)
            && FirstMatching(ms, a.checkAt(e.poll)) == Some(e.handler)
            && (e.Killed? <==> e.handler.isTerminating)
            && (e.Fixed? ==> a.correctAt(e.poll)(e.handler) == Some(e.entry.applied)
                             && e.entry.handler == e.handler.name)
            && (e.Aborted? ==> a.correctAt(e.poll)(e.handler).None?))
  {
    MonitorEndsAtFirstAlarmPoll(ms, freq, a, n);
    MonitorEndsWithAlarmingHandler(ms, freq, a, n);
  }

  /** The poll at which monitoring ends: the first monitor cycle with an alarm, if any. */
  lemma {:induction false} MonitorEndsAtFirstAlarmPoll(ms: seq<Handler>, freq: int, a: Attempt, n: nat)
    requires freq != 0 && n <= a.polls
    ensures var e := MonitorFrom(ms, freq, a, n);
      && (e.Exited? ==> forall m :: n < m <= a.polls && m % freq == 0 ==> FirstMatch(ms, a.checkAt(m)).None?)
      && (!e.Exited? ==>
            && n < e.poll <= a.polls && e.poll % freq == 0
            && (forall m :: n < m < e.poll && m % freq == 0 ==> FirstMatch(ms, a.checkAt(m)).None?))
    decreases a.polls - n
  {
    var n' := n + 1;
    if n' <= a.polls && (n' % freq != 0 || FirstMatch(ms, a.checkAt(n')).None?) {
      MonitorEndsAtFirstAlarmPoll(ms, freq, a, n');
    }
  }

  /** The handler that ends monitoring: the first monitor alarming at that poll, and what it did. */
  lemma {:induction false} MonitorEndsWithAlarmingHandler(ms: seq<Handler>, freq: int, a: Attempt, n: nat)
    requires freq != 0 && n <= a.polls
    ensures var e := MonitorFrom(ms, freq, a, n);
      !e.Exited? ==>
        && FirstMatching(ms, a.checkAt(e.poll)) == Some(e.handler)
        && (e.Killed? <==> e.handler.isTerminating)
        && (e.Fixed? ==> a.correctAt(e.poll)(e.handler) == Some(e.entry.applied)
                         && e.entry.handler == e.handler.name)
        && (e.Aborted? ==> a.correctAt(e.poll)(e.handler).None?)
    decreases a.polls - n
  {
    var n' := n + 1;
    if n' <= a.polls && (n' % freq != 0 || FirstMatch(ms, a.checkAt(n')).None?) {
      MonitorEndsWithAlarmingHandler(ms, freq, a, n');
    }
  }

  /** When no monitor ever reports an error, monitoring ends only with the process's own exit. */
  lemma QuietMonitorsLetProcessRun(ms: seq<Handler>, freq: int, a: Attempt)
    requires freq != 0
    requires forall m, h :: 0 < m <= a.polls && h in ms ==> !a.checkAt(m)(h)
    ensures MonitorFrom(ms, freq, a, 0) == Exited
  {
    MonitorEndsAtFirstAlarm(ms, freq, a, 0);
  }

  /**
   * Monitor checks are consulted only on monitor cycles: two environments
   * that agree on every monitor's check and correct at the polls numbered by
   * a multiple of monitorFreq before the exit end the monitoring alike.
   */
  lemma {:induction false} MonitorSeesOnlyMonitorCycles(ms: seq<Handler>, freq: int, a: Attempt, b: Attempt, n: nat)
    requires freq != 0 && n <= a.polls && a.polls == b.polls
    requires forall m, j :: n < m <= a.polls && m % freq == 0 && 0 <= j < |ms| ==>
               a.checkAt(m)(ms[j]) == b.checkAt(m)(ms[j]) && a.correctAt(m)(ms[j]) == b.correctAt(m)(ms[j])
    ensures MonitorFrom(ms, freq, a, n) == MonitorFrom(ms, freq, b, n)
    decreases a.polls - n
  {
    if n + 1 <= a.polls {
      MonitorSeesOnlyMonitorCycles(ms, freq, a, b, n + 1);
      MonitorPollAgrees(ms, freq, a, b, n);
    }
  }

  /** One poll of the monitor loop: agreeing at poll n + 1 and after it, two environments agree from n. */
  lemma MonitorPollAgrees(ms: seq<Handler>, freq: int, a: Attempt, b: Attempt, n: nat)
    requires freq != 0 && n < a.polls && a.polls == b.polls
    requires (n + 1) % freq == 0 ==> forall j :: 0 <= j < |ms| ==>
               a.checkAt(n + 1)(ms[j]) == b.checkAt(n + 1)(ms[j])
               && a.correctAt(n + 1)(ms[j]) == b.correctAt(n + 1)(ms[j])
    requires MonitorFrom(ms, freq, a, n + 1) == MonitorFrom(ms, freq, b, n + 1)
    ensures MonitorFrom(ms, freq, a, n) == MonitorFrom(ms, freq, b, n)
  {
    if (n + 1) % freq == 0 {
      FirstMatchAgrees(ms, a.checkAt(n + 1), b.checkAt(n + 1));
    }
  }

  /** Checks that agree on every handler of the list select the same handler. */
  lemma FirstMatchAgrees(hs: seq<Handler>, p: Handler -> bool, q: Handler -> bool)
    requires forall j :: 0 <= j < |hs| ==> p(hs[j]) == q(hs[j])
    ensures FirstMatch(hs, p) == FirstMatch(hs, q)
  {
  }

  /** With monitoring disabled, or no monitor in the list, no monitor check or correct is consulted. */
  lemma MonitoringOffIgnoresMonitors(cfg: Config, a: Attempt, l: seq<Correction>,
                                     check: nat -> Handler -> bool, correct: nat -> Handler -> Option<string>)
    requires cfg.monitorFreq != 0
    requires !cfg.monitor || Monitors(cfg.handlers) == []
    ensures Monitoring(cfg, a) == Exited
    ensures Attempted(cfg, a, l) == Attempted(cfg, a.(checkAt := check, correctAt := correct), l)
  {
  }

  // ---------------------------------------------------------------- one attempt

  /** A non-zero return code raises exactly when no monitor fired during that attempt, with the ledger unchanged. */
  lemma NonZeroExitExactlyWhenUnexplained(cfg: Config, a: Attempt, l: seq<Correction>)
    requires cfg.monitorFreq != 0
    ensures (Attempted(cfg, a, l).Stop? && Attempted(cfg, a, l).outcome.NonZeroExit?)
            <==> Monitoring(cfg, a).Exited? && a.exitCode != 0
    ensures Monitoring(cfg, a).Exited? && a.exitCode != 0 ==>
              Attempted(cfg, a, l) == Stop(NonZeroExit(a.exitCode, l))
  {
  }

  /**
   * The ledger only grows at its end, by at most two rows; two rows only when
   * a non-terminating monitor was corrected and a handler also reported an
   * error after the exit. A raising attempt adds at most the monitor's row.
   */
  lemma AttemptAppends(cfg: Config, a: Attempt, l: seq<Correction>)
    requires cfg.monitorFreq != 0
    ensures match Attempted(cfg, a, l)
      case Continue(l2, _) =>
        && l <= l2 && |l2| <= |l| + 2
        && (|l2| == |l| + 2 ==> Monitoring(cfg, a).Fixed? && FirstMatch(cfg.handlers, a.checkAfter).Some?)
      case Stop(o) => l <= o.corrections && |o.corrections| <= |l| + 1
  {
  }

  /** An attempt that finds no error leaves the ledger as it was. */
  lemma CleanAttemptKeepsLedger(cfg: Config, a: Attempt, l: seq<Correction>)
    requires cfg.monitorFreq != 0
    requires Attempted(cfg, a, l).Continue? && !Attempted(cfg, a, l).hasError
    ensures Attempted(cfg, a, l).ledger == l
    ensures Monitoring(cfg, a).Exited? && a.exitCode == 0 && FirstMatch(cfg.handlers, a.checkAfter).None?
  {
  }

  /**
   * In the pass after the exit, the first handler in priority order whose
   * check is truthy is the only one corrected, and its row is the last one
   * appended.
   */
  lemma PostPassCorrectsFirstMatch(cfg: Config, a: Attempt, l: seq<Correction>, i: nat, c: string)
    requires cfg.monitorFreq != 0
    requires FirstMatch(cfg.handlers, a.checkAfter) == Some(i)
    requires a.correctAfter(cfg.handlers[i]) == Some(c)
    requires Attempted(cfg, a, l).Continue?
    ensures Attempted(cfg, a, l).hasError
    ensures var m := Monitoring(cfg, a);
            Attempted(cfg, a, l).ledger ==
              (if m.Fixed? then l + [m.entry] else l) + [Correction(cfg.handlers[i].name, c)]
  {
  }

  /**
   * Handlers after the first match are never consulted in the pass after the
   * exit, and only the winner's correct is called: changing the checks of
   * later handlers, or any other handler's correct, changes nothing.
   */
  lemma PostPassIgnoresLowerPriority(cfg: Config, a: Attempt, l: seq<Correction>, i: nat,
                                     check: Handler -> bool, correct: Handler -> Option<string>)
    requires cfg.monitorFreq != 0
    requires FirstMatch(cfg.handlers, a.checkAfter) == Some(i)
    requires forall j :: 0 <= j <= i ==> check(cfg.handlers[j]) == a.checkAfter(cfg.handlers[j])
    requires correct(cfg.handlers[i]) == a.correctAfter(cfg.handlers[i])
    ensures Attempted(cfg, a, l) == Attempted(cfg, a.(checkAfter := check, correctAfter := correct), l)
  {
    var b := a.(checkAfter := check, correctAfter := correct);
    if cfg.monitor && Monitors(cfg.handlers) != [] {
      MonitorSeesOnlyMonitorCycles(Monitors(cfg.handlers), cfg.monitorFreq, a, b, 0);
    }
    assert FirstMatch(cfg.handlers, b.checkAfter) == Some(i);
  }

  /**
   * A terminating monitor that fires while no handler reports an error after
   * the exit leaves has_error set without a new ledger row, so the loop
   * relaunches the command without spending any of the budget.
   */
  lemma KillWithoutPostMatchMakesNoProgress(cfg: Config, a: Attempt, l: seq<Correction>)
    requires cfg.monitorFreq != 0
    requires Monitoring(cfg, a).Killed? && FirstMatch(cfg.handlers, a.checkAfter).None?
    ensures Attempted(cfg, a, l) == Continue(l, true)
  {
  }

  // ---------------------------------------------------------------- the loop, for any attempt step

  /** The rows a step leaves: those it continues with, or those its outcome carries. */
  function Rows(st: Step): (r: seq<Correction>)
  {
    if st.Stop? then st.outcome.corrections else st.ledger
  }

  /**
   * What the main loop relies on from one attempt: rows are only appended, an
   * attempt raises only NonZeroExitError (adding no row) or a handler's
   * abort, and an attempt that finds no error adds no row.
   */
  ghost predicate WellBehaved(steps: nat -> seq<Correction> -> Step, n: nat)
  {
    forall i: nat, l: seq<Correction> {:trigger Rows(steps(i)(l))} | i < n ::
      && l <= Rows(steps(i)(l))
      && (steps(i)(l).Stop? ==> steps(i)(l).outcome.HandlerAborted? || steps(i)(l).outcome.NonZeroExit?)
      && (steps(i)(l).Stop? && steps(i)(l).outcome.NonZeroExit? ==> steps(i)(l).outcome.corrections == l)
      && (steps(i)(l).Continue? && !steps(i)(l).hasError ==> steps(i)(l).ledger == l)
  }

  /** What WellBehaved says about attempt k with ledger l. */
  lemma StepAt(steps: nat -> seq<Correction> -> Step, n: nat, k: nat, l: seq<Correction>)
    requires WellBehaved(steps, n) && k < n
    ensures l <= Rows(steps(k)(l))
    ensures steps(k)(l).Stop? ==> steps(k)(l).outcome.HandlerAborted? || steps(k)(l).outcome.NonZeroExit?
    ensures steps(k)(l).Stop? && steps(k)(l).outcome.NonZeroExit? ==> steps(k)(l).outcome.corrections == l
    ensures steps(k)(l).Continue? && !steps(k)(l).hasError ==> steps(k)(l).ledger == l
  {
    // mention the term WellBehaved is triggered on
    assert Rows(steps(k)(l)) == Rows(steps(k)(l));
  }

  /** Every attempt of a script is well behaved. */
  lemma AttemptsWellBehaved(cfg: Config, s: seq<Attempt>)
    requires cfg.monitorFreq != 0
    ensures WellBehaved(AttemptsOf(cfg, s), |s|)
  {
    forall i: nat, l: seq<Correction> | i < |s|
      ensures && l <= Rows(AttemptsOf(cfg, s)(i)(l))
              && (AttemptsOf(cfg, s)(i)(l).Stop? ==>
                    AttemptsOf(cfg, s)(i)(l).outcome.HandlerAborted? || AttemptsOf(cfg, s)(i)(l).outcome.NonZeroExit?)
              && (AttemptsOf(cfg, s)(i)(l).Stop? && AttemptsOf(cfg, s)(i)(l).outcome.NonZeroExit? ==>
                    AttemptsOf(cfg, s)(i)(l).outcome.corrections == l)
              && (AttemptsOf(cfg, s)(i)(l).Continue? && !AttemptsOf(cfg, s)(i)(l).hasError ==>
                    AttemptsOf(cfg, s)(i)(l).ledger == l)
    {
      AttemptAppends(cfg, s[i], l);
      NonZeroExitExactlyWhenUnexplained(cfg, s[i], l);
      if Attempted(cfg, s[i], l).Continue? && !Attempted(cfg, s[i], l).hasError {
        CleanAttemptKeepsLedger(cfg, s[i], l);
      }
    }
  }

  /** The loop only appends rows, and makes between k and n launches. */
  lemma {:induction false} DriveAppendsOnly(steps: nat -> seq<Correction> -> Step, n: nat, max: int, save: bool,
                                           k: nat, l: seq<Correction>, f: Option<seq<Correction>>)
    requires k <= n && WellBehaved(steps, n)
    ensures l <= Drive(steps, n, max, save, k, l, f).outcome.corrections
    ensures k <= Drive(steps, n, max, save, k, l, f).attempts <= n
    decreases n - k
  {
    if |l| <= max && k < n {
      StepAt(steps, n, k, l);
      match steps(k)(l)
      case Stop(o) =>
      case Continue(l2, hasError) =>
        if hasError {
          DriveAppendsOnly(steps, n, max, save, k + 1, l2, if save then Some(l2) else f);
        }
    }
  }

  /** The loop returns normally only after a clean attempt, with fewer rows than max_corrections. */
  lemma {:induction false} DriveOkMeansCleanFinish(steps: nat -> seq<Correction> -> Step, n: nat, max: int,
                                                  save: bool, k: nat, l: seq<Correction>,
                                                  f: Option<seq<Correction>>)
    requires k <= n && WellBehaved(steps, n)
    ensures var t := Drive(steps, n, max, save, k, l, f);
      t.outcome.Ok? ==>
        && |t.outcome.corrections| < max
        && k < t.attempts <= n
        && steps(t.attempts - 1)(t.outcome.corrections) == Continue(t.outcome.corrections, false)
    decreases n - k
  {
    if |l| <= max && k < n {
      StepAt(steps, n, k, l);
      match steps(k)(l)
      case Stop(o) =>
      case Continue(l2, hasError) =>
        if hasError {
          DriveOkMeansCleanFinish(steps, n, max, save, k + 1, l2, if save then Some(l2) else f);
        }
    }
  }

  /** MaxCorrectionsError means the rows outgrew the budget, or reached it exactly on a clean attempt. */
  lemma {:induction false} DriveMaxCorrectionsMeaning(steps: nat -> seq<Correction> -> Step, n: nat, max: int,
                                                     save: bool, k: nat, l: seq<Correction>,
                                                     f: Option<seq<Correction>>)
    requires k <= n && WellBehaved(steps, n)
    ensures var t := Drive(steps, n, max, save, k, l, f);
      var c := t.outcome.corrections;
      t.outcome.MaxCorrections? ==>
        || |c| > max
        || (&& |c| == max && k < t.attempts <= n
            && steps(t.attempts - 1)(c) == Continue(c, false))
    decreases n - k
  {
    if |l| <= max && k < n {
      StepAt(steps, n, k, l);
      match steps(k)(l)
      case Stop(o) =>
      case Continue(l2, hasError) =>
        if hasError {
          DriveMaxCorrectionsMeaning(steps, n, max, save, k + 1, l2, if save then Some(l2) else f);
        }
    }
  }

  /**
   * With saving on, the corrections file holds the final ledger after a
   * normal return and when MaxCorrectionsError is raised after a launch, and
   * the ledger as it stands when NonZeroExitError is raised (nothing, if the
   * very first launch failed).
   */
  lemma {:induction false} DriveFlushes(steps: nat -> seq<Correction> -> Step, n: nat, max: int,
                                       k: nat, l: seq<Correction>, f: Option<seq<Correction>>)
    requires k <= n && WellBehaved(steps, n)
    requires f == if k == 0 then None else Some(l)
    ensures var t := Drive(steps, n, max, true, k, l, f);
      && (t.outcome.Ok? ==> t.flushed == Some(t.outcome.corrections))
      && (t.outcome.MaxCorrections? && t.attempts > 0 ==> t.flushed == Some(t.outcome.corrections))
      && (t.outcome.NonZeroExit? ==>
            t.flushed == if t.attempts == 1 then None else Some(t.outcome.corrections))
    decreases n - k
  {
    if |l| <= max && k < n {
      StepAt(steps, n, k, l);
      match steps(k)(l)
      case Stop(o) =>
      case Continue(l2, hasError) =>
        if hasError {
          DriveFlushes(steps, n, max, k + 1, l2, Some(l2));
        }
    }
  }

  /**
   * When every attempt finds an error and adds exactly one row, the loop
   * launches max_corrections + 1 times and raises MaxCorrectionsError with
   * max_corrections + 1 rows.
   */
  lemma {:induction false} DrivePersistentFault(steps: nat -> seq<Correction> -> Step, n: nat, max: int,
                                               save: bool, k: nat, l: seq<Correction>,
                                               f: Option<seq<Correction>>)
    requires 0 <= max < n && |l| == k <= max + 1
    requires forall i: nat, l0: seq<Correction> | i < n ::
      steps(i)(l0).Continue? && steps(i)(l0).hasError && |steps(i)(l0).ledger| == |l0| + 1
    ensures Drive(steps, n, max, save, k, l, f).outcome.MaxCorrections?
    ensures |Drive(steps, n, max, save, k, l, f).outcome.corrections| == max + 1
    ensures Drive(steps, n, max, save, k, l, f).attempts == max + 1
    decreases n - k
  {
    if |l| <= max {
      var l2 := steps(k)(l).ledger;
      DrivePersistentFault(steps, n, max, save, k + 1, l2, if save then Some(l2) else f);
    }
  }

  /**
   * When every attempt that finds an error adds at least one row, and the
   * script has room for max_corrections + 1 launches, the loop stops within
   * max_corrections + 1 launches and never runs out of script.
   */
  lemma {:induction false} DriveProgressBoundsLaunches(steps: nat -> seq<Correction> -> Step, n: nat, max: int,
                                                      save: bool, k: nat, l: seq<Correction>,
                                                      f: Option<seq<Correction>>)
    requires WellBehaved(steps, n) && 0 <= max && max + 1 <= n && k <= |l| && k <= max + 1
    requires forall i: nat, l0: seq<Correction> | i < n ::
      steps(i)(l0).Continue? && steps(i)(l0).hasError ==> |steps(i)(l0).ledger| > |l0|
    ensures !Drive(steps, n, max, save, k, l, f).outcome.ScriptExhausted?
    ensures Drive(steps, n, max, save, k, l, f).attempts <= max + 1
    decreases n - k
  {
    if |l| <= max {
      StepAt(steps, n, k, l);
      match steps(k)(l)
      case Stop(o) =>
      case Continue(l2, hasError) =>
        if hasError {
          DriveProgressBoundsLaunches(steps, n, max, save, k + 1, l2, if save then Some(l2) else f);
        }
    }
  }

  /**
   * When attempt j finds no error whatever the ledger, and it is the last
   * launch, the loop was left by the clean-attempt break with a ledger
   * within the budget, so the final check decides the outcome.
   */
  lemma {:induction false} DriveCleanLastIsBudget(steps: nat -> seq<Correction> -> Step, n: nat, max: int,
                                                 save: bool, k: nat, l: seq<Correction>,
                                                 f: Option<seq<Correction>>, j: nat)
    requires k <= n && WellBehaved(steps, n)
    requires forall l0: seq<Correction> :: steps(j)(l0).Continue? && !steps(j)(l0).hasError
    ensures var t := Drive(steps, n, max, save, k, l, f);
      k <= j && t.attempts == j + 1 ==>
        t.outcome == Budget(t.outcome.corrections, max) && |t.outcome.corrections| <= max
    decreases n - k
  {
    if |l| <= max && k < n {
      StepAt(steps, n, k, l);
      match steps(k)(l)
      case Stop(o) =>
      case Continue(l2, hasError) =>
        if hasError {
          DriveCleanLastIsBudget(steps, n, max, save, k + 1, l2, if save then Some(l2) else f, j);
        }
    }
  }

  // ---------------------------------------------------------------- the loop over the script

  /** Rows are only ever appended: the ledger a loop starts with is a prefix of the one it ends with. */
  lemma LoopAppendsOnly(cfg: Config, s: seq<Attempt>, k: nat, l: seq<Correction>, f: Option<seq<Correction>>)
    requires cfg.monitorFreq != 0 && k <= |s|
    ensures l <= Loop(cfg, s, k, l, f).outcome.corrections
    ensures k <= Loop(cfg, s, k, l, f).attempts <= |s|
  {
    AttemptsWellBehaved(cfg, s);
    DriveAppendsOnly(AttemptsOf(cfg, s), |s|, cfg.maxCorrections, cfg.saveCorrections, k, l, f);
  }

  /**
   * The loop returns normally only after an attempt that found no error,
   * with fewer rows than max_corrections (as written, reaching the budget
   * exactly already raises).
   */
  lemma LoopOkMeansCleanFinish(cfg: Config, s: seq<Attempt>, k: nat, l: seq<Correction>, f: Option<seq<Correction>>)
    requires cfg.monitorFreq != 0 && k <= |s|
    ensures var t := Loop(cfg, s, k, l, f);
      t.outcome.Ok? ==>
        && |t.outcome.corrections| < cfg.maxCorrections
        && k < t.attempts <= |s|
        && Attempted(cfg, s[t.attempts - 1], t.outcome.corrections) == Continue(t.outcome.corrections, false)
  {
    AttemptsWellBehaved(cfg, s);
    DriveOkMeansCleanFinish(AttemptsOf(cfg, s), |s|, cfg.maxCorrections, cfg.saveCorrections, k, l, f);
  }

  /**
   * MaxCorrectionsError is raised with at least max_corrections rows: either
   * the ledger outgrew the budget, or it holds exactly max_corrections rows
   * and the last attempt found no error.
   */
  lemma LoopMaxCorrectionsMeaning(cfg: Config, s: seq<Attempt>, k: nat, l: seq<Correction>,
                                  f: Option<seq<Correction>>)
    requires cfg.monitorFreq != 0 && k <= |s|
    ensures var t := Loop(cfg, s, k, l, f);
      var c := t.outcome.corrections;
      t.outcome.MaxCorrections? ==>
        || |c| > cfg.maxCorrections
        || (&& |c| == cfg.maxCorrections && k < t.attempts <= |s|
            && Attempted(cfg, s[t.attempts - 1], c) == Continue(c, false))
  {
    AttemptsWellBehaved(cfg, s);
    DriveMaxCorrectionsMeaning(AttemptsOf(cfg, s), |s|, cfg.maxCorrections, cfg.saveCorrections, k, l, f);
  }

  /** `execute` can only return normally with fewer rows than max_corrections; with a budget of 0 it always raises. */
  lemma OkWithinBudget(cfg: Config, s: seq<Attempt>)
    requires cfg.monitorFreq != 0
    ensures Supervised(cfg, s).outcome.Ok? ==> |Supervised(cfg, s).outcome.corrections| < cfg.maxCorrections
    ensures cfg.maxCorrections <= 0 ==> !Supervised(cfg, s).outcome.Ok?
  {
    LoopOkMeansCleanFinish(cfg, s, 0, [], None);
  }

  /** Every attempt of `a` ends with an error found and exactly one new row. */
  ghost predicate AlwaysCorrected(cfg: Config, a: Attempt)
    requires cfg.monitorFreq != 0
  {
    forall l :: Attempted(cfg, a, l).Continue? && Attempted(cfg, a, l).hasError
                && |Attempted(cfg, a, l).ledger| == |l| + 1
  }

  /**
   * A fault that is corrected on every attempt makes `execute` launch the
   * command max_corrections + 1 times and raise MaxCorrectionsError with
   * max_corrections + 1 rows.
   */
  lemma PersistentFaultExhaustsBudget(cfg: Config, s: seq<Attempt>)
    requires cfg.monitorFreq != 0 && 0 <= cfg.maxCorrections < |s|
    requires forall j :: 0 <= j < |s| ==> AlwaysCorrected(cfg, s[j])
    ensures Supervised(cfg, s).outcome.MaxCorrections?
    ensures |Supervised(cfg, s).outcome.corrections| == cfg.maxCorrections + 1
    ensures Supervised(cfg, s).attempts == cfg.maxCorrections + 1
  {
    var steps := AttemptsOf(cfg, s);
    forall i: nat, l0: seq<Correction> | i < |s|
      ensures steps(i)(l0).Continue? && steps(i)(l0).hasError && |steps(i)(l0).ledger| == |l0| + 1
    {
      assert AlwaysCorrected(cfg, s[i]);
    }
    DrivePersistentFault(steps, |s|, cfg.maxCorrections, cfg.saveCorrections, 0, [], None);
  }

  /**
   * When every attempt that finds an error adds at least one row (no
   * terminating monitor fires without a post-exit fix) and the script has
   * room for max_corrections + 1 launches, `execute` launches the command at
   * most max_corrections + 1 times and never needs a further attempt.
   */
  lemma ProgressBoundsLaunches(cfg: Config, s: seq<Attempt>)
    requires cfg.monitorFreq != 0 && 0 <= cfg.maxCorrections && cfg.maxCorrections + 1 <= |s|
    requires forall j, l :: 0 <= j < |s| && Attempted(cfg, s[j], l).Continue? && Attempted(cfg, s[j], l).hasError ==>
      |Attempted(cfg, s[j], l).ledger| > |l|
    ensures !Supervised(cfg, s).outcome.ScriptExhausted?
    ensures Supervised(cfg, s).attempts <= cfg.maxCorrections + 1
  {
    var steps := AttemptsOf(cfg, s);
    AttemptsWellBehaved(cfg, s);
    forall i: nat, l0: seq<Correction> | i < |s|
      ensures steps(i)(l0).Continue? && steps(i)(l0).hasError ==> |steps(i)(l0).ledger| > |l0|
    {
      assert steps(i)(l0) == Attempted(cfg, s[i], l0);
    }
    DriveProgressBoundsLaunches(steps, |s|, cfg.maxCorrections, cfg.saveCorrections, 0, [], None);
  }

  /** An attempt in which no handler ever reports an error and the command exits with 0 is clean. */
  lemma QuietAttemptIsClean(cfg: Config, a: Attempt, l: seq<Correction>)
    requires cfg.monitorFreq != 0 && a.exitCode == 0
    requires forall h :: !a.checkAfter(h)
    requires forall m, h :: !a.checkAt(m)(h)
    ensures Attempted(cfg, a, l) == Continue(l, false)
  {
    if cfg.monitor && Monitors(cfg.handlers) != [] {
      QuietMonitorsLetProcessRun(Monitors(cfg.handlers), cfg.monitorFreq, a);
    }
  }

  /**
   * With no handler ever matching, a zero exit code and a budget of at least
   * one, `execute` launches the command once and returns an empty ledger.
   */
  lemma QuietRunSucceedsFirstTime(cfg: Config, s: seq<Attempt>)
    requires cfg.monitorFreq != 0 && cfg.maxCorrections >= 1 && |s| >= 1
    requires s[0].exitCode == 0
    requires forall h :: !s[0].checkAfter(h)
    requires forall m, h :: !s[0].checkAt(m)(h)
    ensures Supervised(cfg, s) == Trace(Ok([]), 1, if cfg.saveCorrections then Some([]) else None)
  {
    QuietAttemptIsClean(cfg, s[0], []);
  }

  /**
   * The corrections file mirrors the ledger: after a normal return, and when
   * MaxCorrectionsError is raised after at least one launch, it holds the
   * final ledger; when NonZeroExitError is raised it holds the ledger as it
   * stands (nothing, if the very first launch failed).
   */
  lemma FlushedFileMatchesLedger(cfg: Config, s: seq<Attempt>)
    requires cfg.monitorFreq != 0 && cfg.saveCorrections
    ensures var t := Supervised(cfg, s);
      && (t.outcome.Ok? ==> t.flushed == Some(t.outcome.corrections))
      && (t.outcome.MaxCorrections? && t.attempts > 0 ==> t.flushed == Some(t.outcome.corrections))
      && (t.outcome.NonZeroExit? ==>
            t.flushed == if t.attempts == 1 then None else Some(t.outcome.corrections))
  {
    AttemptsWellBehaved(cfg, s);
    DriveFlushes(AttemptsOf(cfg, s), |s|, cfg.maxCorrections, 0, [], None);
  }

  // ---------------------------------------------------------------- budget check as intended

  /** An attempt that runs to a clean exit: nothing raised and no handler reported an error. */
  predicate CleanAttempt(cfg: Config, a: Attempt)
    requires cfg.monitorFreq != 0
  {
    Attempted(cfg, a, []).Continue? && !Attempted(cfg, a, []).hasError
  }

  /**
   * Whether an attempt raises, and whether it finds an error, depends only on
   * the process and the handlers, never on the rows recorded so far.
   */
  lemma AttemptIgnoresLedger(cfg: Config, a: Attempt, l: seq<Correction>)
    requires cfg.monitorFreq != 0
    ensures Attempted(cfg, a, l).Continue? <==> Attempted(cfg, a, []).Continue?
    ensures Attempted(cfg, a, l).Continue? ==> (Attempted(cfg, a, l).hasError <==> !CleanAttempt(cfg, a))
  {
  }

  /**
   * `execute` with the final budget check the error message describes:
   * raise only when the ledger holds more than max_corrections rows, that is
   * when the last fix was never tried.
   */
  function SupervisedIntended(cfg: Config, s: seq<Attempt>): (t: Trace)
    requires cfg.monitorFreq != 0
    ensures t.attempts == Supervised(cfg, s).attempts && t.flushed == Supervised(cfg, s).flushed
    ensures t.outcome.corrections == Supervised(cfg, s).outcome.corrections
    ensures t.outcome != Supervised(cfg, s).outcome ==> t.outcome.Ok? && Supervised(cfg, s).outcome.MaxCorrections?
  {
    var t := Supervised(cfg, s);
    if t.outcome.MaxCorrections? && |t.outcome.corrections| <= cfg.maxCorrections
    then t.(outcome := Ok(t.outcome.corrections))
    else t
  }

  /**
   * With the intended check, `execute` returns normally exactly when its last
   * launch was a clean attempt, success never exceeds the budget, and
   * MaxCorrectionsError means the budget was really exceeded.
   */
  lemma IntendedBudget(cfg: Config, s: seq<Attempt>)
    requires cfg.monitorFreq != 0
    ensures var t := SupervisedIntended(cfg, s);
      var c := t.outcome.corrections;
      && (t.outcome.Ok? <==> 0 < t.attempts && CleanAttempt(cfg, s[t.attempts - 1]))
      && (t.outcome.Ok? ==>
            && |c| <= cfg.maxCorrections && 0 < t.attempts <= |s|
            && Attempted(cfg, s[t.attempts - 1], c) == Continue(c, false))
      && (t.outcome.MaxCorrections? ==> |c| > cfg.maxCorrections)
  {
    var t := Supervised(cfg, s);
    LoopOkMeansCleanFinish(cfg, s, 0, [], None);
    LoopMaxCorrectionsMeaning(cfg, s, 0, [], None);
    if 0 < t.attempts {
      var a := s[t.attempts - 1];
      AttemptIgnoresLedger(cfg, a, t.outcome.corrections);
      if CleanAttempt(cfg, a) {
        var steps, j := AttemptsOf(cfg, s), t.attempts - 1;
        forall l0: seq<Correction> ensures steps(j)(l0).Continue? && !steps(j)(l0).hasError {
          AttemptIgnoresLedger(cfg, a, l0);
          assert steps(j)(l0) == Attempted(cfg, a, l0);
        }
        AttemptsWellBehaved(cfg, s);
        DriveCleanLastIsBudget(steps, |s|, cfg.maxCorrections, cfg.saveCorrections, 0, [], None, j);
      }
    }
  }
}
