# Simmate core, modelled in Dafny

This project models three parts of the Simmate materials-science toolkit and
proves properties about them.

1. **`SupervisedStagedShellTask`** runs a shell command between a `setup` and
   a `workup` hook. Error handlers, listed in priority order, supervise the
   command.
   - *Monitors* are handlers flagged `is_monitor`. They check the working
     directory every `monitor_freq`-th poll while the command runs.
     - A *terminating* monitor has the process group killed.
     - Any other monitor is corrected at once.
   - After the command exits, the first handler whose `check` is truthy is
     corrected, and the attempt is retried.
   - Each correction is appended to an in-memory ledger. When
     `save_corrections_to_file` is set, the ledger is written to a CSV file
     after each attempt that did not raise.
   - The task ends in one of five ways:
     - a normal return with the ledger, after an attempt that found no error;
     - `NonZeroExitError`: the command fails and no monitor explains it;
     - `MaxCorrectionsError`: the correction budget is used up;
     - an exception raised by a handler's `correct`;
     - `StructureRequiredError`: `run` was given no structure and the task
       requires one.
2. **The `chemical_formula` template filter** wraps every numeric character
   of a formula in `<sub>`…`</sub>`.
3. **Three parts of the evolutionary structure search**:
   - one pass of `check_workflows` over the submitted workflow futures;
   - the classification of built-in source names (`_init_common_class`);
   - the filter that drops single-shot sources an earlier search already ran.

## How the model is laid out

- `wrappers.dfy`: the `Option` and `Result` types.
- `handlers.dfy` (module `Handlers`):
  - an error handler as the supervisor sees it;
  - a ledger row;
  - the two priority scans: the first truthy check, and the monitors sub-list.
- `supervision.dfy` (module `Supervision`): `execute` as pure functions.
  - `MonitorFrom` is the monitor loop.
  - `Attempted` is one pass of the main loop body.
  - `Drive`/`Loop` is the main loop.
  - `Supervised` is the whole call.
  - The environment is a *script*: one `Attempt` per launch of the command.
    It says:
    - how many polls see the process still running;
    - its exit code;
    - what each handler's `check` and `correct` return at each monitor poll
      and after the exit.
  - `correct` returning `None` stands for `correct` raising.
  - A script that runs out of attempts ends with `ScriptExhausted`. This is
    the fuel bound of the model.
- `supervision_proofs.dfy` (module `SupervisionProofs`): what monitoring, one
  attempt, and the whole loop guarantee. It also holds the corrected budget
  check.
- `shell_task.dfy` (module `ShellTask`):
  - the class `SupervisedStagedShellTask`, whose fields are the task's
    attributes;
  - `__init__` override rules;
  - the monitor loop, the attempt and the main retry loop as imperative
    methods, each proved equal to its function in `Supervision`;
  - the four stages of `run`.
- `scenarios.dfy` (module `Scenarios`): concrete runs built from the test
  suite's handlers (`AlwaysPassesHandler`, `AlwaysFailsHandler`), from a
  handler that fires after some launches only, and from
  stalled terminating monitors.
- `formula.dfy` (module `ChemicalFormulaFilter`): the filter's loop, proved
  equal to a recursive definition, and that definition's properties.
- `search.dfy` (module `EvolutionarySearch`):
  - a `Search` class holding the futures, fitnesses, structures and job
    counters;
  - the `check_workflows` pass, proved against element-wise definitions;
  - `_init_common_class`;
  - the single-shot filter.

Source paths in the table are relative to the repository root.

## Model

| member | source | states |
|---|---|---|
| Handlers.FirstMatch | src/simmate/workflow_engine/tasks/supervised_staged_shell_task.py:278-300 | The handler chosen is the earliest one in priority order whose check is truthy. No handler is chosen exactly when every check is falsy. |
| Handlers.FirstMatching | src/simmate/workflow_engine/tasks/supervised_staged_shell_task.py:224-228 | The handler found is the earliest in priority order whose check is truthy: it is in the list, its check is truthy and every handler before it is falsy. When none is found, every handler's check is falsy. |
| Handlers.Monitors | src/simmate/workflow_engine/tasks/supervised_staged_shell_task.py:159-161 | The monitors list, built by keeping the handlers flagged `is_monitor` in order; it is never longer than the handler list. |
| Handlers.MonitorsAreFlagged | src/simmate/workflow_engine/tasks/supervised_staged_shell_task.py:159-161 | A handler is in the monitors list if and only if it is in the handler list and flagged `is_monitor`. |
| Handlers.MonitorsDistribute | src/simmate/workflow_engine/tasks/supervised_staged_shell_task.py:159-161 | Extracting the monitors distributes over concatenation, so the monitors keep their relative priority order. |
| Handlers.MonitorsKeepPriority | src/simmate/workflow_engine/tasks/supervised_staged_shell_task.py:159-161 | Scanning the monitors list finds the same handler as scanning the full list for the first monitor whose check is truthy. |
| ShellTask.Overridden | src/simmate/workflow_engine/tasks/supervised_staged_shell_task.py:112-125 | A keyword replaces its class default only when truthy: a non-empty `command` replaces the default and an empty or missing one keeps it. `max_corrections` and `polling_timestep` also override when 0. `monitor=False` and `monitor_freq=0` keep the default. `requires_structure` is never overridden. |
| ShellTask.ScanHandlers | src/simmate/workflow_engine/tasks/supervised_staged_shell_task.py:278-289 | The for-loop that stops at the first truthy check returns exactly the position FirstMatch specifies. |
| ShellTask.SupervisedStagedShellTask.constructor | src/simmate/workflow_engine/tasks/supervised_staged_shell_task.py:82-138 | The overridable attributes are those `Overridden` gives. The remaining settings are copied from the arguments. The monitor cadence stays non-zero. |
| ShellTask.SupervisedStagedShellTask.MonitorProcess | src/simmate/workflow_engine/tasks/supervised_staged_shell_task.py:210-253 | The monitor while-loop ends exactly as `MonitorFrom` specifies: exit seen, kill, immediate fix, or a raising correct. |
| ShellTask.SupervisedStagedShellTask.RunAttempt | src/simmate/workflow_engine/tasks/supervised_staged_shell_task.py:185-300 | One pass of the main loop body gives exactly the step `Attempted` specifies. |
| ShellTask.SupervisedStagedShellTask.MainLoop | src/simmate/workflow_engine/tasks/supervised_staged_shell_task.py:167-328 | The main while-loop ends as `Supervised` specifies: an error raised inside it with that outcome, or falling out with a ledger whose budget check gives that outcome. The file holds the ledger last written, or is untouched when nothing was written. |
| ShellTask.SupervisedStagedShellTask.Execute | src/simmate/workflow_engine/tasks/supervised_staged_shell_task.py:151-339 | It computes the monitors list and returns the outcome `Supervised` specifies. The corrections file is left holding the ledger last written, or is untouched when nothing was written. |
| ShellTask.SupervisedStagedShellTask.Setup | src/simmate/workflow_engine/tasks/supervised_staged_shell_task.py:140-149 | The setup stage is recorded once, after earlier stages. |
| ShellTask.SupervisedStagedShellTask.Workup | src/simmate/workflow_engine/tasks/supervised_staged_shell_task.py:382-392 | The workup stage is recorded and the base class's result is None. |
| ShellTask.SupervisedStagedShellTask.Postprocess | src/simmate/workflow_engine/tasks/supervised_staged_shell_task.py:394-421 | The postprocess stage is recorded with whether the directory is archived (`compress_output`) and emptied (`empty_directory_on_finish`). |
| ShellTask.SupervisedStagedShellTask.Stages | src/simmate/workflow_engine/tasks/supervised_staged_shell_task.py:454-469 | Setup and execute run in that order, then workup and postprocess only when execute returns. The result is (None, the corrections), or execute's error. The monitors list is set and the file holds what `Supervised` flushed. |
| ShellTask.SupervisedStagedShellTask.Run | src/simmate/workflow_engine/tasks/supervised_staged_shell_task.py:423-469 | A missing required structure raises StructureRequiredError before any stage, leaving the stages, the file and the monitors list untouched. Otherwise setup and execute run in that order. Workup and postprocess follow only when execute returns. The result is (None, the corrections), or execute's error. The monitors list is set and the file holds the ledger last written, as `Supervised` gives it. |
| Supervision.MonitorFrom | src/simmate/workflow_engine/tasks/supervised_staged_shell_task.py:210-253 | The monitor loop from a poll on. When it does not end with the exit, it ends at a later monitor cycle (a multiple of `monitor_freq`, before the exit) on a monitor whose check is truthy there. It kills exactly when that monitor is terminating, aborts only when its correct raised, and a fix records that monitor's name and correction. |
| Supervision.Attempted | src/simmate/workflow_engine/tasks/supervised_staged_shell_task.py:185-300 | One pass of the main loop body. A raising attempt raises only NonZeroExitError or a handler's exception. An attempt that finds no error keeps the ledger. |
| Supervision.Drive | src/simmate/workflow_engine/tasks/supervised_staged_shell_task.py:174-328 | The main loop over any attempt step, from attempt k. The launches counted lie between k and the number the environment allows. |
| Supervision.Monitoring | src/simmate/workflow_engine/tasks/supervised_staged_shell_task.py:201 | Monitoring runs only when `monitor` is on and some handler is a monitor; otherwise the attempt goes straight to the exit. When it does not end with the exit, it ends on a monitor whose check is truthy at a poll that is a positive multiple of `monitor_freq`, no later than the exit. |
| Supervision.ReturnCode | src/simmate/workflow_engine/tasks/supervised_staged_shell_task.py:260-266 | The return code seen after monitoring is 0 exactly when the process was not killed and exited with 0; a killed process never reports 0. |
| Supervision.Budget | src/simmate/workflow_engine/tasks/supervised_staged_shell_task.py:331-339 | The final check as written: the ledger is returned, unchanged, exactly when it holds fewer rows than `max_corrections`; otherwise MaxCorrectionsError carries it. |
| Supervision.Loop | src/simmate/workflow_engine/tasks/supervised_staged_shell_task.py:174-328 | The main loop over the script's attempts, from attempt k. The launches counted lie between k and the script's length. |
| Supervision.Supervised | src/simmate/workflow_engine/tasks/supervised_staged_shell_task.py:151-339 | `execute` from an empty ledger: the outcome, the launches made and the ledger last written. It makes no more launches than the script allows. |
| SupervisionProofs.MonitorEndsAtFirstAlarm | src/simmate/workflow_engine/tasks/supervised_staged_shell_task.py:210-253 | Monitoring ends at the first monitor cycle before the exit at which some monitor alarms. That cycle's first alarming monitor decides the outcome: a terminating one kills the process, any other is corrected or aborts. Otherwise monitoring ends because the exit was seen. |
| SupervisionProofs.QuietMonitorsLetProcessRun | src/simmate/workflow_engine/tasks/supervised_staged_shell_task.py:211-222 | When no monitor ever alarms, monitoring ends only with the process's own exit. |
| SupervisionProofs.MonitorSeesOnlyMonitorCycles | src/simmate/workflow_engine/tasks/supervised_staged_shell_task.py:222 | Monitor checks are consulted only at polls numbered by a multiple of `monitor_freq`. Environments that agree there end the monitoring alike. |
| SupervisionProofs.MonitoringOffIgnoresMonitors | src/simmate/workflow_engine/tasks/supervised_staged_shell_task.py:201 | With `monitor` off or no monitors, nothing a monitor would report changes an attempt. |
| SupervisionProofs.NonZeroExitExactlyWhenUnexplained | src/simmate/workflow_engine/tasks/supervised_staged_shell_task.py:260-272 | NonZeroExitError is raised if and only if monitoring ended with the process's own exit and its return code is non-zero. The error carries that code and the ledger unchanged. |
| SupervisionProofs.AttemptAppends | src/simmate/workflow_engine/tasks/supervised_staged_shell_task.py:243-297 | An attempt only appends to the ledger, at most two rows. Two rows only when a non-terminating monitor fixed something and a handler matched after the exit. A raising attempt adds at most the monitor's row. |
| SupervisionProofs.CleanAttemptKeepsLedger | src/simmate/workflow_engine/tasks/supervised_staged_shell_task.py:324-326 | An attempt that finds no error leaves the ledger unchanged. It happens only when monitoring saw the exit, the exit code was 0 and no handler matched. |
| SupervisionProofs.PostPassCorrectsFirstMatch | src/simmate/workflow_engine/tasks/supervised_staged_shell_task.py:278-300 | After the exit, the first truthy handler's correction is the last row appended. The attempt counts as having found an error. |
| SupervisionProofs.PostPassIgnoresLowerPriority | src/simmate/workflow_engine/tasks/supervised_staged_shell_task.py:298-300 | Handlers after the first match are never checked, and only the winner's `correct` is called. |
| SupervisionProofs.KillWithoutPostMatchMakesNoProgress | src/simmate/workflow_engine/tasks/supervised_staged_shell_task.py:230-233 | A kill with no handler matching after the exit sets `has_error` without adding a row. The loop then relaunches without spending budget. |
| SupervisionProofs.LoopAppendsOnly | src/simmate/workflow_engine/tasks/supervised_staged_shell_task.py:167-326 | The ledger the loop starts with is a prefix of the one it ends with. The number of launches stays within the script. |
| SupervisionProofs.LoopOkMeansCleanFinish | src/simmate/workflow_engine/tasks/supervised_staged_shell_task.py:324-336 | A normal return follows an attempt that found no error. It returns fewer rows than `max_corrections`. |
| SupervisionProofs.LoopMaxCorrectionsMeaning | src/simmate/workflow_engine/tasks/supervised_staged_shell_task.py:174-336 | MaxCorrectionsError means either the ledger outgrew the budget, or it holds exactly `max_corrections` rows after a clean attempt. |
| SupervisionProofs.OkWithinBudget | src/simmate/workflow_engine/tasks/supervised_staged_shell_task.py:331-339 | `execute` returns only with fewer rows than `max_corrections`. With a budget of 0 it never returns normally. |
| SupervisionProofs.ProgressBoundsLaunches | src/simmate/workflow_engine/tasks/supervised_staged_shell_task.py:171-174 | When every attempt that finds an error adds a row and the script has room, `execute` launches at most `max_corrections + 1` times, one more than the comment at lines 170-172 states, and never runs out of attempts. |
| SupervisionProofs.PersistentFaultExhaustsBudget | src/simmate/workflow_engine/tasks/supervised_staged_shell_task.py:174-336 | A fault corrected on every attempt leads to `max_corrections + 1` launches and `max_corrections + 1` rows, then MaxCorrectionsError. |
| SupervisionProofs.QuietAttemptIsClean | src/simmate/workflow_engine/tasks/supervised_staged_shell_task.py:194-326 | An attempt with no alarm and a zero exit is clean and leaves the ledger alone. |
| SupervisionProofs.QuietRunSucceedsFirstTime | src/simmate/workflow_engine/tasks/supervised_staged_shell_task.py:324-339 | With no alarms, a zero exit and a budget of at least 1, the command is launched once. The call returns an empty ledger, and the file holds it when saving is on. |
| SupervisionProofs.FlushedFileMatchesLedger | src/simmate/workflow_engine/tasks/supervised_staged_shell_task.py:306-316 | With saving on, the file holds the returned ledger after a normal return, and the final ledger when MaxCorrectionsError is raised after a launch, as the error message says. When NonZeroExitError is raised, it holds the ledger at that point, or nothing if the first launch failed. |
| SupervisionProofs.AttemptIgnoresLedger | src/simmate/workflow_engine/tasks/supervised_staged_shell_task.py:185-300 | Whether an attempt raises, and whether it finds an error, does not depend on the rows recorded so far. |
| SupervisionProofs.SupervisedIntended | src/simmate/workflow_engine/tasks/supervised_staged_shell_task.py:331 | `execute` with the check the error message describes: the same launches, file and ledger as written; only a MaxCorrectionsError with at most `max_corrections` rows becomes a normal return. |
| SupervisionProofs.IntendedBudget | src/simmate/workflow_engine/tasks/supervised_staged_shell_task.py:331-336 | With the check the error message describes, `execute` returns normally if and only if its last launch was a clean attempt. Success stays within `max_corrections` rows. MaxCorrectionsError means the budget was exceeded. |
| Scenarios.NoHandlersCleanExit | src/simmate/workflow_engine/test/test_s3_workflow.py:105-116 | No handlers and a zero exit: one launch, result `[]`. |
| Scenarios.FailingCommandRaises | src/simmate/workflow_engine/test/test_s3_workflow.py:167-181 | A failing command with only a passing handler raises NonZeroExitError at the first launch. Nothing is written. |
| Scenarios.TwoFaultsThenSuccess | src/simmate/workflow_engine/tasks/supervised_staged_shell_task.py:278-326 | A handler that fires after launches 1 and 2 only, followed by a clean launch 3, gives two rows after three launches. |
| Scenarios.TerminatingMonitorKillsThenCorrects | src/simmate/workflow_engine/tasks/supervised_staged_shell_task.py:222-233 | A terminating monitor fires at poll 30 (the default `monitor_freq`) and kills the command. The fault is corrected after the exit. The relaunch is clean. |
| Scenarios.AlwaysFailsEveryAttempt | src/simmate/workflow_engine/test/test_s3_workflow.py:44-49 | `AlwaysFailsHandler` is corrected with "ExampleCorrection" on every attempt. |
| Scenarios.AlwaysFailingHandlerExhaustsBudget | src/simmate/workflow_engine/test/test_s3_workflow.py:184-198 | An always-failing handler under the default budget 5 gives six launches, six rows and MaxCorrectionsError. |
| Scenarios.CleanFinishAtBudgetRaises | src/simmate/workflow_engine/tasks/supervised_staged_shell_task.py:331 | With `max_corrections = 1` and a handler that fires after the first launch only, one correction then a clean launch raises MaxCorrectionsError as written. The intended check returns the ledger. |
| Scenarios.EndlessRelaunch | src/simmate/workflow_engine/tasks/supervised_staged_shell_task.py:230-300 | A terminating monitor whose fault is invisible after the kill relaunches the command without adding a row, until the environment allows no more launches. |
| ChemicalFormulaFilter.FormulaToHtml | src/simmate/website/third_parties/templatetags/chemical_formula_filter.py:12-32 | The loop returns the left-to-right image of the formula given by `Html`. |
| ChemicalFormulaFilter.Html | src/simmate/website/third_parties/templatetags/chemical_formula_filter.py:20-27 | The filter's output defined character by character; it is never shorter than the formula. |
| ChemicalFormulaFilter.IsNumeric | src/simmate/website/third_parties/templatetags/chemical_formula_filter.py:24 | A character counts as numeric exactly when it is one of the ASCII digits "0123456789". |
| ChemicalFormulaFilter.Image | src/simmate/website/third_parties/templatetags/chemical_formula_filter.py:24-26 | A character is wrapped (its image is longer than one character) exactly when it is numeric. |
| ChemicalFormulaFilter.HtmlOfChar | src/simmate/website/third_parties/templatetags/chemical_formula_filter.py:24-25 | A numeric character becomes `<sub>c</sub>`. Any other character is kept. |
| ChemicalFormulaFilter.HtmlAppend | src/simmate/website/third_parties/templatetags/chemical_formula_filter.py:22-27 | The filter maps concatenation to concatenation, so the characters keep their order. |
| ChemicalFormulaFilter.HtmlLength | src/simmate/website/third_parties/templatetags/chemical_formula_filter.py:24-27 | The output is 11 characters longer per numeric character. |
| ChemicalFormulaFilter.HtmlKeepsPlainText | src/simmate/website/third_parties/templatetags/chemical_formula_filter.py:22-27 | A formula without numeric characters is returned unchanged. |
| ChemicalFormulaFilter.HtmlChangesDigits | src/simmate/website/third_parties/templatetags/chemical_formula_filter.py:24-25 | A formula with a numeric character always changes, and so does its output filtered again: the filter is not idempotent. |
| ChemicalFormulaFilter.HtmlCharSurvives | src/simmate/website/third_parties/templatetags/chemical_formula_filter.py:22-27 | Every input character appears in the output. |
| ChemicalFormulaFilter.FormulaExample | src/simmate/website/third_parties/templatetags/chemical_formula_filter.py:14-16 | "Y2CF2" becomes "Y<sub>2</sub>CF<sub>2</sub>", the documented example. |
| EvolutionarySearch.Search.CheckWorkflows | src/simmate/toolkit/structure_prediction/evolutionary_search/search.py:320-358 | The futures become `Checked`, and the fitnesses and structures `Recorded`/`Placed`, of the old state. `njobs_completed` grows by the number of done futures. `njobs_pending` becomes the number of pending ones. |
| EvolutionarySearch.Search.CheckFuture | src/simmate/toolkit/structure_prediction/evolutionary_search/search.py:334-355 | Index i is handled as follows. A done future records its energy and structure, is cleared and counted. A failed one is cleared. A pending one is reported. Nothing else changes. |
| EvolutionarySearch.Checked | src/simmate/toolkit/structure_prediction/evolutionary_search/search.py:330-352 | The futures list after the pass, with every settled future cleared; it keeps its length. |
| EvolutionarySearch.AfterCheck | src/simmate/toolkit/structure_prediction/evolutionary_search/search.py:333-352 | A slot is empty after the pass exactly when it was empty or its future was reported done or errored; otherwise it keeps the same future. |
| EvolutionarySearch.Recorded | src/simmate/toolkit/structure_prediction/evolutionary_search/search.py:336-341 | The fitnesses after the pass, with each done future's final energy recorded; it keeps its length. |
| EvolutionarySearch.Placed | src/simmate/toolkit/structure_prediction/evolutionary_search/search.py:336-343 | The structures after the pass, with each done future's final structure placed; it keeps its length. |
| EvolutionarySearch.CountDone | src/simmate/toolkit/structure_prediction/evolutionary_search/search.py:336-347 | The number of futures reported done; never more than the futures. |
| EvolutionarySearch.CountPending | src/simmate/toolkit/structure_prediction/evolutionary_search/search.py:326-354 | The number of futures reported pending; never more than the futures. |
| EvolutionarySearch.CheckAt | src/simmate/toolkit/structure_prediction/evolutionary_search/search.py:330-355 | Per index: an empty slot is untouched. A done future's result is recorded and its slot cleared. Any other future leaves fitness and structure alone. An errored one is cleared and a pending or unrecognised one is kept. |
| EvolutionarySearch.CheckLeavesTailAlone | src/simmate/toolkit/structure_prediction/evolutionary_search/search.py:330 | Fitnesses and structures beyond the futures list are never touched. |
| EvolutionarySearch.LiveAfterCheck | src/simmate/toolkit/structure_prediction/evolutionary_search/search.py:345-352 | After the pass, the live futures are the old live ones minus those settled. |
| EvolutionarySearch.CountsAreDisjoint | src/simmate/toolkit/structure_prediction/evolutionary_search/search.py:336-354 | Each future is counted at most once, as done or pending. Done futures are among the settled ones. |
| EvolutionarySearch.NothingDoneAfterCheck | src/simmate/toolkit/structure_prediction/evolutionary_search/search.py:345 | No cleared slot can be reported done again. |
| EvolutionarySearch.SecondPassIsQuiet | src/simmate/toolkit/structure_prediction/evolutionary_search/search.py:320-358 | With unchanged executor reports, a second pass clears and records nothing and completes no job. The pending count is unchanged. |
| EvolutionarySearch.CompletedGrowsIffDone | src/simmate/toolkit/structure_prediction/evolutionary_search/search.py:347 | In one pass `njobs_completed` grows exactly when some future is reported done. |
| EvolutionarySearch.InitCommonClass | src/simmate/toolkit/structure_prediction/evolutionary_search/search.py:430-473 | The lists are tried in order. A creator name gives a creator. A transformation name gives a transformation, built with the composition unless it is composition-free. A single-shot name gives nothing. Any other name is an error with the source's message. Each case holds if and only if the name is in its list. |
| EvolutionarySearch.UnknownSourceMessage | src/simmate/toolkit/structure_prediction/evolutionary_search/search.py:469-473 | The error text for an unknown name begins with that name. |
| EvolutionarySearch.SourceNameListsDisjoint | src/simmate/toolkit/structure_prediction/evolutionary_search/search.py:433-466 | No name is in two of the lists, so their order does not matter. |
| EvolutionarySearch.DefaultSteadystateSourcesAreBuilt | src/simmate/toolkit/structure_prediction/evolutionary_search/search.py:46-55 | Every default steady-state source name gives an instance for the composition. |
| EvolutionarySearch.NewSingleshotSources | src/simmate/toolkit/structure_prediction/evolutionary_search/search.py:115-119 | A source is kept if and only if it is requested and was not run before. The result is no longer than the request. |
| EvolutionarySearch.NewSingleshotSourcesAppend | src/simmate/toolkit/structure_prediction/evolutionary_search/search.py:115-119 | The filter distributes over concatenation, so the order is kept. |
| EvolutionarySearch.NewSingleshotSourcesCount | src/simmate/toolkit/structure_prediction/evolutionary_search/search.py:115-119 | A source not run before keeps all its occurrences. One run before keeps none. |
| EvolutionarySearch.NewSingleshotSourcesIdempotent | src/simmate/toolkit/structure_prediction/evolutionary_search/search.py:115-119 | Filtering twice against the same history is the same as filtering once. |
| EvolutionarySearch.NoHistoryKeepsAll | src/simmate/toolkit/structure_prediction/evolutionary_search/search.py:115-119 | With no history, every source is kept in place. |

## Left out

- Process control:
  - Launching the command, `time.sleep(polling_timestep)`, `process.poll()`, `communicate()` and killing the process group (`_terminate_job`) are not modelled.
  - The script of `Attempt`s stands for all of them: how long the process runs and its exit code.
  - A kill is modelled as return code -9.
  - `polling_timestep` is kept as an attribute but has no effect in the model.
- Handler checks and corrections that read or write files are not modelled. The script gives their results per poll.
- `correct` raising is modelled as `None`. Other exceptions from `check` are not modelled.
- `get_directory` is not modelled. The working directory does not appear in the model.
- Prefect's `Task.__init__` keyword arguments and the `defaults_from_attrs` decorator are not modelled, beyond `run` taking a None argument from the attribute of the same name.
- The corrections CSV file is modelled as the list of rows last written, not as text.
- The effects on disk of `make_archive` and `empty_directory` are not modelled. Postprocess records only which of them it asked for.
- The stderr text of NonZeroExitError and the messages of the three exception classes are not modelled.
- Supervision.Outcome: every failure carries the in-memory ledger, which Python discards when it raises. Only the CSV file keeps it there.
- ShellTask.SupervisedStagedShellTask.Valid:
  - `monitor_freq` is kept non-zero by the class invariant; the constructor never overrides it with 0.
  - With a cadence of 0, Python evaluates `monitor_freq_n % self.monitor_freq` (line 222), and so divides by zero, only when `monitor` is on, some handler is a monitor and a poll sees the process still running. Otherwise a zero cadence runs fine; the model excludes it in every case.
- ShellTask.SupervisedStagedShellTask.Run:
  - Python tests structure truthiness; the model tests only whether a structure was given, so an empty structure counts as given.
  - `setup`, `workup` and `postprocess` are the base class's hooks. Subclass overrides are not modelled.
- Supervision.Drive:
  - The loop is bounded by the length of the environment script.
  - A terminating monitor whose fault vanishes after the kill can relaunch without end (`Scenarios.EndlessRelaunch`). The model stops it with `ScriptExhausted` instead of looping forever.
  - A command that never exits cannot be represented: `Attempt.polls` is a natural number, so every attempt's monitor loop ends, while the source's loop at lines 211-253 would poll forever.
- ShellTask.SupervisedStagedShellTask.Execute takes the `command` argument but does not use it: the launch it would be passed to is abstracted into the script of attempts.
- ShellTask.SupervisedStagedShellTask.Execute keeps the budget check as written (`>=`). The corrected check is `SupervisionProofs.SupervisedIntended`, and is not what the class runs.
- ChemicalFormulaFilter.IsNumeric accepts only the ASCII digits '0' to '9'.
  - Python's `str.isnumeric` also accepts other Unicode numeric characters, such as superscripts and fractions.
  - Wrapping the result with Django's `mark_safe` and registering the filter are not modelled.
- EvolutionarySearch.Search.CheckWorkflows:
  - requires the fitness and structure lists to be at least as long as the futures list. Python raises IndexError only when a done future sits at an index past the end of the shorter list; pending or errored futures there raise nothing. That failure is not modelled.
  - The executor is a function `status` from future to report. For a done future, the report holds the result `get_result` returns.
  - Energies are `real`, not floating point.
  - Status strings other than "done", "error" and "pending" are `Unrecognised` and leave the future alone, as the code does.
- EvolutionarySearch.InitCommonClass:
  - `self.composition` is a parameter.
  - The created object is the class name with the composition (or none); the classes' own behaviour is not modelled.
- EvolutionarySearch.NewSingleshotSources:
  - The database query for past single-shot sources is a parameter.
  - The initialisation loop after the filter (source lines 124-131) is not modelled, and neither is the rest of the search: `new_sample`, selectors, triggers and the database.
- EvolutionarySearch.Search.constructor: the source's `__init__` never sets the futures, fitnesses, structures or job counters. The model starts them empty and at 0.
- Randomness, the database and the Prefect executor in the search are not modelled.

## Findings

| source | as written | input that shows it | evidently intended | confidence | as-written member | corrected member |
|---|---|---|---|---|---|---|
| src/simmate/workflow_engine/tasks/supervised_staged_shell_task.py:331 | `if len(corrections) >= self.max_corrections` raises MaxCorrectionsError after a clean final attempt whose ledger holds exactly `max_corrections` rows | `max_corrections = 1`; a handler whose check is truthy after the first launch and falsy after the second, so the first launch is corrected and the second is clean | raise only when the ledger holds more than `max_corrections` rows, that is when "the final error and its fix ... was never used", as the message says | not executed | Scenarios.CleanFinishAtBudgetRaises | SupervisionProofs.IntendedBudget |

The comment at lines 170-172 calls `max_corrections` the maximum number of attempts, but the `<=` guard at line 174 allows one launch more: with a fault corrected on every attempt and `max_corrections = 3`, `execute` makes 4 launches and leaves 4 ledger rows (`SupervisionProofs.ProgressBoundsLaunches`, `SupervisionProofs.PersistentFaultExhaustsBudget`). The error message at lines 333-335 also counts corrections, not attempts, so only the comment disagrees with the code; the model follows the guard.
