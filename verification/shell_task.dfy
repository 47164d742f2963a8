/**
 * SupervisedStagedShellTask: a shell command run between a setup and a workup
 * hook, supervised by error handlers that may fix its inputs and retry it.
 */
module ShellTask {
  import opened Wrappers
  import opened Handlers
  import opened Supervision

  /** The input structure; the task only ever tests whether one was given. */
  type Structure = string

  /** The class attributes a subclass sets as its defaults. */
  datatype Defaults = Defaults(
    command: Option<string>,
    requiresStructure: bool,
    errorHandlers: seq<Handler>,
    maxCorrections: int,
    monitor: bool,
    pollingTimestep: int,
    monitorFreq: int)

  /** The keyword arguments of the constructor; None where the caller left the default. */
  datatype InitArgs = InitArgs(
    structure: Option<Structure>,
    command: Option<string>,
    errorHandlers: Option<seq<Handler>>,
    maxCorrections: Option<int>,
    monitor: Option<bool>,
    pollingTimestep: Option<int>,
    monitorFreq: Option<int>,
    saveCorrectionsToFile: bool,
    correctionsFilename: string,
    emptyDirectoryOnFinish: bool,
    filesToKeep: seq<string>,
    compressOutput: bool)

  /** The hooks a run has called, in order. */
  datatype Stage = SetupRan | ExecuteRan | WorkupRan | PostprocessRan(archived: bool, emptied: bool)

  /** What `run` returns or raises. */
  datatype TaskResult =
    | Completed(result: Option<string>, corrections: seq<Correction>)
    | StructureRequired
    | Failed(error: Outcome)

  /**
   * The attributes after the constructor. A keyword overrides its class
   * default only when it is truthy, except max_corrections and
   * polling_timestep, which override whenever they are given (0 included).
   */
  function Overridden(d: Defaults, args: InitArgs): (s: Defaults)
    ensures s.requiresStructure == d.requiresStructure
    ensures args.maxCorrections.Some? ==> s.maxCorrections == args.maxCorrections.value
    ensures args.maxCorrections.None? ==> s.maxCorrections == d.maxCorrections
    ensures args.pollingTimestep.Some? ==> s.pollingTimestep == args.pollingTimestep.value
    ensures args.pollingTimestep.None? ==> s.pollingTimestep == d.pollingTimestep
    ensures s.monitor <==> d.monitor || args.monitor == Some(true)
    ensures args.monitorFreq == Some(0) || args.monitorFreq.None? ==> s.monitorFreq == d.monitorFreq
    ensures args.monitorFreq.Some? && args.monitorFreq.value != 0 ==> s.monitorFreq == args.monitorFreq.value
    ensures d.monitorFreq != 0 ==> s.monitorFreq != 0
    ensures args.errorHandlers == Some([]) || args.errorHandlers.None? ==> s.errorHandlers == d.errorHandlers
    ensures args.errorHandlers.Some? && args.errorHandlers.value != [] ==> s.errorHandlers == args.errorHandlers.value
    ensures args.command == Some("") || args.command.None? ==> s.command == d.command
    ensures args.command.Some? && args.command.value != "" ==> s.command == args.command
  {
    Defaults(
      command := if args.command.Some? && args.command.value != "" then args.command else d.command,
      requiresStructure := d.requiresStructure,
      errorHandlers :=
        if args.errorHandlers.Some? && args.errorHandlers.value != [] then args.errorHandlers.value
        else d.errorHandlers,
      maxCorrections := if args.maxCorrections.Some? then args.maxCorrections.value else d.maxCorrections,
      monitor := if args.monitor == Some(true) then true else d.monitor,
      pollingTimestep := if args.pollingTimestep.Some? then args.pollingTimestep.value else d.pollingTimestep,
      monitorFreq :=
        if args.monitorFreq.Some? && args.monitorFreq.value != 0 then args.monitorFreq.value
        else d.monitorFreq)
  }

  /** The for-loop over a priority-ordered handler list that stops at the first truthy check. */
  method ScanHandlers(hs: seq<Handler>, check: Handler -> bool) returns (hit: Option<nat>)
    ensures hit == FirstMatch(hs, check)
  {
    var i := 0;
    while i < |hs|
      invariant i <= |hs|
      invariant forall j :: 0 <= j < i ==> !check(hs[j])
    {
      if check(hs[i]) {
        return Some(i);
      }
      i := i + 1;
    }
    return None;
  }

  /** How the main loop of `execute` ended: an error raised inside it, or falling out of it with the ledger. */
  datatype LoopExit = Raised(outcome: Outcome) | FellThrough(ledger: seq<Correction>)

  class SupervisedStagedShellTask {
    var command: Option<string>
    var structure: Option<Structure>
    var requiresStructure: bool
    var errorHandlers: seq<Handler>
    var maxCorrections: int
    var monitor: bool
    var pollingTimestep: int
    var monitorFreq: int
    var saveCorrectionsToFile: bool
    var correctionsFilename: string
    var emptyDirectoryOnFinish: bool
    var filesToKeep: seq<string>
    var compressOutput: bool
    /** The monitors among the error handlers, set by Execute. */
    var monitors: seq<Handler>
    /** The rows of the corrections CSV file as last written. */
    var correctionsFile: seq<Correction>
    /** The hooks called so far, in order. */
    var stages: seq<Stage>

    /** The monitor cadence is never 0, so `monitor_freq_n % monitor_freq` never divides by zero. */
    ghost predicate Valid()
      reads this`monitorFreq
    {
      monitorFreq != 0
    }

    /** The attributes the constructor may override. */
    function Attributes(): (d: Defaults)
      reads this`command, this`requiresStructure, this`errorHandlers, this`maxCorrections, this`monitor,
            this`pollingTimestep, this`monitorFreq
    {
      Defaults(command, requiresStructure, errorHandlers, maxCorrections, monitor, pollingTimestep, monitorFreq)
    }

    /** The settings `execute` reads. */
    function Settings(): (cfg: Config)
      reads this`errorHandlers, this`maxCorrections, this`monitor, this`monitorFreq, this`saveCorrectionsToFile
    {
      Config(errorHandlers, maxCorrections, monitor, monitorFreq, saveCorrectionsToFile)
    }

    constructor (defaults: Defaults, args: InitArgs)
      requires defaults.monitorFreq != 0
      ensures Valid()
      ensures Attributes() == Overridden(defaults, args)
      ensures structure == args.structure
      ensures saveCorrectionsToFile == args.saveCorrectionsToFile
      ensures correctionsFilename == args.correctionsFilename
      ensures emptyDirectoryOnFinish == args.emptyDirectoryOnFinish
      ensures filesToKeep == args.filesToKeep
      ensures compressOutput == args.compressOutput
      ensures monitors == [] && correctionsFile == [] && stages == []
    {
      var s := Overridden(defaults, args);
      command := s.command;
      requiresStructure := s.requiresStructure;
      errorHandlers := s.errorHandlers;
      maxCorrections := s.maxCorrections;
      monitor := s.monitor;
      pollingTimestep := s.pollingTimestep;
      monitorFreq := s.monitorFreq;
      structure := args.structure;
      saveCorrectionsToFile := args.saveCorrectionsToFile;
      correctionsFilename := args.correctionsFilename;
      emptyDirectoryOnFinish := args.emptyDirectoryOnFinish;
      filesToKeep := args.filesToKeep;
      compressOutput := args.compressOutput;
      monitors := [];
      correctionsFile := [];
      stages := [];
    }

    /**
     * The monitor while-loop of one attempt: poll every polling_timestep, leave
     * when the process has exited, and on every monitorFreq-th poll run the
     * monitors in priority order; the first truthy check ends the monitoring.
     */
    method MonitorProcess(a: Attempt) returns (ended: MonitorEnd)
      requires Valid()
      ensures ended == MonitorFrom(monitors, monitorFreq, a, 0)
    {
      ended := Exited;
      var hasError := false;
      var n: nat := 0;
      while !hasError
        invariant n <= a.polls
        invariant !hasError ==> MonitorFrom(monitors, monitorFreq, a, n) == MonitorFrom(monitors, monitorFreq, a, 0)
        invariant hasError ==> ended == MonitorFrom(monitors, monitorFreq, a, 0)
        invariant !hasError ==> ended == Exited
        decreases a.polls - n + (if hasError then 0 else 1)
      {
        ghost var before := n;
        n := n + 1;
        if n > a.polls {
          // process.poll() reports the exit
          assert MonitorFrom(monitors, monitorFreq, a, before) == Exited;
          break;
        }
        if n % monitorFreq == 0 {
          var hit := ScanHandlers(monitors, a.checkAt(n));
          if hit.Some? {
            var h := monitors[hit.value];
            if h.isTerminating {
              // _terminate_job kills the process group; the fix waits for the post-exit pass
              ended := Killed(h, n);
            } else {
              var correction := a.correctAt(n)(h);
              ended := if correction.None? then Aborted(h, n) else Fixed(h, n, Correction(h.name, correction.value));
            }
            hasError := true;
          }
        }
      }
    }

    /**
     * One pass of the main loop body: launch, monitor when enabled and there
     * are monitors, raise on a non-zero exit that no monitor explains, then
     * correct only the first handler in priority order whose check is truthy.
     */
    method RunAttempt(a: Attempt, corrections: seq<Correction>) returns (step: Step)
      requires Valid() && monitors == Monitors(errorHandlers)
      ensures step == Attempted(Settings(), a, corrections)
    {
      var ledger := corrections;
      var hasError := false;
      var ended := Exited;
      if monitor && monitors != [] {
        ended := MonitorProcess(a);
        match ended
        case Aborted(h, _) =>
          return Stop(HandlerAborted(h.name, ledger));
        case Fixed(_, _, entry) =>
          ledger := ledger + [entry];
          hasError := true;
        case Killed(_, _) =>
          hasError := true;
        case Exited =>
      }
      assert ended == Monitoring(Settings(), a);
      var returnCode := if ended.Killed? then KilledReturnCode else a.exitCode;
      if returnCode != 0 && !hasError {
        return Stop(NonZeroExit(returnCode, ledger));
      }
      var hit := ScanHandlers(errorHandlers, a.checkAfter);
      if hit.Some? {
        hasError := true;
        var h := errorHandlers[hit.value];
        var correction := a.correctAfter(h);
        if correction.None? {
          return Stop(HandlerAborted(h.name, ledger));
        }
        ledger := ledger + [Correction(h.name, correction.value)];
      }
      return Continue(ledger, hasError);
    }

    /**
     * The main retry loop: run attempts while an error was found and the
     * ledger is within the budget, writing the corrections file after each
     * attempt that did not raise. `attempts` and `flushed` are the launches
     * made and the ledger last written, as Supervised counts them.
     */
    method MainLoop(script: seq<Attempt>) returns (exit: LoopExit, ghost attempts: nat, ghost flushed: Option<seq<Correction>>)
      requires Valid() && monitors == Monitors(errorHandlers)
      modifies this`correctionsFile
      ensures exit.Raised? ==> Supervised(Settings(), script) == Trace(exit.outcome, attempts, flushed)
      ensures exit.FellThrough? ==>
                Supervised(Settings(), script) == Trace(Budget(exit.ledger, maxCorrections), attempts, flushed)
      ensures correctionsFile == match flushed case Some(rows) => rows case None => old(correctionsFile)
    {
      ghost var cfg := Settings();
      flushed := None;
      var corrections: seq<Correction> := [];
      var k := 0;
      while |corrections| <= maxCorrections
        invariant k <= |script|
        invariant correctionsFile == match flushed case Some(rows) => rows case None => old(correctionsFile)
        invariant Loop(cfg, script, k, corrections, flushed) == Supervised(cfg, script)
        decreases |script| - k
      {
        if k == |script| {
          return Raised(ScriptExhausted(corrections)), k, flushed;
        }
        var step := RunAttempt(script[k], corrections);
        if step.Stop? {
          return Raised(step.outcome), k + 1, flushed;
        }
        corrections := step.ledger;
        if saveCorrectionsToFile {
          correctionsFile := corrections;
          flushed := Some(corrections);
        }
        k := k + 1;
        if !step.hasError {
          break;
        }
      }
      return FellThrough(corrections), k, flushed;
    }

    /**
     * `execute`: pick out the monitors, run the main loop, then raise
     * MaxCorrections when the ledger has reached max_corrections.
     */
    method Execute(command: Option<string>, script: seq<Attempt>) returns (outcome: Outcome)
      requires Valid()
      modifies this`monitors, this`correctionsFile
      ensures Valid() && monitors == Monitors(errorHandlers)
      ensures outcome == Supervised(Settings(), script).outcome
      ensures correctionsFile == match Supervised(Settings(), script).flushed
                                 case Some(rows) => rows
                                 case None => old(correctionsFile)
    {
      monitors := Monitors(errorHandlers);
      var exit, attempts, flushed := MainLoop(script);
      match exit
      case Raised(o) =>
        outcome := o;
      case FellThrough(corrections) =>
        outcome := if |corrections| >= maxCorrections then MaxCorrections(corrections) else Ok(corrections);
    }

    /** The setup hook; the base class does nothing but is called before the command. */
    method Setup(structure: Option<Structure>)
      modifies this`stages
      ensures stages == old(stages) + [SetupRan]
    {
      stages := stages + [SetupRan];
    }

    /** The workup hook; the base class returns None as the task's result. */
    method Workup() returns (result: Option<string>)
      modifies this`stages
      ensures stages == old(stages) + [WorkupRan] && result == None
    {
      stages := stages + [WorkupRan];
      result := None;
    }

    /** Archives and/or empties the working directory, as the two flags request. */
    method Postprocess()
      modifies this`stages
      ensures stages == old(stages) + [PostprocessRan(compressOutput, emptyDirectoryOnFinish)]
    {
      stages := stages + [PostprocessRan(compressOutput, emptyDirectoryOnFinish)];
    }

    /**
     * The stages after the structure check: setup, execute, and, when execute
     * returned, workup and postprocess; an error raised by execute ends the task.
     */
    method Stages(given: Option<Structure>, command: Option<string>, script: seq<Attempt>) returns (r: TaskResult)
      requires Valid()
      modifies this`monitors, this`correctionsFile, this`stages
      ensures Valid()
      ensures var o := Supervised(Settings(), script).outcome;
              && r == (if o.Ok? then Completed(None, o.corrections) else Failed(o))
              && stages == old(stages) + [SetupRan, ExecuteRan] +
                           (if o.Ok? then [WorkupRan, PostprocessRan(compressOutput, emptyDirectoryOnFinish)] else [])
              && monitors == Monitors(errorHandlers)
              && correctionsFile == match Supervised(Settings(), script).flushed
                                    case Some(rows) => rows
                                    case None => old(correctionsFile)
    {
      Setup(given);
      stages := stages + [ExecuteRan];
      var outcome := Execute(command, script);
      if !outcome.Ok? {
        return Failed(outcome);
      }
      var result := Workup();
      Postprocess();
      return Completed(result, outcome.corrections);
    }

    /**
     * The whole task: refuse to start without a required structure, then
     * setup, execute, workup and postprocess, each exactly once, returning the
     * workup result with the corrections. An argument left None takes the
     * task's attribute of the same name.
     */
    method Run(structure: Option<Structure>, command: Option<string>, script: seq<Attempt>) returns (r: TaskResult)
      requires Valid()
      modifies this`monitors, this`correctionsFile, this`stages
      ensures Valid()
      ensures var given := if structure.Some? then structure else this.structure;
              given.None? && requiresStructure ==>
                && r == StructureRequired && stages == old(stages)
                && correctionsFile == old(correctionsFile) && monitors == old(monitors)
      ensures var given := if structure.Some? then structure else this.structure;
              var o := Supervised(Settings(), script).outcome;
              !(given.None? && requiresStructure) ==>
                r == (if o.Ok? then Completed(None, o.corrections) else Failed(o)) &&
                stages == old(stages) + [SetupRan, ExecuteRan] +
                          (if o.Ok? then [WorkupRan, PostprocessRan(compressOutput, emptyDirectoryOnFinish)] else []) &&
                monitors == Monitors(errorHandlers) &&
                correctionsFile == match Supervised(Settings(), script).flushed
                                   case Some(rows) => rows
                                   case None => old(correctionsFile)
    {
      var given := if structure.Some? then structure else this.structure;
      var cmd := if command.Some? then command else this.command;
      if given.None? && requiresStructure {
        return StructureRequired;
      }
      r := Stages(given, cmd, script);
    }
  }
}
