/**
 * Bookkeeping of the evolutionary structure search: the pass over the
 * submitted workflows, the classification of built-in source names and the
 * removal of single-shot sources that an earlier search already ran.
 */
module EvolutionarySearch {
  import opened Wrappers

  /** A handle to a submitted workflow; the executor is asked about it by handle. */
  type Future = nat

  /** What the executor reports for one future. */
  datatype Status =
    | Done(finalEnergy: real, finalStructure: string)
    | Error
    | Pending
    | Unrecognised(reported: string)

  // ---------------------------------------------------------------------------
  // The pass over the workflow futures
  // ---------------------------------------------------------------------------

  /** A future is settled once the executor reports it done or failed. */
  predicate Settles(s: Status)
  {
    s.Done? || s.Error?
  }

  /** The future an index holds after the pass. */
  function AfterCheck(f: Option<Future>, status: Future -> Status): (r: Option<Future>)
    ensures r.None? <==> f.None? || Settles(status(f.value))
    ensures r.Some? ==> r == f
  {
    if f.Some? && Settles(status(f.value)) then None else f
  }

  /** The futures after the pass: settled ones are cleared. */
  function Checked(fs: seq<Option<Future>>, status: Future -> Status): (r: seq<Option<Future>>)
    ensures |r| == |fs|
  {
    seq(|fs|, i requires 0 <= i < |fs| => AfterCheck(fs[i], status))
  }

  /** Whether index `i` holds a future the executor reports done. */
  predicate DoneAt(fs: seq<Option<Future>>, status: Future -> Status, i: int)
  {
    0 <= i < |fs| && fs[i].Some? && status(fs[i].value).Done?
  }

  /** The fitnesses after the pass: a done future records its final energy. */
  function Recorded(fitnesses: seq<Option<real>>, fs: seq<Option<Future>>, status: Future -> Status): (r: seq<Option<real>>)
    ensures |r| == |fitnesses|
  {
    seq(|fitnesses|, i requires 0 <= i < |fitnesses| =>
      if DoneAt(fs, status, i) then Some(status(fs[i].value).finalEnergy) else fitnesses[i])
  }

  /** The structures after the pass: a done future records its final structure. */
  function Placed(structures: seq<string>, fs: seq<Option<Future>>, status: Future -> Status): (r: seq<string>)
    ensures |r| == |structures|
  {
    seq(|structures|, i requires 0 <= i < |structures| =>
      if DoneAt(fs, status, i) then status(fs[i].value).finalStructure else structures[i])
  }

  /** How many futures the executor reports done. */
  function CountDone(fs: seq<Option<Future>>, status: Future -> Status): (n: nat)
    ensures n <= |fs|
  {
    if |fs| == 0 then 0
    else CountDone(fs[..|fs| - 1], status) + (if DoneAt(fs, status, |fs| - 1) then 1 else 0)
  }

  /** How many futures the executor reports pending. */
  function CountPending(fs: seq<Option<Future>>, status: Future -> Status): (n: nat)
    ensures n <= |fs|
  {
    if |fs| == 0 then 0
    else
      var f := fs[|fs| - 1];
      CountPending(fs[..|fs| - 1], status) + (if f.Some? && status(f.value).Pending? then 1 else 0)
  }

  /** How many futures are reported settled (done or failed). */
  function CountSettled(fs: seq<Option<Future>>, status: Future -> Status): (n: nat)
    ensures n <= |fs|
  {
    if |fs| == 0 then 0
    else
      var f := fs[|fs| - 1];
      CountSettled(fs[..|fs| - 1], status) + (if f.Some? && Settles(status(f.value)) then 1 else 0)
  }

  /** How many indices still hold a future. */
  function CountLive(fs: seq<Option<Future>>): (n: nat)
    ensures n <= |fs|
  {
    if |fs| == 0 then 0 else CountLive(fs[..|fs| - 1]) + (if fs[|fs| - 1].Some? then 1 else 0)
  }

  class Search {
    var workflowFutures: seq<Option<Future>>
    var fitnesses: seq<Option<real>>
    var structures: seq<string>
    var njobsCompleted: int
    var njobsPending: int

    /** A search with no submitted workflows yet. */
    constructor ()
      ensures workflowFutures == [] && fitnesses == [] && structures == []
      ensures njobsCompleted == 0 && njobsPending == 0
    {
      workflowFutures := [];
      fitnesses := [];
      structures := [];
      njobsCompleted := 0;
      njobsPending := 0;
    }

    /**
     * One pass over the futures. `status` stands for the executor: it
     * reports on each future, and for a done one also gives the result.
     */
    method CheckWorkflows(status: Future -> Status)
      requires |workflowFutures| <= |fitnesses| && |workflowFutures| <= |structures|
      modifies this`workflowFutures, this`fitnesses, this`structures, this`njobsCompleted, this`njobsPending
      ensures workflowFutures == Checked(old(workflowFutures), status)
      ensures fitnesses == Recorded(old(fitnesses), old(workflowFutures), status)
      ensures structures == Placed(old(structures), old(workflowFutures), status)
      ensures njobsCompleted == old(njobsCompleted) + CountDone(old(workflowFutures), status)
      ensures njobsPending == CountPending(old(workflowFutures), status)
    {
      ghost var futures0, fitnesses0, structures0 := workflowFutures, fitnesses, structures;
      var pending := 0;
      var i := 0;
      RecordStart(fitnesses0, structures0, status);
      assert futures0[..0] == [] && futures0[0..] == futures0;
      while i < |workflowFutures|
        invariant |workflowFutures| == |futures0| && i <= |futures0|
        invariant workflowFutures == Checked(futures0[..i], status) + futures0[i..]
        invariant fitnesses == Recorded(fitnesses0, futures0[..i], status)
        invariant structures == Placed(structures0, futures0[..i], status)
        invariant njobsCompleted == old(njobsCompleted) + CountDone(futures0[..i], status)
        invariant pending == CountPending(futures0[..i], status)
      {
        CheckStep(futures0, status, i);
        RecordStep(fitnesses0, structures0, futures0, status, i);
        var isPending := CheckFuture(i, status);
        if isPending {
          pending := pending + 1;
        }
        i := i + 1;
      }
      assert futures0[..i] == futures0;
      njobsPending := pending;
    }

    /** The pass at index i: records a done future's result, clears a settled one, reports a pending one. */
    method CheckFuture(i: nat, status: Future -> Status) returns (isPending: bool)
      requires i < |workflowFutures| && i < |fitnesses| && i < |structures|
      modifies this`workflowFutures, this`fitnesses, this`structures, this`njobsCompleted
      ensures workflowFutures == old(workflowFutures)[i := AfterCheck(old(workflowFutures)[i], status)]
      ensures fitnesses == if DoneAt(old(workflowFutures), status, i)
        then old(fitnesses)[i := Some(status(old(workflowFutures)[i].value).finalEnergy)] else old(fitnesses)
      ensures structures == if DoneAt(old(workflowFutures), status, i)
        then old(structures)[i := status(old(workflowFutures)[i].value).finalStructure] else old(structures)
      ensures njobsCompleted == old(njobsCompleted) + if DoneAt(old(workflowFutures), status, i) then 1 else 0
      ensures isPending <==> old(workflowFutures)[i].Some? && status(old(workflowFutures)[i].value).Pending?
    {
      isPending := false;
      var future := workflowFutures[i];
      if future.Some? {
        var s := status(future.value);
        if s.Done? {
          fitnesses := fitnesses[i := Some(s.finalEnergy)];
          structures := structures[i := s.finalStructure];
          workflowFutures := workflowFutures[i := None];
          njobsCompleted := njobsCompleted + 1;
        } else if s.Error? {
          workflowFutures := workflowFutures[i := None];
        } else if s.Pending? {
          isPending := true;
        }
      }
    }
  }

  /** The futures and counters after the first `i + 1` futures, from those after the first `i`. */
  lemma CheckStep(fs: seq<Option<Future>>, status: Future -> Status, i: nat)
    requires i < |fs|
    ensures (Checked(fs[..i], status) + fs[i..])[i] == fs[i]
    ensures Checked(fs[..i + 1], status) + fs[i + 1..]
      == (Checked(fs[..i], status) + fs[i..])[i := AfterCheck(fs[i], status)]
    ensures CountDone(fs[..i + 1], status)
      == CountDone(fs[..i], status) + (if DoneAt(fs, status, i) then 1 else 0)
    ensures CountPending(fs[..i + 1], status)
      == CountPending(fs[..i], status) + (if fs[i].Some? && status(fs[i].value).Pending? then 1 else 0)
  {
    assert fs[..i + 1][..i] == fs[..i];
  }

  /** Before the pass, no fitness or structure has been recorded. */
  lemma RecordStart(fitnesses: seq<Option<real>>, structures: seq<string>, status: Future -> Status)
    ensures Recorded(fitnesses, [], status) == fitnesses
    ensures Placed(structures, [], status) == structures
  {
    forall j | 0 <= j < |fitnesses| ensures Recorded(fitnesses, [], status)[j] == fitnesses[j] {
      assert !DoneAt([], status, j);
    }
    forall j | 0 <= j < |structures| ensures Placed(structures, [], status)[j] == structures[j] {
      assert !DoneAt([], status, j);
    }
  }

  /** The records after the first `i + 1` futures, from those after the first `i`. */
  lemma RecordStep(fitnesses: seq<Option<real>>, structures: seq<string>, fs: seq<Option<Future>>,
                   status: Future -> Status, i: nat)
    requires i < |fs| && |fs| <= |fitnesses| && |fs| <= |structures|
    ensures Recorded(fitnesses, fs[..i + 1], status)
      == if DoneAt(fs, status, i)
         then Recorded(fitnesses, fs[..i], status)[i := Some(status(fs[i].value).finalEnergy)]
         else Recorded(fitnesses, fs[..i], status)
    ensures Placed(structures, fs[..i + 1], status)
      == if DoneAt(fs, status, i)
         then Placed(structures, fs[..i], status)[i := status(fs[i].value).finalStructure]
         else Placed(structures, fs[..i], status)
  {
    var before, after := fs[..i], fs[..i + 1];
    var fit := Recorded(fitnesses, before, status);
    var fit' := if DoneAt(fs, status, i) then fit[i := Some(status(fs[i].value).finalEnergy)] else fit;
    forall j | 0 <= j < |fitnesses| ensures Recorded(fitnesses, after, status)[j] == fit'[j] {
      assert DoneAt(after, status, j) <==> DoneAt(before, status, j) || (j == i && DoneAt(fs, status, i));
    }
    var st := Placed(structures, before, status);
    var st' := if DoneAt(fs, status, i) then st[i := status(fs[i].value).finalStructure] else st;
    forall j | 0 <= j < |structures| ensures Placed(structures, after, status)[j] == st'[j] {
      assert DoneAt(after, status, j) <==> DoneAt(before, status, j) || (j == i && DoneAt(fs, status, i));
    }
  }

  // ---------------------------------------------------------------------------
  // What one pass does, index by index, and what a second pass does
  // ---------------------------------------------------------------------------

  /** The pass, read at one index: cleared slots are skipped, done and failed futures are cleared. */
  lemma CheckAt(fs: seq<Option<Future>>, fitnesses: seq<Option<real>>, structures: seq<string>,
                status: Future -> Status, i: nat)
    requires i < |fs| && |fs| <= |fitnesses| && |fs| <= |structures|
    ensures fs[i].None? ==>
      Checked(fs, status)[i] == None && Recorded(fitnesses, fs, status)[i] == fitnesses[i]
      && Placed(structures, fs, status)[i] == structures[i]
    ensures fs[i].Some? && status(fs[i].value).Done? ==>
      Checked(fs, status)[i] == None
      && Recorded(fitnesses, fs, status)[i] == Some(status(fs[i].value).finalEnergy)
      && Placed(structures, fs, status)[i] == status(fs[i].value).finalStructure
    ensures fs[i].Some? && !status(fs[i].value).Done? ==>
      Recorded(fitnesses, fs, status)[i] == fitnesses[i] && Placed(structures, fs, status)[i] == structures[i]
    ensures fs[i].Some? && status(fs[i].value).Error? ==> Checked(fs, status)[i] == None
    ensures fs[i].Some? && !Settles(status(fs[i].value)) ==> Checked(fs, status)[i] == fs[i]
  {
    assert DoneAt(fs, status, i) <==> fs[i].Some? && status(fs[i].value).Done?;
  }

  /** Fitnesses and structures at indices without a future are never touched. */
  lemma CheckLeavesTailAlone(fs: seq<Option<Future>>, fitnesses: seq<Option<real>>, structures: seq<string>,
                             status: Future -> Status)
    ensures forall j :: |fs| <= j < |fitnesses| ==> Recorded(fitnesses, fs, status)[j] == fitnesses[j]
    ensures forall j :: |fs| <= j < |structures| ==> Placed(structures, fs, status)[j] == structures[j]
  {
    forall j | |fs| <= j < |fitnesses| ensures Recorded(fitnesses, fs, status)[j] == fitnesses[j] {
      assert !DoneAt(fs, status, j);
    }
    forall j | |fs| <= j < |structures| ensures Placed(structures, fs, status)[j] == structures[j] {
      assert !DoneAt(fs, status, j);
    }
  }

  /** After the pass, the indices still holding a future are exactly those not settled. */
  lemma {:induction false} LiveAfterCheck(fs: seq<Option<Future>>, status: Future -> Status)
    ensures CountLive(Checked(fs, status)) == CountLive(fs) - CountSettled(fs, status)
    ensures CountSettled(fs, status) <= CountLive(fs)
  {
    if |fs| > 0 {
      var front := fs[..|fs| - 1];
      assert Checked(fs, status)[..|fs| - 1] == Checked(front, status);
      LiveAfterCheck(front, status);
    }
  }

  /** Every future is counted at most once, as done, as pending or as neither. */
  lemma {:induction false} CountsAreDisjoint(fs: seq<Option<Future>>, status: Future -> Status)
    ensures CountDone(fs, status) + CountPending(fs, status) <= CountLive(fs)
    ensures CountDone(fs, status) <= CountSettled(fs, status)
  {
    if |fs| > 0 {
      CountsAreDisjoint(fs[..|fs| - 1], status);
    }
  }

  /** A cleared future is never reported done. */
  lemma NothingDoneAfterCheck(fs: seq<Option<Future>>, status: Future -> Status)
    ensures forall i :: !DoneAt(Checked(fs, status), status, i)
  {
  }

  /**
   * With the executor's reports unchanged, a second pass changes nothing:
   * no slot is cleared or recorded again, no job is counted as completed
   * again, and the pending count stays the same.
   */
  lemma SecondPassIsQuiet(fs: seq<Option<Future>>, fitnesses: seq<Option<real>>,
                          structures: seq<string>, status: Future -> Status)
    ensures Checked(Checked(fs, status), status) == Checked(fs, status)
    ensures Recorded(fitnesses, Checked(fs, status), status) == fitnesses
    ensures Placed(structures, Checked(fs, status), status) == structures
    ensures CountDone(Checked(fs, status), status) == 0
    ensures CountPending(Checked(fs, status), status) == CountPending(fs, status)
  {
    NothingDoneAfterCheck(fs, status);
    SecondPassCounts(fs, status);
  }

  lemma {:induction false} SecondPassCounts(fs: seq<Option<Future>>, status: Future -> Status)
    ensures CountDone(Checked(fs, status), status) == 0
    ensures CountPending(Checked(fs, status), status) == CountPending(fs, status)
  {
    if |fs| > 0 {
      var front := fs[..|fs| - 1];
      assert Checked(fs, status)[..|fs| - 1] == Checked(front, status);
      SecondPassCounts(front, status);
    }
  }

  /** The completed counter grows in a pass exactly when some future is reported done. */
  lemma CompletedGrowsIffDone(fs: seq<Option<Future>>, status: Future -> Status)
    ensures CountDone(fs, status) > 0 <==> exists i :: DoneAt(fs, status, i)
  {
    if CountDone(fs, status) > 0 {
      DoneWitness(fs, status);
    } else if exists i :: DoneAt(fs, status, i) {
      var i :| DoneAt(fs, status, i);
      DoneCounted(fs, status, i);
    }
  }

  lemma {:induction false} DoneWitness(fs: seq<Option<Future>>, status: Future -> Status)
    requires CountDone(fs, status) > 0
    ensures exists i :: DoneAt(fs, status, i)
  {
    if !DoneAt(fs, status, |fs| - 1) {
      var front := fs[..|fs| - 1];
      DoneWitness(front, status);
      var i :| DoneAt(front, status, i);
      assert DoneAt(fs, status, i);
    }
  }

  lemma {:induction false} DoneCounted(fs: seq<Option<Future>>, status: Future -> Status, i: int)
    requires DoneAt(fs, status, i)
    ensures CountDone(fs, status) > 0
  {
    if i < |fs| - 1 {
      var front := fs[..|fs| - 1];
      assert DoneAt(front, status, i);
      DoneCounted(front, status, i);
    }
  }

  // ---------------------------------------------------------------------------
  // Built-in source names
  // ---------------------------------------------------------------------------

  /** A built-in source instantiated for the search's composition. */
  datatype Source =
    | Creator(name: string, composition: string)
    | Transformation(name: string, compositionArg: Option<string>)

  const CreatorNames: seq<string> := ["RandomSymStructure", "PyXtalStructure"]

  const TransformationNames: seq<string> := [
    "HeredityASE", "SoftMutationASE", "MirrorMutationASE", "LatticeStrainASE",
    "RotationalMutationASE", "AtomicPermutationASE", "CoordinatePerturbationASE"
  ]

  /** Transformations built without the composition; there are none yet. */
  const CompositionFreeTransformationNames: seq<string> := []

  /** Single-shot sources that are recognised but not implemented: they yield nothing. */
  const SingleshotNames: seq<string> := [
    "prototypes_aflow", "substitution", "third_party_structures", "third_party_substitution"
  ]

  /** The names of the default steady-state sources of a new search. */
  const DefaultSteadystateNames: seq<string> := [
    "PyXtalStructure", "HeredityASE", "SoftMutationASE", "MirrorMutationASE",
    "LatticeStrainASE", "RotationalMutationASE", "AtomicPermutationASE", "CoordinatePerturbationASE"
  ]

  /** The error an unknown name raises. */
  function UnknownSourceMessage(name: string): (m: string)
    ensures name < m
  {
    name + " is not recognized as a common input. Make sure you"
    + "don't have any typos, and if you are using a custom class, provide"
    + "your input as an object."
  }

  /** Turns a built-in source name into a source, trying the name lists in order. */
  function InitCommonClass(name: string, composition: string): (r: Result<Option<Source>, string>)
    ensures r.Success? && r.value.Some? && r.value.value.Creator? <==> name in CreatorNames
    ensures r.Success? && r.value.Some? && r.value.value.Transformation? <==>
      name !in CreatorNames && (name in TransformationNames || name in CompositionFreeTransformationNames)
    ensures r.Success? && r.value.None? <==>
      name !in CreatorNames && name !in TransformationNames && name in SingleshotNames
    ensures r.Failure? <==>
      name !in CreatorNames && name !in TransformationNames && name !in SingleshotNames
    ensures r.Success? && r.value.Some? ==> r.value.value.name == name
    ensures r.Success? && r.value.Some? && name !in CompositionFreeTransformationNames ==>
      (r.value.value.Creator? ==> r.value.value.composition == composition)
      && (r.value.value.Transformation? ==> r.value.value.compositionArg == Some(composition))
    ensures r.Failure? ==> r.error == UnknownSourceMessage(name)
  {
    if name in CreatorNames then Success(Some(Creator(name, composition)))
    else if name in TransformationNames then Success(Some(Transformation(name, Some(composition))))
    else if name in CompositionFreeTransformationNames then Success(Some(Transformation(name, None)))
    else if name == "prototypes_aflow" then Success(None)
    else if name == "substitution" then Success(None)
    else if name == "third_party_structures" then Success(None)
    else if name == "third_party_substitution" then Success(None)
    else Failure(UnknownSourceMessage(name))
  }

  /** No name is in two lists, so the order in which they are tried does not matter. */
  lemma SourceNameListsDisjoint()
    ensures forall name :: name in CreatorNames ==> name !in TransformationNames && name !in SingleshotNames
    ensures forall name :: name in TransformationNames ==> name !in SingleshotNames
  {
  }

  /** Every default steady-state source name yields an instance for the composition. */
  lemma DefaultSteadystateSourcesAreBuilt(composition: string)
    ensures forall name :: name in DefaultSteadystateNames ==>
      InitCommonClass(name, composition).Success? && InitCommonClass(name, composition).value.Some?
  {
    forall name | name in DefaultSteadystateNames
      ensures InitCommonClass(name, composition).Success? && InitCommonClass(name, composition).value.Some?
    {
      assert name in CreatorNames || name in TransformationNames;
    }
  }

  // ---------------------------------------------------------------------------
  // Single-shot sources not run before
  // ---------------------------------------------------------------------------

  /** The single-shot sources still to run, given those an earlier search already ran. */
  function NewSingleshotSources(sources: seq<string>, past: seq<string>): (r: seq<string>)
    ensures forall s :: s in r <==> s in sources && s !in past
    ensures |r| <= |sources|
  {
    if |sources| == 0 then []
    else (if sources[0] in past then [] else [sources[0]]) + NewSingleshotSources(sources[1..], past)
  }

  /** The filter keeps the order of the sources: it distributes over concatenation. */
  lemma {:induction false} NewSingleshotSourcesAppend(a: seq<string>, b: seq<string>, past: seq<string>)
    ensures NewSingleshotSources(a + b, past) == NewSingleshotSources(a, past) + NewSingleshotSources(b, past)
  {
    if |a| > 0 {
      var head := if a[0] in past then [] else [a[0]];
      assert (a + b)[0] == a[0] && (a + b)[1..] == a[1..] + b;
      NewSingleshotSourcesAppend(a[1..], b, past);
      calc {
        NewSingleshotSources(a + b, past);
        head + NewSingleshotSources(a[1..] + b, past);
        head + (NewSingleshotSources(a[1..], past) + NewSingleshotSources(b, past));
        (head + NewSingleshotSources(a[1..], past)) + NewSingleshotSources(b, past);
      }
    } else {
      assert a + b == b;
    }
  }

  /** A source not run before keeps every one of its occurrences; one run before keeps none. */
  lemma {:induction false} NewSingleshotSourcesCount(sources: seq<string>, past: seq<string>, s: string)
    ensures multiset(NewSingleshotSources(sources, past))[s] == if s in past then 0 else multiset(sources)[s]
  {
    if |sources| > 0 {
      assert sources == [sources[0]] + sources[1..];
      NewSingleshotSourcesCount(sources[1..], past, s);
    }
  }

  /** Filtering twice against the same history is filtering once. */
  lemma {:induction false} NewSingleshotSourcesIdempotent(sources: seq<string>, past: seq<string>)
    ensures NewSingleshotSources(NewSingleshotSources(sources, past), past) == NewSingleshotSources(sources, past)
  {
    if |sources| > 0 {
      var head := if sources[0] in past then [] else [sources[0]];
      var rest := NewSingleshotSources(sources[1..], past);
      NewSingleshotSourcesIdempotent(sources[1..], past);
      NewSingleshotSourcesAppend(head, rest, past);
      assert NewSingleshotSources(head, past) == head by {
        if head != [] {
          assert head[1..] == [];
        }
      }
    }
  }

  /** With no history, every source is kept in place. */
  lemma {:induction false} NoHistoryKeepsAll(sources: seq<string>)
    ensures NewSingleshotSources(sources, []) == sources
  {
    if |sources| > 0 {
      NoHistoryKeepsAll(sources[1..]);
    }
  }
}
