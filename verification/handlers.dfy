/**
 * Error handlers of a supervised shell task: their identity flags, the rows of
 * the corrections ledger, and the two priority scans the supervisor performs
 * over an ordered handler list.
 */
module Handlers {
  import opened Wrappers

  /**
   * An error handler as the supervisor sees it. `isMonitor` handlers may also
   * check the working directory while the command is still running;
   * `isTerminating` handlers need the process group killed before their fix.
   * What `check` and `correct` return is supplied by the environment script
   * (see module Supervision), since it depends on files this model does not see.
   */
  datatype Handler = Handler(name: string, isMonitor: bool, isTerminating: bool)

  /** One ledger row: (applied_errorhandler, correction_applied). */
  datatype Correction = Correction(handler: string, applied: string)

  /**
   * The position of the highest-priority handler whose check is truthy, or
   * None when no handler reports an error. Handlers are in priority order.
   */
  function FirstMatch(hs: seq<Handler>, check: Handler -> bool): (r: Option<nat>)
    ensures r.Some? ==> r.value < |hs| && check(hs[r.value])
    ensures r.Some? ==> forall j :: 0 <= j < r.value ==> !check(hs[j])
    ensures r.None? <==> forall j :: 0 <= j < |hs| ==> !check(hs[j])
  {
    if |hs| == 0 then None
    else if check(hs[0]) then Some(0)
    else match FirstMatch(hs[1..], check)
      case None => None
      case Some(i) => Some(i + 1)
  }

  /**
   * The handler a scan that breaks at the first truthy check stops at: the
   * earliest one in priority order.
   */
  function FirstMatching(hs: seq<Handler>, check: Handler -> bool): (r: Option<Handler>)
    ensures r.Some? ==> r.value in hs && check(r.value)
    ensures r.Some? ==> exists i :: 0 <= i < |hs| && hs[i] == r.value && forall j :: 0 <= j < i ==> !check(hs[j])
    ensures r.None? ==> forall h :: h in hs ==> !check(h)
  {
    match FirstMatch(hs, check)
    case None => None
    case Some(i) => Some(hs[i])
  }

  /** The monitors: the handlers flagged `isMonitor`, in their priority order. */
  function Monitors(hs: seq<Handler>): (ms: seq<Handler>)
    ensures |ms| <= |hs|
  {
    if |hs| == 0 then []
    else (if hs[0].isMonitor then [hs[0]] else []) + Monitors(hs[1..])
  }

  /** The monitors are exactly the handlers flagged `isMonitor`. */
  lemma {:induction false} MonitorsAreFlagged(hs: seq<Handler>)
    ensures forall h :: h in Monitors(hs) <==> h in hs && h.isMonitor
  {
    if |hs| > 0 {
      MonitorsAreFlagged(hs[1..]);
      assert hs == [hs[0]] + hs[1..];
    }
  }

  /** Filtering distributes over concatenation, so the monitors keep their relative order. */
  lemma {:induction false} MonitorsDistribute(a: seq<Handler>, b: seq<Handler>)
    ensures Monitors(a + b) == Monitors(a) + Monitors(b)
  {
    if |a| > 0 {
      assert (a + b)[1..] == a[1..] + b;
      MonitorsDistribute(a[1..], b);
    } else {
      assert a + b == b;
    }
  }

  /** A monitor's alarm: the handler is a monitor and its check is truthy. */
  function MonitorAlarm(check: Handler -> bool): (alarm: Handler -> bool)
  {
    (h: Handler) => h.isMonitor && check(h)
  }

  /**
   * Scanning the monitors list finds the same handler as scanning the whole
   * priority list for the first monitor whose check is truthy.
   */
  lemma MonitorsKeepPriority(hs: seq<Handler>, check: Handler -> bool)
    ensures FirstMatching(Monitors(hs), check) == FirstMatching(hs, MonitorAlarm(check))
  {
    MonitorsKeepPriorityAt(hs, check);
  }

  /** MonitorsKeepPriority, stated on positions. */
  lemma {:induction false} MonitorsKeepPriorityAt(hs: seq<Handler>, check: Handler -> bool)
    ensures var p, q := FirstMatch(Monitors(hs), check), FirstMatch(hs, MonitorAlarm(check));
      p.None? == q.None? && (p.Some? ==> Monitors(hs)[p.value] == hs[q.value])
  {
    if |hs| > 0 {
      var alarm := MonitorAlarm(check);
      var rest := Monitors(hs[1..]);
      MonitorsKeepPriorityAt(hs[1..], check);
      if alarm(hs[0]) {
        assert Monitors(hs) == [hs[0]] + rest;
        assert FirstMatch(Monitors(hs), check) == Some(0);
        assert FirstMatch(hs, alarm) == Some(0);
      } else {
        var q := FirstMatch(hs[1..], alarm);
        assert FirstMatch(hs, alarm) == if q.None? then None else Some(q.value + 1);
        if hs[0].isMonitor {
          assert Monitors(hs) == [hs[0]] + rest;
          assert Monitors(hs)[1..] == rest;
          var p := FirstMatch(rest, check);
          assert FirstMatch(Monitors(hs), check) == if p.None? then None else Some(p.value + 1);
        } else {
          assert Monitors(hs) == rest;
        }
      }
    }
  }
}
