/**
 * The process supervisor: the escalation loop that waits for the child to
 * exit while a timeout timer and an optional kill-after timer run, and the
 * entry points built on it.
 *
 * Goroutines, the multiplexed wait and the wall-clock timers are replaced
 * by a finite trace of events, one per case the wait selects, in the order
 * it selects them.
 */
module Supervisor {
  import opened Wrappers
  import opened SignalPolicy
  import opened ExitClassifier

  /** The configuration of one invocation; durations are nanoseconds. */
  datatype Timeout = Timeout(duration: int, killAfter: int, signal: Option<Signal>, foreground: bool)
  {
    /** The signal sent on timeout, given the operating system the program runs on. */
    function ResolvedSignal(goos: string): (sig: Signal)
      ensures signal.Some? ==> sig == signal.value
      ensures signal.None? ==> (sig == Interrupt <==> goos == "windows")
      ensures signal.None? ==> (sig == Sigterm <==> goos != "windows")
    {
      if signal.None? then DefaultSignal(goos) else signal.value
    }
  }

  /** A configured signal wins; otherwise the platform default applies. */
  lemma ResolvedSignalChoice(tio: Timeout, goos: string)
    ensures tio.signal.Some? ==> tio.ResolvedSignal(goos) == tio.signal.value
    ensures tio.signal.None? && goos == "windows" ==> tio.ResolvedSignal(goos) == Interrupt
    ensures tio.signal.None? && goos != "windows" ==> tio.ResolvedSignal(goos) == Sigterm
  {
    DefaultSignalByPlatform(goos);
  }

  /** The child's wait result as decoded by the platform: exit code and whether a signal ended it. */
  datatype WaitStatus = WaitStatus(code: int, signaled: bool)

  /**
   * One case chosen by the wait. A process exit carries the wait result,
   * or None when it could not be decoded.
   */
  datatype Event = ProcessExit(wait: Option<WaitStatus>) | TimerTimeout | TimerKill

  /** The event sources the wait listens on. */
  datatype Source = ExitSource | TimeoutSource | KillSource

  function SourceOf(e: Event): Source
  {
    match e
    case ProcessExit(_) => ExitSource
    case TimerTimeout => TimeoutSource
    case TimerKill => KillSource
  }

  /** The cases the loop waits on; the kill-after timer is armed only for a positive KillAfter. */
  function Cases(killAfter: int): (cs: seq<Source>)
    ensures ExitSource in cs && TimeoutSource in cs
    ensures KillSource in cs <==> killAfter > 0
  {
    [ExitSource, TimeoutSource] + (if killAfter > 0 then [KillSource] else [])
  }

  /**
   * The traces the wait can deliver: only armed cases are chosen, and each
   * timer delivers at most one value.
   */
  predicate Feasible(killAfter: int, events: seq<Event>)
  {
    (forall j :: 0 <= j < |events| ==> SourceOf(events[j]) in Cases(killAfter)) &&
    Count(events, TimerTimeout) <= 1 &&
    Count(events, TimerKill) <= 1
  }

  /**
   * The timeout timer fires before the kill-after timer. The timers are
   * scheduled that way, but the wait chooses arbitrarily among ready
   * cases, so this is an assumption about a trace, not a guarantee.
   */
  predicate TimeoutPrecedesKill(events: seq<Event>)
  {
    forall j :: 0 <= j < |events| && events[j].TimerKill? ==>
      exists i :: 0 <= i < j && events[i].TimerTimeout?
  }

  /** How many times a value occurs in a sequence. */
  function Count<T(==)>(s: seq<T>, x: T): nat
  {
    if s == [] then 0
    else Count(s[..|s| - 1], x) + (if s[|s| - 1] == x then 1 else 0)
  }

  /** Counting distributes over concatenation. */
  lemma {:induction false} CountConcat<T>(a: seq<T>, b: seq<T>, x: T)
    ensures Count(a + b, x) == Count(a, x) + Count(b, x)
  {
    if b != [] {
      var n := |b| - 1;
      CountConcat(a, b[..n], x);
      assert (a + b)[..|a + b| - 1] == a + b[..n];
    } else {
      assert a + b == a;
    }
  }

  /** The side effects escalation performs on the child. */
  datatype Action =
    | Terminate    // the configured signal, to the child or its process group
    | KillAll      // SIGKILL to the child or its process group
    | ProcessKill  // the direct kill of the child's process handle

  /** A value delivered once, or a wait that never ends. */
  datatype Wait<T> = Done(value: T) | Blocked

  /** The index of the first process exit, or the length of the trace when there is none. */
  function FirstExit(events: seq<Event>): (k: nat)
    ensures k <= |events|
    ensures forall j :: 0 <= j < k ==> !events[j].ProcessExit?
    ensures k < |events| ==> events[k].ProcessExit?
  {
    if events == [] then 0
    else if events[0].ProcessExit? then 0
    else 1 + FirstExit(events[1..])
  }

  /** The phase left by the last escalation event among those handled; Normal if there is none. */
  function PhaseAfter(handled: seq<Event>): ExitType
  {
    if handled == [] then Normal
    else match handled[|handled| - 1]
      case TimerTimeout => TimedOut
      case TimerKill => Killed
      case ProcessExit(_) => PhaseAfter(handled[..|handled| - 1])
  }

  /** What one event makes the supervisor do: terminate, or the group kill followed by the direct kill. */
  function ActionsOf(e: Event): seq<Action>
  {
    match e
    case ProcessExit(_) => []
    case TimerTimeout => [Terminate]
    case TimerKill => [KillAll, ProcessKill]
  }

  /** The actions performed while handling a sequence of events, in order. */
  function Actions(handled: seq<Event>): seq<Action>
  {
    if handled == [] then []
    else Actions(handled[..|handled| - 1]) + ActionsOf(handled[|handled| - 1])
  }

  /** The status built on exit: the decoded wait result, or code 0 and not signaled. */
  function Finish(wait: Option<WaitStatus>, phase: ExitType): ExitStatus
  {
    match wait
    case Some(st) => ExitStatus(st.code, st.signaled, phase)
    case None => ExitStatus(0, false, phase)
  }

  /**
   * What the loop delivers for a trace: nothing until the child exits;
   * then the wait result with the phase reached before the exit.
   */
  function Outcome(events: seq<Event>): Wait<ExitStatus>
  {
    var k := FirstExit(events);
    if k == |events| then Blocked
    else Done(Finish(events[k].wait, PhaseAfter(events[..k])))
  }

  /**
   * The escalation loop. It returns only when the child exits; a timeout
   * sends the termination signal and sets TimedOut; the kill-after timer
   * kills the group, then the process itself, and sets Killed.
   */
  method HandleTimeout(tio: Timeout, events: seq<Event>) returns (result: Wait<ExitStatus>, log: seq<Action>)
    requires Feasible(tio.killAfter, events)
    ensures result == Outcome(events)
    ensures log == Actions(events[..FirstExit(events)])
  {
    var ex := ZeroStatus;
    log := [];
    var i := 0;
    while i < |events|
      invariant i <= FirstExit(events)
      invariant ex == ZeroStatus.(typ := PhaseAfter(events[..i]))
      invariant log == Actions(events[..i])
    {
      HandleOne(events, i);
      match events[i] {
        case ProcessExit(wait) =>
          if wait.Some? {
            ex := ex.(code := wait.value.code, signaled := wait.value.signaled);
          }
          assert FirstExit(events) == i;
          return Done(ex), log;
        case TimerTimeout =>
          log := log + [Terminate];
          ex := ex.(typ := TimedOut);
        case TimerKill =>
          log := log + [KillAll];
          // the direct kill backs up the group kill in case the group signal missed the process
          log := log + [ProcessKill];
          ex := ex.(typ := Killed);
      }
      i := i + 1;
    }
    assert events[..i] == events;
    result := Blocked;
  }

  /** Handling one more event: its actions are appended and a timer sets its phase. */
  lemma HandleOne(events: seq<Event>, i: nat)
    requires i < |events|
    ensures Actions(events[..i + 1]) == Actions(events[..i]) + ActionsOf(events[i])
    ensures events[i].TimerTimeout? ==> PhaseAfter(events[..i + 1]) == TimedOut
    ensures events[i].TimerKill? ==> PhaseAfter(events[..i + 1]) == Killed
  {
    assert events[..i + 1][..i] == events[..i];
  }

  // ---------------------------------------------------------------------
  // Properties of the escalation loop
  // ---------------------------------------------------------------------

  /** A status is delivered exactly when the child exits somewhere in the trace. */
  lemma OutcomeDeliveredIffExit(events: seq<Event>)
    ensures Outcome(events).Done? <==> exists j :: 0 <= j < |events| && events[j].ProcessExit?
  {
  }

  /** Without a kill-after event the group is never killed and the phase never reaches Killed. */
  lemma {:induction false} NoKillWithoutKillEvent(handled: seq<Event>)
    requires forall j :: 0 <= j < |handled| ==> !handled[j].TimerKill?
    ensures PhaseAfter(handled) != Killed
    ensures KillAll !in Actions(handled) && ProcessKill !in Actions(handled)
  {
    if handled != [] {
      NoKillWithoutKillEvent(handled[..|handled| - 1]);
    }
  }

  /** Each timeout sends one termination signal; each kill-after event one group kill and one direct kill. */
  lemma {:induction false} ActionCounts(handled: seq<Event>)
    ensures Count(Actions(handled), Terminate) == Count(handled, TimerTimeout)
    ensures Count(Actions(handled), KillAll) == Count(handled, TimerKill)
    ensures Count(Actions(handled), ProcessKill) == Count(handled, TimerKill)
  {
    if handled != [] {
      var n := |handled| - 1;
      ActionCounts(handled[..n]);
      var e := handled[n];
      CountConcat(Actions(handled[..n]), ActionsOf(e), Terminate);
      CountConcat(Actions(handled[..n]), ActionsOf(e), KillAll);
      CountConcat(Actions(handled[..n]), ActionsOf(e), ProcessKill);
      ActionsOfCounts(e);
    }
  }

  /** The actions for one event, counted. */
  lemma ActionsOfCounts(e: Event)
    ensures Count(ActionsOf(e), Terminate) == (if e.TimerTimeout? then 1 else 0)
    ensures Count(ActionsOf(e), KillAll) == (if e.TimerKill? then 1 else 0)
    ensures Count(ActionsOf(e), ProcessKill) == (if e.TimerKill? then 1 else 0)
  {
    assert [Terminate][..0] == [] && [KillAll, ProcessKill][..1] == [KillAll] && [KillAll][..0] == [];
  }

  /** Every group kill is immediately followed by the direct kill of the process. */
  lemma {:induction false} KillAllThenProcessKill(handled: seq<Event>)
    ensures forall j :: 0 <= j < |Actions(handled)| && Actions(handled)[j] == KillAll ==>
      j + 1 < |Actions(handled)| && Actions(handled)[j + 1] == ProcessKill
  {
    if handled != [] {
      KillAllThenProcessKill(handled[..|handled| - 1]);
    }
  }

  /** A value found at some position occurs at least once. */
  lemma {:induction false} CountAtPosition<T>(s: seq<T>, x: T, i: nat)
    requires i < |s| && s[i] == x
    ensures Count(s, x) >= 1
  {
    if i < |s| - 1 {
      CountAtPosition(s[..|s| - 1], x, i);
    }
  }

  /** A value found at two distinct positions occurs at least twice. */
  lemma TwoOccurrences<T>(s: seq<T>, x: T, i: nat, j: nat)
    requires i < j < |s| && s[i] == x && s[j] == x
    ensures Count(s, x) >= 2
  {
    assert s == s[..j] + s[j..];
    CountConcat(s[..j], s[j..], x);
    CountAtPosition(s[..j], x, i);
    CountAtPosition(s[j..], x, 0);
  }

  /** The actions taken before the exit, and the phase, are bounded as the trace allows. */
  lemma EscalationBounds(killAfter: int, events: seq<Event>)
    requires Feasible(killAfter, events)
    ensures var log := Actions(events[..FirstExit(events)]);
      Count(log, Terminate) <= 1 && Count(log, KillAll) <= 1 && Count(log, ProcessKill) <= 1
    ensures killAfter <= 0 ==>
      KillAll !in Actions(events[..FirstExit(events)]) && ProcessKill !in Actions(events[..FirstExit(events)]) &&
      PhaseAfter(events[..FirstExit(events)]) != Killed
  {
    var k := FirstExit(events);
    ActionCounts(events[..k]);
    assert events == events[..k] + events[k..];
    CountConcat(events[..k], events[k..], TimerTimeout);
    CountConcat(events[..k], events[k..], TimerKill);
    if killAfter <= 0 {
      forall j | 0 <= j < k ensures !events[..k][j].TimerKill? {
        assert SourceOf(events[j]) in Cases(killAfter);
      }
      NoKillWithoutKillEvent(events[..k]);
    }
  }

  /** Before the first exit every handled event is a timer, so the phase is that of the last one. */
  lemma PhaseOfTimerPrefix(events: seq<Event>, i: nat)
    requires 0 < i <= FirstExit(events)
    ensures PhaseAfter(events[..i]) == if events[i - 1].TimerKill? then Killed else TimedOut
  {
    assert events[..i][i - 1] == events[i - 1];
  }

  /**
   * When the timeout precedes the kill-after event, escalation only moves
   * forward: Normal, then TimedOut, then Killed.
   */
  lemma PhaseMonotone(killAfter: int, events: seq<Event>, i: nat, j: nat)
    requires Feasible(killAfter, events) && TimeoutPrecedesKill(events)
    requires i <= j <= FirstExit(events)
    ensures Rank(PhaseAfter(events[..i])) <= Rank(PhaseAfter(events[..j]))
  {
    if 0 < i < j {
      PhaseOfTimerPrefix(events, i);
      PhaseOfTimerPrefix(events, j);
      if events[i - 1].TimerKill? && !events[j - 1].TimerKill? {
        // the timeout that preceded the kill and the one at j - 1 would be two timeouts
        var m :| 0 <= m < i - 1 && events[m].TimerTimeout?;
        TwoOccurrences(events, TimerTimeout, m, j - 1);
        assert false;
      }
    }
  }

  /**
   * When the timeout precedes the kill-after event, the reported phase is
   * Killed exactly when the kill-after timer fired before the exit,
   * TimedOut when only the timeout did, and Normal when the child exited
   * before either.
   */
  lemma FinalPhase(killAfter: int, events: seq<Event>)
    requires Feasible(killAfter, events) && TimeoutPrecedesKill(events)
    ensures var handled := events[..FirstExit(events)];
      (PhaseAfter(handled) == Killed <==> TimerKill in handled) &&
      (PhaseAfter(handled) == TimedOut <==> TimerTimeout in handled && TimerKill !in handled) &&
      (PhaseAfter(handled) == Normal <==> FirstExit(events) == 0)
  {
    var k := FirstExit(events);
    var handled := events[..k];
    if k > 0 {
      PhaseOfTimerPrefix(events, k);
      assert handled[k - 1] == events[k - 1];
      if events[k - 1].TimerKill? {
        assert TimerKill in handled;
      } else {
        assert TimerTimeout in handled;
        if TimerKill in handled {
          var j :| 0 <= j < k && handled[j] == TimerKill;
          var m :| 0 <= m < j && events[m].TimerTimeout?;
          TwoOccurrences(events, TimerTimeout, m, k - 1);
          assert false;
        }
      }
    }
  }

  /**
   * Without the ordering assumption the phase can move backwards: when the
   * wait picks the kill-after timer before the timeout timer, the child is
   * killed but the run reports TimedOut and code 124.
   */
  lemma ReversedTimersReportTimedOut(code: int)
    ensures var events := [TimerKill, TimerTimeout, ProcessExit(Some(WaitStatus(code, true)))];
      Feasible(1, events) &&
      Outcome(events) == Done(ExitStatus(code, true, TimedOut)) &&
      Outcome(events).value.GetExitCode() == ExitTimedOut &&
      Actions(events[..FirstExit(events)]) == [KillAll, ProcessKill, Terminate]
  {
    var events := [TimerKill, TimerTimeout, ProcessExit(Some(WaitStatus(code, true)))];
    assert events[1..] == [TimerTimeout, ProcessExit(Some(WaitStatus(code, true)))];
    assert events[1..][1..] == [ProcessExit(Some(WaitStatus(code, true)))];
    assert FirstExit(events[1..][1..]) == 0;
    assert FirstExit(events[1..]) == 1;
    assert FirstExit(events) == 2;
    assert events[..2] == [TimerKill, TimerTimeout];
    assert events[..2][..1] == [TimerKill] && events[..1] == [TimerKill] && events[..1][..0] == [];
    assert Count(events[..1], TimerKill) == 1 && Count(events[..1], TimerTimeout) == 0;
    assert Count(events[..2], TimerKill) == 1 && Count(events[..2], TimerTimeout) == 1;
    assert Actions(events[..1]) == [KillAll, ProcessKill];
    assert Actions(events[..2]) == Actions(events[..1]) + [Terminate];
  }

  /**
   * The code a command-line user sees, for a trace where the timeout
   * precedes the kill-after event: 137 once killed, 124 once only timed
   * out, the child's own code otherwise.
   */
  lemma ReportedExitCode(killAfter: int, events: seq<Event>)
    requires Feasible(killAfter, events) && TimeoutPrecedesKill(events)
    requires Outcome(events).Done?
    ensures var handled := events[..FirstExit(events)];
      var ex := Outcome(events).value;
      (TimerKill in handled ==> ex.GetExitCode() == ExitKilled) &&
      (TimerTimeout in handled && TimerKill !in handled ==> ex.GetExitCode() == ExitTimedOut) &&
      (FirstExit(events) == 0 ==> ex.GetExitCode() == ex.GetChildExitCode()) &&
      ex.GetChildExitCode() == (if events[FirstExit(events)].wait.Some? then events[FirstExit(events)].wait.value.code else 0)
  {
    FinalPhase(killAfter, events);
  }

  // ---------------------------------------------------------------------
  // Entry points
  // ---------------------------------------------------------------------

  /** Whether starting the child succeeded; a failure carries the exit code resolved for it. */
  datatype Start = Started | StartFailed(resolvedCode: int)

  /**
   * Starts the child and runs the escalation loop. On a spawn failure the
   * loop never runs and the error carries the resolved exit code; nothing
   * is delivered then.
   */
  method RunCommand(tio: Timeout, start: Start, events: seq<Event>)
    returns (delivered: Wait<ExitStatus>, log: seq<Action>, err: Option<Error>)
    requires Feasible(tio.killAfter, events)
    ensures start.StartFailed? ==> err == Some(Error(start.resolvedCode)) && delivered == Blocked && log == []
    ensures start.Started? ==> err == None && delivered == Outcome(events)
    ensures start.Started? ==> log == Actions(events[..FirstExit(events)])
  {
    if start.StartFailed? {
      return Blocked, [], Some(Error(start.resolvedCode));
    }
    delivered, log := HandleTimeout(tio, events);
    err := None;
  }

  /**
   * The buffered entry point: on a spawn failure the zero status and the
   * error; otherwise the status the loop delivers.
   */
  method Run(tio: Timeout, start: Start, events: seq<Event>) returns (status: Wait<ExitStatus>, err: Option<Error>)
    requires Feasible(tio.killAfter, events)
    ensures start.StartFailed? ==> status == Done(ZeroStatus) && err == Some(Error(start.resolvedCode))
    ensures start.Started? ==> status == Outcome(events) && err == None
  {
    var delivered, _, e := RunCommand(tio, start, events);
    if e.Some? {
      return Done(ZeroStatus), e;
    }
    return delivered, None;
  }

  /**
   * The streaming entry point, reduced to its exit code: 125 when a pipe
   * cannot be set up, the spawn error's code when the child cannot start,
   * and otherwise the child's own code or the escalation-aware code.
   */
  method RunSimple(tio: Timeout, stdoutPipeOk: bool, stderrPipeOk: bool, start: Start,
                   events: seq<Event>, preserveStatus: bool) returns (code: Wait<int>)
    requires Feasible(tio.killAfter, events)
    ensures !stdoutPipeOk || !stderrPipeOk ==> code == Done(ExitUnknownErr)
    ensures stdoutPipeOk && stderrPipeOk && start.StartFailed? ==> code == Done(start.resolvedCode)
    ensures stdoutPipeOk && stderrPipeOk && start.Started? ==>
      (code.Done? <==> Outcome(events).Done?) &&
      (code.Done? ==> code.value == if preserveStatus then Outcome(events).value.GetChildExitCode()
                                    else Outcome(events).value.GetExitCode())
  {
    if !stdoutPipeOk {
      return Done(ExitUnknownErr);
    }
    if !stderrPipeOk {
      return Done(ExitUnknownErr);
    }
    var delivered, _, err := RunCommand(tio, start, events);
    if err.Some? {
      return Done(GetExitCodeFromErr(Some(TimeoutError(err.value))));
    }
    match delivered
    case Blocked =>
      code := Blocked;
    case Done(exitSt) =>
      if preserveStatus {
        code := Done(exitSt.GetChildExitCode());
      } else {
        code := Done(exitSt.GetExitCode());
      }
  }
}
