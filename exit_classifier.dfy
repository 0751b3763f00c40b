/**
 * The outcome of one supervised run: the child's own exit code, whether a
 * signal ended it, and how far the supervisor had to escalate before it
 * exited. The reported codes follow GNU timeout.
 */
module ExitClassifier {
  import opened Wrappers

  // Exit codes shared with GNU timeout.
  const ExitNormal: int := 0
  const ExitTimedOut: int := 124
  const ExitUnknownErr: int := 125
  const ExitKilled: int := 137

  /** How far escalation went: not at all, the timeout signal, or the forced kill. */
  datatype ExitType = Normal | TimedOut | Killed

  /** The order in which escalation passes through the phases. */
  function Rank(t: ExitType): nat
  {
    match t
    case Normal => 0
    case TimedOut => 1
    case Killed => 2
  }

  /** What a run reports once the child has exited; `typ` is hidden from callers. */
  datatype ExitStatus = ExitStatus(code: int, signaled: bool, typ: ExitType)
  {
    /** Escalation reached the timeout signal (a forced kill comes after it). */
    predicate IsTimedOut()
      ensures IsTimedOut() <==> Rank(typ) >= Rank(TimedOut)
    {
      typ == TimedOut || typ == Killed
    }

    /** The forced kill was sent; it only ever follows the timeout signal. */
    predicate IsKilled()
      ensures IsKilled() ==> IsTimedOut()
      ensures IsKilled() <==> Rank(typ) == Rank(Killed)
    {
      typ == Killed
    }

    /** The code a command-line tool exits with. */
    function GetExitCode(): (r: int)
      ensures IsKilled() ==> r == ExitKilled
      ensures IsTimedOut() && !IsKilled() ==> r == ExitTimedOut
      ensures r != code ==> IsTimedOut() && (r == ExitTimedOut || r == ExitKilled)
    {
      if IsKilled() then ExitKilled
      else if IsTimedOut() then ExitTimedOut
      else code
    }

    /** The code of the child itself, whatever the supervisor did. */
    function GetChildExitCode(): (r: int)
      ensures !IsTimedOut() ==> r == GetExitCode()
      ensures forall t: ExitType :: this.(typ := t).code == r
    {
      code
    }
  }

  /** The zero value of ExitStatus: code 0, not signaled, no escalation. */
  const ZeroStatus := ExitStatus(0, false, Normal)

  /** The package's own error: a spawn failure with the exit code resolved for it. */
  datatype Error = Error(exitCode: int)

  /** A non-nil error value as the package inspects it: its own *Error, or anything else. */
  datatype GoError = TimeoutError(err: Error) | OtherError

  /** The exit code to report for an error returned by RunCommand; None is Go's nil. */
  function GetExitCodeFromErr(err: Option<GoError>): (r: int)
    ensures err.None? ==> r == ExitNormal
    ensures err.Some? && err.value.TimeoutError? ==> r == err.value.err.exitCode
    ensures err == Some(OtherError) ==> r == -1
  {
    match err
    case None => ExitNormal
    case Some(TimeoutError(e)) => e.exitCode
    case Some(OtherError) => -1
  }

  /** The reported code is fixed by the phase: 137 once killed, 124 once timed out, else the child's. */
  lemma ExitCodeByPhase(ex: ExitStatus)
    ensures ex.typ == Killed ==> ex.GetExitCode() == ExitKilled
    ensures ex.typ == TimedOut ==> ex.GetExitCode() == ExitTimedOut
    ensures ex.typ == Normal ==> ex.GetExitCode() == ex.code
  {
  }

  /**
   * When the child's own code is not one of the two reserved codes, the
   * reported code tells exactly how far escalation went.
   */
  lemma ExitCodeRevealsPhase(ex: ExitStatus)
    requires ex.code != ExitTimedOut && ex.code != ExitKilled
    ensures ex.GetExitCode() == ExitKilled <==> ex.typ == Killed
    ensures ex.GetExitCode() == ExitTimedOut <==> ex.typ == TimedOut
    ensures ex.GetExitCode() == ex.GetChildExitCode() <==> ex.typ == Normal
  {
  }

  /** The child's code does not depend on the phase. */
  lemma ChildExitCodeIgnoresPhase(ex: ExitStatus, t: ExitType)
    ensures ex.(typ := t).GetChildExitCode() == ex.GetChildExitCode() == ex.code
  {
  }

  /** Killed implies timed out; timed out holds exactly when some escalation happened. */
  lemma KilledImpliesTimedOut(ex: ExitStatus)
    ensures ex.IsKilled() ==> ex.IsTimedOut()
    ensures ex.IsTimedOut() <==> ex.typ != Normal
    ensures ex.IsTimedOut() <==> Rank(ex.typ) >= Rank(TimedOut)
    ensures ex.IsKilled() <==> Rank(ex.typ) == Rank(Killed)
  {
  }

  /** nil maps to 0, the package's own error to its exit code, any other error to -1. */
  lemma ExitCodeFromErrCases(err: Option<GoError>)
    ensures err.None? ==> GetExitCodeFromErr(err) == ExitNormal
    ensures err.Some? && err.value.TimeoutError? ==> GetExitCodeFromErr(err) == err.value.err.exitCode
    ensures err == Some(OtherError) ==> GetExitCodeFromErr(err) == -1
  {
  }
}
