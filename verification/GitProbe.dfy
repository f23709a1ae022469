/** How a bounded Git invocation ends, and what a producer may conclude from it. */
module GitProbe {
  import opened Common

  datatype ExitStatus = Code(code: int) | Signal(number: int)

  datatype ProcessOutput = ProcessOutput(status: Option<ExitStatus>, timedOut: bool)

  datatype ProbeFailure = TimedOut | Killed | Unobserved

  /** Whether an invocation completed and succeeded; without a status there is no such fact. */
  function GitCompletedSuccessfully(o: ProcessOutput): Result<bool, ProbeFailure> {
    if o.timedOut then Err(TimedOut)
    else
      match o.status
      case Some(status) => Ok(status == Code(0))
      case None => Err(Killed)
  }

  /** What may come of running a probe; it need not even start, or its output may be lost. */
  datatype Ending = Ran(output: ProcessOutput) | NeverObserved

  const CLEAN_EXIT := Ran(ProcessOutput(Some(Code(0)), false))

  /**
   * The status a probe reports about a yes-or-no question. A process that would otherwise exit
   * cleanly exits with a failure when the answer is no.
   */
  function Ask(ending: Ending, answer: bool): Result<bool, ProbeFailure> {
    match ending
    case NeverObserved => Err(Unobserved)
    case Ran(output) =>
      GitCompletedSuccessfully(
        if output.status == Some(Code(0)) && !answer then output.(status := Some(Code(1))) else output)
  }

  /** A probe that timed out, or whose status never arrived. */
  predicate Lost(ending: Ending) {
    ending.NeverObserved? || ending.output.timedOut || ending.output.status.None?
  }

  /** A probe that ended without exiting cleanly, but did end: a failing exit code, or a signal. */
  predicate Broken(ending: Ending) {
    !Lost(ending) && ending != CLEAN_EXIT
  }

  /** A probe some other process killed: it has a status, and no exit code of its own. */
  predicate Signalled(ending: Ending) {
    !Lost(ending) && ending.output.status.value.Signal?
  }

  /** A lost probe gives no answer; a yes is only ever said of what is so. */
  lemma LostProbesDoNotAnswer(ending: Ending, answer: bool)
    ensures Ask(ending, answer).Err? <==> Lost(ending)
    ensures Ask(ending, answer) == Ok(true) ==> answer
    ensures Ask(ending, answer) == Ok(false) <==> !Lost(ending) && (!answer || Broken(ending))
  {
  }

  /**
   * What counts as killed is a missing status. A probe that some other process killed has one,
   * and is read as a plain no even when the answer is yes.
   */
  lemma SignalledProbeReadsAsNo(number: int)
    ensures Ask(Ran(ProcessOutput(Some(Signal(number)), false)), true) == Ok(false)
  {
  }
}
