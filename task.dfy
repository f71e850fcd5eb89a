/** Experiment-specific changes to the drift over time (`f_mu1_task`). */
module TaskPerturbation {
  import opened Results

  /** Length of a stimulus pulse, in seconds. */
  const PulseDuration: real := 0.1
  /** Pulse height as a fraction of the reference drift mu_0. */
  const PulseGain: real := 0.15

  /** The four tasks, each with its own parameter. */
  datatype Task =
    | FixedDuration
    | PsychoPhysicalKernel(kernel: seq<real>)  // drift per coarse time bin of width dtPK
    | DurationParadigm(duration: real)         // stimulus switched off after this time
    | PulseParadigm(onset: real)               // pulse starts at this time

  /** Python's `int()` on a float: truncation toward zero. */
  function Truncate(r: real): (n: int)
    ensures r >= 0.0 ==> n == r.Floor
    ensures r < 0.0 ==> r <= n as real < r + 1.0
    ensures -1.0 < r - n as real < 1.0
    ensures (r >= 0.0 ==> 0 <= n) && (r <= 0.0 ==> n <= 0)
  {
    if r >= 0.0 then r.Floor else -((-r).Floor)
  }

  /** Python's `s[i]` on a list: negative indices count from the end, others fail. */
  function PyIndex(s: seq<real>, i: int): (r: Option<real>)
    ensures r.Some? <==> -|s| <= i < |s|
    ensures 0 <= i < |s| ==> r == Some(s[i])
    ensures -|s| <= i < 0 ==> r == Some(s[|s| + i])
  {
    if 0 <= i < |s| then Some(s[i])
    else if -|s| <= i < 0 then Some(s[|s| + i])
    else None
  }

  /**
   * The change in drift at time t in a task (`f_mu1_task`). muBase is the base drift
   * the duration task cancels, mu0 the reference drift the pulse is scaled from,
   * dtPK the time bin of the kernel.
   */
  function TaskDrift(task: Task, t: real, muBase: real, mu0: real, dtPK: real): Result<real>
    requires dtPK > 0.0
  {
    match task
    case FixedDuration => Ok(0.0)
    case PsychoPhysicalKernel(kernel) =>
      (match PyIndex(kernel, Truncate(t / dtPK))
       case Some(v) => Ok(v)
       case None => Err(KernelIndexOutOfRange))
    case DurationParadigm(duration) => if t < duration then Ok(0.0) else Ok(-muBase)
    case PulseParadigm(onset) =>
      if t > onset && t < onset + PulseDuration then Ok(mu0 * PulseGain) else Ok(0.0)
  }

  /**
   * The drift used for the step at time t: the base drift plus the task's change.
   * Fixed duration leaves it alone; the duration task switches the drift off entirely
   * from its duration on; a pulse raises it only strictly inside its window; the
   * kernel task reads the bin that t falls in.
   */
  function EffectiveDrift(task: Task, t: real, muBase: real, mu0: real, dtPK: real): (r: Result<real>)
    requires dtPK > 0.0
    ensures task.FixedDuration? ==> r == Ok(muBase)
    ensures task.DurationParadigm? && t < task.duration ==> r == Ok(muBase)
    ensures task.DurationParadigm? && t >= task.duration ==> r == Ok(0.0)
    ensures task.PulseParadigm? ==>
              r == Ok(if task.onset < t < task.onset + PulseDuration then muBase + mu0 * PulseGain else muBase)
    ensures task.PsychoPhysicalKernel? ==>
              (r.Ok? <==> -|task.kernel| <= Truncate(t / dtPK) < |task.kernel|)
    ensures task.PsychoPhysicalKernel? && t >= 0.0 && r.Ok? ==>
              r.value == muBase + task.kernel[(t / dtPK).Floor]
  {
    match TaskDrift(task, t, muBase, mu0, dtPK)
    case Ok(d) => Ok(muBase + d)
    case Err(e) => Err(e)
  }

  /** A pulse is off at both ends of its window: the window is open. */
  lemma PulseWindowIsOpen(onset: real, muBase: real, mu0: real, dtPK: real)
    requires dtPK > 0.0
    ensures EffectiveDrift(PulseParadigm(onset), onset, muBase, mu0, dtPK) == Ok(muBase)
    ensures EffectiveDrift(PulseParadigm(onset), onset + PulseDuration, muBase, mu0, dtPK) == Ok(muBase)
  {
  }
}
