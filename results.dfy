/** Outcomes of the solver: a value, or the error that aborts one simulation run. */
module Results {

  /** The ways one run of the solver stops without producing output. */
  datatype SolverError =
    | InvalidBoundTransition  // the collapsing bound rose above its base value (the source's `assert`)
    | ChannelOutsideGrid      // the in-bounds sub-grid is empty, so its last element cannot be read
    | KernelIndexOutOfRange   // a psychophysical-kernel lookup past the end of the kernel

  datatype Result<+T> = Ok(value: T) | Err(error: SolverError)

  datatype Option<+T> = None | Some(value: T)
}
