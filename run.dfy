/**
 * The simulation run modes (src/sim/run.rs). The source declares only these
 * types; the scheduler that moves between them is not part of this model.
 */
module Run {
  newtype u32 = x: int | 0 <= x < 0x1_0000_0000

  /** Whether the simulation is halted (the default), paused or running. */
  datatype SimState = Halted | Paused | Active

  /** How the next run proceeds: not at all (the default), a number of steps, or continuously. */
  datatype RunType = None | Step(steps: u32) | Continuous

  const DEFAULT_SIM_STATE: SimState := Halted
  const DEFAULT_RUN_TYPE: RunType := None
}
