/** Vocabulary shared by every module: optional values, instants and the configuration. */
module Base {

  datatype Option<+T> = None | Some(value: T)

  /** An instant in nanoseconds. The zero time.Time is 0; clock readings are positive. */
  type Time = int

  const ZERO_TIME: Time := 0

  /** The switches of CheckConfig. */
  datatype Checks = Checks(
    pods: bool, events: bool, logs: bool, workloads: bool, scaling: bool,
    resourceUsage: bool, resourceSpecs: bool, customResource: bool, services: bool, pvcs: bool)

  /** The part of Config that the modelled code reads. Durations are nanoseconds. */
  datatype Config = Config(
    namespace: string,
    stateWriteInterval: int,
    resolvedRetention: int,
    observationRetention: int,
    maxObservations: int,
    maxFindings: int,
    maxStateBytes: int,
    triageEnabled: bool,
    minScore: int,
    cooldown: int,
    cooldownIncident: int,
    memoryWarningPercent: int,
    memoryCriticalPercent: int,
    restartWarningCount: int,
    restartWindow: int,
    checks: Checks)
}
