/** The status of a loop, as every part of the daemon stores and compares it (internal/domain/domain.go). */
module LoopStatuses {
  datatype LoopStatus =
    | Idle | Queued | Running | Paused | Waiting | AwaitingHuman | HumanTakeover
    | Stopped | Terminated | Completed | Failed | Interrupted

  /** Parked for an operator: paused, or held by a human. */
  predicate IsParked(s: LoopStatus) {
    s.Paused? || s.HumanTakeover?
  }

  predicate ConflictingActive(s: LoopStatus) {
    s.Idle? || s.Queued? || s.Running? || s.AwaitingHuman? || IsParked(s)
  }
}
