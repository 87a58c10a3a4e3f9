/** The rows and enumerations of a court run. */
module CourtTypes {

  datatype RoleKind = Clerk | Juror | Judge | OtherKind

  datatype Role = Role(id: string, kind: RoleKind, title: string)

  datatype Workflow = ParallelConsensus | Routed | RoleScoped | BoundedCorrection | ReviewOnly

  datatype WorkerStatus = Queued | Running | Completed | Failed | Cancelled {
    predicate Terminal() { Completed? || Failed? || Cancelled? }
  }

  datatype RunStatus = RunQueued | RunRunning | RunCompleted | RunFailed | RunCancelled {
    predicate Terminal() { RunCompleted? || RunFailed? || RunCancelled? }
  }

  datatype Phase =
    | IdlePhase | BlockedPhase | ClerkPhase | JurorsPhase | InlineJudgePhase
    | CorrectionsPhase | VerdictPhase | CompletePhase

  /** A row of the workers table. `result` is the rendered result; `session` says that a runtime
      session identity is stored. `executing` is not a column: it says that the process of the
      current attempt has loaded the row and has not written its outcome yet. */
  datatype Worker = Worker(
    roleID: string, kind: RoleKind, title: string, status: WorkerStatus, attempt: nat,
    result: string, session: bool, executing: bool)

  /** A row of the runs table; `completedAt` says that the column is set. */
  datatype RunRecord = RunRecord(status: RunStatus, phase: Phase, verdict: string, completedAt: bool)

  datatype ControlAction = CancelAction | InterruptAction | RetryAction | ResumeAction

  datatype ControlStatus = Pending | ControlCompleted | ControlFailed

  /** A row of the worker_controls table, in id order. `forAttempt` is not a column: it records
      the attempt the worker was at when the control was issued. */
  datatype Control = Control(roleID: string, action: ControlAction, status: ControlStatus, forAttempt: nat)
}
