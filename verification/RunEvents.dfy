/** The run record states and the event envelope of the run-event protocol. */
module RunEvents {
  type RunId = string

  datatype RunState =
    | Created | Planning | Executing | WaitingApproval
    | Completed | Failed | Cancelled

  predicate Terminal(s: RunState) {
    s.Completed? || s.Failed? || s.Cancelled?
  }

  datatype Phase = Intake | Plan | Execute | Review | Handoff | Code

  datatype Milestone =
    | Received | Accepted
    | Drafted | ApprovalRequested | Ready | RevisionCataloged
    | ToolInvoked | ArtifactEmitted | AwaitingApproval | ResumeBlocked
    | FindingsRecorded
    | EnvelopeEmitted
    | IterationStarted | ChangesApplied | CheckPassed | CheckFailed | PlanRevised
    | IterationComplete | LoopEscalated | LoopTerminal

  /** The part of the milestone catalog that the modelled services write. */
  predicate Cataloged(phase: Phase, milestone: Milestone) {
    match phase
    case Intake => milestone.Received? || milestone.Accepted?
    case Plan => milestone.Drafted? || milestone.ApprovalRequested? || milestone.Ready? || milestone.RevisionCataloged?
    case Execute => milestone.ToolInvoked? || milestone.ArtifactEmitted? || milestone.AwaitingApproval?
    case Review => milestone.FindingsRecorded?
    case Handoff => milestone.EnvelopeEmitted?
    case Code =>
      || milestone.IterationStarted? || milestone.ChangesApplied? || milestone.CheckPassed?
      || milestone.CheckFailed? || milestone.PlanRevised? || milestone.IterationComplete?
      || milestone.LoopEscalated? || milestone.LoopTerminal?
  }

  datatype ResumeKind =
    | OperatorResume | SchedulerWakeup | WorkerRecovery | TransportRebind
    | ApprovalGranted | ApprovalDeniedAlternatePath

  /** An approval is named after its run and its kind, so a second request of
      the same kind on the same run reuses the id. */
  datatype ApprovalId = ApprovalId(run: RunId, kind: string)

  datatype Reason = ApprovalDenied | ApprovalTimeout | OperatorReason(text: string)

  /** Event type and payload together. */
  datatype Body =
    | RunCreated
    | PlanReady
    | ExecutionStarted
    | Progress(phase: Phase, milestone: Milestone)
    | ApprovalWaiting(approval: ApprovalId)
    | Resumed(kind: ResumeKind, resumedFrom: nat)
    | ArtifactCreated(artifactKind: string, version: nat)
    | RunCompleted
    | RunFailed(retryable: bool)
    | RunCancelled(reason: Reason)

  function TypeName(b: Body): string {
    match b
    case RunCreated => "run.created"
    case PlanReady => "run.plan_ready"
    case ExecutionStarted => "run.execution_started"
    case Progress(_, _) => "run.progress"
    case ApprovalWaiting(_) => "run.approval_waiting"
    case Resumed(_, _) => "run.resumed"
    case ArtifactCreated(_, _) => "run.artifact_created"
    case RunCompleted => "run.completed"
    case RunFailed(_) => "run.failed"
    case RunCancelled(_) => "run.cancelled"
  }

  datatype RunVerb =
    | VerbCreated | VerbResumed | VerbCancelled | VerbCompleted
    | VerbUsageSummary | VerbResumeBlocked
    | VerbMilestone(phase: Phase, milestone: Milestone)

  datatype ApprovalTag =
    | TagWaiting | TagGranted | TagDeniedAbandon | TagDeniedAlternate
    | TagTimeoutRetry | TagTimeout

  /** Event ids, kept structural: fixed per run and verb, fixed per approval
      and tag, or drawn fresh (the ones that embed a uuid4). */
  datatype EventId =
    | ForRun(run: RunId, verb: RunVerb)
    | ForApproval(approval: ApprovalId, tag: ApprovalTag)
    | Unique(serial: nat)

  /** `num` is the per-run sequence number (`seq` in the protocol). */
  datatype Event = Event(id: EventId, run: RunId, num: nat, body: Body)
}
