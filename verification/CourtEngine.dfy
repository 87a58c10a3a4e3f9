/** The engine as it runs: one object per run, whose rows the operations update statement by
    statement. Every operation is proved to compute the function of the same name in Court. */
module CourtEngine {
  import opened Text
  import opened Lists
  import opened CourtTypes
  import C = Court
  import Phases
  import SessionControls

  datatype Summary = Summary(hasFailed: bool, hasCancelled: bool, hasRunningOrQueued: bool)

  method SummarizeWorkerStatuses(workers: seq<Worker>) returns (summary: Summary)
    ensures summary == Summary(C.HasFailed(workers), C.HasCancelled(workers), C.HasActive(workers))
  {
    summary := Summary(false, false, false);
    for k := 0 to |workers|
      invariant summary.hasFailed <==> exists i :: 0 <= i < k && workers[i].status.Failed?
      invariant summary.hasCancelled <==> exists i :: 0 <= i < k && workers[i].status.Cancelled?
      invariant summary.hasRunningOrQueued <==> exists i :: 0 <= i < k && (workers[i].status.Queued? || workers[i].status.Running?)
    {
      match workers[k].status {
        case Failed => summary := summary.(hasFailed := true);
        case Cancelled => summary := summary.(hasCancelled := true);
        case Queued => summary := summary.(hasRunningOrQueued := true);
        case Running => summary := summary.(hasRunningOrQueued := true);
        case Completed =>
      }
    }
  }

  method FinalVerdict(workers: seq<Worker>) returns (verdict: string)
    ensures verdict == C.FinalVerdict(workers)
  {
    var judgeResults := Select(workers, (w: Worker) => w.kind.Judge? && w.result != "");
    if |judgeResults| == 1 {
      return judgeResults[0].result;
    }
    if |judgeResults| > 1 {
      var b := WriteSections(judgeResults);
      return TrimSpace(b);
    }
    var reported := Select(workers, (w: Worker) => w.result != "");
    verdict := WriteSections(reported);
  }

  method Select(workers: seq<Worker>, p: Worker -> bool) returns (selected: seq<Worker>)
    ensures selected == Filter(workers, p)
  {
    selected := [];
    for k := 0 to |workers|
      invariant selected == Filter(workers[..k], p)
    {
      if p(workers[k]) {
        selected := selected + [workers[k]];
      }
      assert workers[..k + 1] == workers[..k] + [workers[k]];
      FilterSnoc(workers[..k], workers[k], p);
    }
    assert workers[..|workers|] == workers;
  }

  method WriteSections(workers: seq<Worker>) returns (b: string)
    ensures b == C.VERDICT_TITLE + C.Sections(workers)
  {
    b := C.VERDICT_TITLE;
    for k := 0 to |workers|
      invariant b == C.VERDICT_TITLE + C.Sections(workers[..k])
    {
      var w := workers[k];
      ghost var before := C.Sections(workers[..k]);
      assert workers[..k + 1][..k] == workers[..k];
      assert C.Sections(workers[..k + 1]) == before + "## " + w.title + "\n\n" + w.result + "\n\n";
      b := b + "## " + w.title + "\n\n" + w.result + "\n\n";
      assert b == C.VERDICT_TITLE + (before + "## " + w.title + "\n\n" + w.result + "\n\n");
    }
    assert workers[..|workers|] == workers;
  }

  class Engine {
    const workflow: Workflow
    const delegating: bool
    var run: RunRecord
    var workers: seq<Worker>
    var attempts: map<(string, nat), Worker>
    var controls: seq<Control>
    var judgeIDs: seq<string>

    ghost function State(): C.CourtState
      reads this
    {
      C.CourtState(workflow, delegating, run, workers, attempts, controls, judgeIDs)
    }

    // Statements

    method UpdateRunStatus(status: RunStatus, verdict: string)
      modifies this`run
      ensures run == C.WithStatus(old(run), status, verdict)
    {
      var completed := false;
      if status.Terminal() {
        completed := true;
      }
      run := run.(status := status, verdict := verdict, completedAt := completed);
    }

    method UpdateRunPhase(phase: Phase)
      modifies this`run
      ensures run == old(run).(phase := phase)
    {
      run := run.(phase := phase);
    }

    method ReactivateRun(phase: Phase)
      modifies this`run
      ensures run == RunRecord(RunRunning, phase, "", false)
    {
      run := run.(status := RunRunning, phase := phase, verdict := "", completedAt := false);
    }

    /** INSERT under UNIQUE(run_id, role_id). */
    method CreateWorker(w: Worker) returns (conflict: bool)
      modifies this`workers
      ensures conflict <==> C.Find(old(workers), w.roleID).Some?
      ensures workers == if conflict then old(workers) else old(workers) + [w]
    {
      conflict := C.Find(workers, w.roleID).Some?;
      if !conflict {
        workers := workers + [w];
      }
    }

    method CompleteWorker(id: string, status: WorkerStatus, result: string)
      modifies this`workers
      ensures workers == C.Complete(old(workers), id, status, result)
    {
      workers := C.Complete(workers, id, status, result);
    }

    method AddWorkerControl(id: string, action: ControlAction, attempt: nat) returns (row: nat)
      modifies this`controls
      ensures row == |old(controls)| && controls == old(controls) + [Control(id, action, Pending, attempt)]
    {
      row := |controls|;
      controls := controls + [Control(id, action, Pending, attempt)];
    }

    method CompleteWorkerControl(row: nat, status: ControlStatus)
      requires row < |controls|
      modifies this`controls
      ensures controls == old(controls)[row := old(controls)[row].(status := status)]
    {
      controls := controls[row := controls[row].(status := status)];
    }

    // Operations

    constructor StartRun(preset: seq<Role>, workflow: Workflow, delegating: bool, failing: set<string>)
      ensures State() == C.Start(preset, workflow, delegating, failing)
    {
      this.workflow := workflow;
      this.delegating := delegating;
      run := RunRecord(RunRunning, C.InitialPhase(preset, workflow), "", false);
      workers, attempts, controls, judgeIDs := [], map[], [], [];
      new;
      SpawnRoles(C.InitialRoles(preset, workflow), failing);
    }

    method SpawnRoles(roles: seq<Role>, failing: set<string>)
      modifies this
      ensures State() == C.Spawn(old(State()), roles, failing)
    {
      for k := 0 to |roles|
        invariant C.Spawn(State(), roles[k..], failing) == C.Spawn(old(State()), roles, failing)
      {
        var role := roles[k];
        ghost var before := State();
        assert roles[k..][0] == role && roles[k..][1..] == roles[k + 1..];
        var conflict := CreateWorker(C.NewWorker(role));
        if conflict {
          assert State() == before;
          continue;
        }
        if role.id in failing {
          CompleteWorker(role.id, Failed, "");
          UpdateRunStatus(RunFailed, "");
          UpdateRunPhase(BlockedPhase);
          return;
        }
      }
    }

    method CompleteRun(snapshot: seq<Worker>)
      modifies this`run
      ensures run == C.Finished(old(run), C.FinalVerdict(snapshot))
    {
      var verdict := FinalVerdict(snapshot);
      UpdateRunStatus(RunCompleted, verdict);
      UpdateRunPhase(CompletePhase);
    }

    method ReconcileRun(env: C.Surroundings)
      modifies this
      ensures State() == C.ReconcileRun(old(State()), env)
    {
      if run.status == RunCompleted || run.status == RunFailed || run.status == RunCancelled {
        return;
      }
      var snapshot := workers;
      if |snapshot| == 0 {
        return;
      }
      var summary := SummarizeWorkerStatuses(snapshot);
      if summary.hasFailed {
        UpdateRunStatus(RunFailed, "");
        UpdateRunPhase(BlockedPhase);
        return;
      }
      if summary.hasCancelled {
        UpdateRunStatus(RunCancelled, "");
        UpdateRunPhase(BlockedPhase);
        return;
      }
      if env.preset.None? {
        return;
      }
      var preset := env.preset.value;
      if C.JudgeCompleted(snapshot) {
        CompleteRun(snapshot);
        return;
      }
      StartNextWave(snapshot, preset, summary, env);
    }

    method StartNextWave(snapshot: seq<Worker>, preset: seq<Role>, summary: Summary, env: C.Surroundings)
      requires snapshot == workers && summary.hasRunningOrQueued == C.HasActive(snapshot)
      modifies this
      ensures State() == C.NextWave(old(State()), snapshot, preset, env)
    {
      if summary.hasRunningOrQueued {
        var result := Phases.EvaluatePhase(C.PhaseInputFor(workflow, preset, snapshot), Phases.ParticipantStates(snapshot));
        UpdateRunPhase(result.phase);
        return;
      }
      if C.ClerkReadyForJurors(snapshot, preset) && !C.HasKind(snapshot, Juror) {
        var chosen := C.PromoteDocket(delegating, preset, env.delegation);
        judgeIDs := chosen.judgeIDs;
        UpdateRunPhase(JurorsPhase);
        SpawnRoles(chosen.jurors, env.failing);
        return;
      }
      if workflow == ReviewOnly {
        CompleteRun(snapshot);
        return;
      }
      var judges := C.JudgeRoles(delegating, judgeIDs, preset, env.catalog);
      if judges.None? {
        return;
      }
      if |judges.value| == 0 {
        CompleteRun(snapshot);
        return;
      }
      var missingJudges := MissingJudges(judges.value, snapshot);
      if |missingJudges| == 0 {
        return;
      }
      UpdateRunPhase(VerdictPhase);
      SpawnRoles(missingJudges, env.failing);
    }

    method MissingJudges(judges: seq<Role>, snapshot: seq<Worker>) returns (missing: seq<Role>)
      ensures missing == C.Missing(judges, snapshot)
    {
      missing := [];
      for k := 0 to |judges|
        invariant missing == C.Missing(judges[..k], snapshot)
      {
        assert judges[..k + 1][..k] == judges[..k];
        if C.Find(snapshot, judges[k].id).None? {
          missing := missing + [judges[k]];
        }
      }
      assert judges[..|judges|] == judges;
    }

    method BeginWorker(id: string)
      modifies this`workers
      ensures State() == C.BeginWorker(old(State()), id)
    {
      var worker := C.Find(workers, id);
      if worker.None? || worker.value.status.Terminal() {
        return;
      }
      workers := C.Update(workers, id, (w: Worker) => w.(status := Running, executing := true));
    }

    method AttachSession(id: string)
      modifies this`workers
      ensures State() == C.AttachSession(old(State()), id)
    {
      var worker := C.Find(workers, id);
      if worker.Some? && worker.value.executing {
        workers := C.Update(workers, id, (w: Worker) => w.(session := true));
      }
    }

    method FinishWorker(id: string, outcome: C.Outcome)
      modifies this`workers
      ensures State() == C.FinishWorker(old(State()), id, outcome)
    {
      var worker := C.Find(workers, id);
      if worker.None? || !worker.value.executing {
        return;
      }
      match outcome {
        case Stopped(result) => CompleteWorker(id, Cancelled, result);
        case Errored(result) => CompleteWorker(id, Failed, result);
        case Succeeded(result) =>
          if !worker.value.status.Cancelled? {
            CompleteWorker(id, Completed, result);
          }
      }
      workers := C.Update(workers, id, (w: Worker) => w.(executing := false));
    }

    method PollControls(id: string, answers: seq<bool>) returns (cancelled: bool)
      modifies this`controls
      ensures State() == C.PollControls(old(State()), id, answers)
    {
      var worker := C.Find(workers, id);
      if worker.None? || !worker.value.executing {
        return false;
      }
      var pending := C.PendingFor(controls, id);
      var handled, result := SessionControls.HandlePendingSessionControls(pending, answers);
      for k := 0 to |handled|
        invariant controls == C.MarkHandled(old(controls), handled[..k])
      {
        assert handled[..k + 1][..k] == handled[..k];
        var h := handled[k];
        if h.control.id < |controls| {
          CompleteWorkerControl(h.control.id, if h.accepted then ControlCompleted else ControlFailed);
        }
      }
      assert handled[..|handled|] == handled;
      cancelled := result.cancelled;
    }

    method CancelWorker(id: string, stopped: bool)
      modifies this
      ensures State() == C.CancelWorker(old(State()), id, stopped)
    {
      var found := C.Find(workers, id);
      if found.None? {
        return;
      }
      var worker := found.value;
      if worker.status == Completed || worker.status == Failed || worker.status == Cancelled {
        return;
      }
      var control := AddWorkerControl(id, CancelAction, worker.attempt);
      var status := ControlCompleted;
      if worker.session {
        if stopped {
        } else if worker.status == Running {
          status := Pending;
        } else {
          status := ControlFailed;
        }
      }
      if status != Pending {
        CompleteWorkerControl(control, status);
      }
      CompleteWorker(id, Cancelled, worker.result);
      UpdateRunStatus(RunCancelled, "");
      UpdateRunPhase(BlockedPhase);
    }

    method InterruptWorker(id: string, delivered: bool) returns (reported: Option<ControlStatus>)
      modifies this`controls
      ensures State() == C.InterruptWorker(old(State()), id, delivered)
      ensures reported == C.InterruptReport(old(State()), id, delivered)
    {
      var found := C.Find(workers, id);
      if found.None? || found.value.status != Running {
        return None;
      }
      var worker := found.value;
      var control := AddWorkerControl(id, InterruptAction, worker.attempt);
      var status := ControlCompleted;
      var refused := false;
      if !worker.session {
        status := Pending;
      } else {
        refused := !delivered;
      }
      if refused {
        status := Pending;
      } else {
        CompleteWorkerControl(control, ControlCompleted);
      }
      reported := Some(status);
    }

    method ResumeWorker(id: string, adopted: bool)
      modifies this`controls, this`workers
      ensures State() == C.ResumeWorker(old(State()), id, adopted)
    {
      var found := C.Find(workers, id);
      if found.None? {
        return;
      }
      var control := AddWorkerControl(id, ResumeAction, found.value.attempt);
      if !adopted {
        CompleteWorkerControl(control, ControlFailed);
        return;
      }
      workers := C.Update(workers, id, (w: Worker) => w.(session := true));
      CompleteWorkerControl(control, ControlCompleted);
    }

    method RetryWorker(id: string, launched: bool)
      modifies this
      ensures State() == C.RetryWorker(old(State()), id, launched)
    {
      var found := C.Find(workers, id);
      if found.None? {
        return;
      }
      var worker := found.value;
      if worker.status != Failed && worker.status != Cancelled {
        return;
      }
      var control := Requeue(id, worker);
      if !launched {
        FailLaunch(id, control);
      }
    }

    /** The updates of a retry, up to the launch. */
    method Requeue(id: string, worker: Worker) returns (control: nat)
      requires C.Find(workers, id) == Some(worker) && (worker.status.Failed? || worker.status.Cancelled?)
      modifies this
      ensures State() == C.RetryWorker(old(State()), id, true) && control == |old(controls)|
    {
      controls := C.Supersede(controls, id);
      control := AddWorkerControl(id, RetryAction, worker.attempt);
      attempts := attempts[(id, worker.attempt) := worker];
      workers := C.Update(workers, id, C.ResetRow);
      ReactivateRun(C.RetryPhase(worker.kind));
      CompleteWorkerControl(control, ControlCompleted);
    }

    /** The launch of a retried worker failed. */
    method FailLaunch(id: string, control: nat)
      requires control < |controls|
      modifies this`run, this`workers, this`controls
      ensures workers == C.Complete(old(workers), id, Failed, "") && run == C.Halted(old(run), RunFailed)
      ensures controls == old(controls)[control := old(controls)[control].(status := ControlFailed)]
    {
      CompleteWorker(id, Failed, "");
      UpdateRunStatus(RunFailed, "");
      UpdateRunPhase(BlockedPhase);
      CompleteWorkerControl(control, ControlFailed);
    }
  }
}
