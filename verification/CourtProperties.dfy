/** What the invariant means for whole runs: completion, waves, retries and controls. */
module CourtProperties {
  import opened Lists
  import opened CourtTypes
  import opened Court
  import opened CourtInvariants

  // Completion

  /** Rows that differ at most in their stored session identity. */
  ghost predicate SameButSessions(ws: seq<Worker>, ws': seq<Worker>) {
    |ws| == |ws'| && forall i :: 0 <= i < |ws| ==> ws'[i] == ws[i].(session := ws'[i].session)
  }

  ghost predicate AtRest(ws: seq<Worker>) {
    forall i :: 0 <= i < |ws| ==> ws[i].status.Completed? && !ws[i].executing
  }

  lemma RestingWorkersStay(s: CourtState, id: string, outcome: Outcome, answers: seq<bool>, flag: bool)
    requires AtRest(s.workers) && s.run.status.RunCompleted?
    ensures BeginWorker(s, id) == s && FinishWorker(s, id, outcome) == s
    ensures PollControls(s, id, answers).(controls := s.controls) == s
    ensures CancelWorker(s, id, flag) == s && InterruptWorker(s, id, flag) == s && RetryWorker(s, id, flag) == s
  {
    assert Find(s.workers, id).Some? ==> Find(s.workers, id).value in s.workers;
  }

  lemma RestingReconcileStays(s: CourtState, env: Surroundings)
    requires s.run.status.RunCompleted?
    ensures ReconcileRun(s, env) == s
  {
  }

  lemma CompletedStepChangesNothing(s: CourtState, step: Step)
    requires Inv(s) && s.run.status.RunCompleted?
    ensures Apply(s, step).run == s.run && Apply(s, step).attempts == s.attempts
    ensures SameButSessions(s.workers, Apply(s, step).workers)
  {
    assert AtRest(s.workers);
    RestingStep(s, step);
  }

  lemma RestingStep(s: CourtState, step: Step)
    requires AtRest(s.workers) && s.run.status.RunCompleted?
    ensures Apply(s, step).run == s.run && Apply(s, step).attempts == s.attempts
    ensures SameButSessions(s.workers, Apply(s, step).workers)
  {
    match step
    case Begin(id) => RestingWorkersStay(s, id, Stopped(""), [], false);
    case Attach(id) =>
    case Finish(id, outcome) => RestingWorkersStay(s, id, outcome, [], false);
    case Poll(id, answers) => RestingWorkersStay(s, id, Stopped(""), answers, false);
    case Reconcile(env) => RestingReconcileStays(s, env);
    case Cancel(id, stopped) => RestingWorkersStay(s, id, Stopped(""), [], stopped);
    case Interrupt(id, delivered) => RestingWorkersStay(s, id, Stopped(""), [], delivered);
    case Resume(id, adopted) =>
    case Retry(id, launched) => RestingWorkersStay(s, id, Stopped(""), [], launched);
  }

  /** A completed run stays completed: no later cancel, retry, worker step or reconcile changes its
      status, verdict, phase, archive, or any worker's status, attempt or result. */
  lemma {:induction false} CompletedIsAbsorbing(s: CourtState, steps: seq<Step>)
    requires Inv(s) && s.run.status.RunCompleted?
    ensures Inv(Exec(s, steps))
    ensures Exec(s, steps).run == s.run && Exec(s, steps).attempts == s.attempts
    ensures SameButSessions(s.workers, Exec(s, steps).workers)
  {
    if steps != [] {
      var init, last := steps[..|steps| - 1], steps[|steps| - 1];
      CompletedIsAbsorbing(s, init);
      CompletedStepChangesNothing(Exec(s, init), last);
      StepKeeps(Exec(s, init), last);
    }
  }

  /** CompletedVerdict refuses a run whose verdict column is empty. */
  function CompletedVerdict(run: RunRecord): Option<string> {
    if run.verdict == "" then None else Some(run.verdict)
  }

  /** In every reachable state a verdict is served exactly for completed runs, and then every worker
      is completed. */
  lemma VerdictExactlyWhenCompleted(preset: seq<Role>, workflow: Workflow, delegating: bool, failing: set<string>, steps: seq<Step>)
    ensures var s := Exec(Start(preset, workflow, delegating, failing), steps);
            && (CompletedVerdict(s.run).Some? <==> s.run.status.RunCompleted?)
            && (s.run.status.RunCompleted? ==> AllCompleted(s.workers) && s.run.phase.CompletePhase? && s.run.completedAt)
  {
    Reachable(preset, workflow, delegating, failing, steps);
  }

  // Waves

  /** A worker appears, after the start, only by a reconcile that finds every existing worker
      completed. A juror appears only when there are clerks but no juror and no judge yet; a judge
      only when there is no judge yet. */
  lemma WaveDiscipline(s: CourtState, step: Step, i: nat)
    requires Inv(s)
    requires i < |Apply(s, step).workers| && !HasRole(s.workers, Apply(s, step).workers[i].roleID)
    ensures var w := Apply(s, step).workers[i];
            && step.Reconcile? && AllCompleted(s.workers) && w.attempt == 1
            && (w.kind.Juror? || w.kind.Judge?)
            && (w.kind.Juror? ==> HasKind(s.workers, Clerk) && !HasKind(s.workers, Juror))
            && !HasKind(s.workers, Judge)
  {
    var t := Apply(s, step);
    if step.Reconcile? {
      ReconcileAdds(s, step.env, i);
    } else {
      assert |t.workers| == |s.workers| && t.workers[i].roleID == s.workers[i].roleID by {
        RowStepsAddNothing(s, step);
      }
      assert HasRole(s.workers, t.workers[i].roleID);
    }
  }

  ghost predicate SameRoles(ws: seq<Worker>, ws': seq<Worker>) {
    |ws| == |ws'| && forall i :: 0 <= i < |ws| ==> ws'[i].roleID == ws[i].roleID
  }

  lemma FinishSameRoles(s: CourtState, id: string, outcome: Outcome)
    requires Unique(s.workers)
    ensures SameRoles(s.workers, FinishWorker(s, id, outcome).workers)
  {
    FinishRows(s, id, outcome);
  }

  lemma RetrySameRoles(s: CourtState, id: string, launched: bool)
    requires Unique(s.workers)
    ensures SameRoles(s.workers, RetryWorker(s, id, launched).workers)
  {
    var r := Find(s.workers, id);
    if r.Some? && (r.value.status.Failed? || r.value.status.Cancelled?) {
      RetryRows(s, id, launched, r.value);
    }
  }

  lemma ControlSameRoles(s: CourtState, id: string, flag: bool)
    ensures SameRoles(s.workers, CancelWorker(s, id, flag).workers)
    ensures SameRoles(s.workers, InterruptWorker(s, id, flag).workers)
    ensures SameRoles(s.workers, ResumeWorker(s, id, flag).workers)
  {
  }

  lemma ProcessSameRoles(s: CourtState, id: string, answers: seq<bool>)
    ensures SameRoles(s.workers, BeginWorker(s, id).workers)
    ensures SameRoles(s.workers, AttachSession(s, id).workers)
    ensures SameRoles(s.workers, PollControls(s, id, answers).workers)
  {
  }

  lemma RowStepsAddNothing(s: CourtState, step: Step)
    requires Unique(s.workers) && !step.Reconcile?
    ensures SameRoles(s.workers, Apply(s, step).workers)
  {
    match step
    case Finish(id, outcome) => FinishSameRoles(s, id, outcome);
    case Retry(id, launched) => RetrySameRoles(s, id, launched);
    case Begin(id) => ProcessSameRoles(s, id, []);
    case Attach(id) => ProcessSameRoles(s, id, []);
    case Poll(id, answers) => ProcessSameRoles(s, id, answers);
    case Cancel(id, stopped) => ControlSameRoles(s, id, stopped);
    case Interrupt(id, delivered) => ControlSameRoles(s, id, delivered);
    case Resume(id, adopted) => ControlSameRoles(s, id, adopted);
  }

  lemma RowsHaveRoles(ws: seq<Worker>)
    ensures forall i :: 0 <= i < |ws| ==> HasRole(ws, ws[i].roleID)
  {
  }

  lemma ReconcileAdds(s: CourtState, env: Surroundings, i: nat)
    requires Inv(s)
    requires i < |ReconcileRun(s, env).workers| && !HasRole(s.workers, ReconcileRun(s, env).workers[i].roleID)
    ensures var w := ReconcileRun(s, env).workers[i];
            && AllCompleted(s.workers) && w.attempt == 1 && (w.kind.Juror? || w.kind.Judge?)
            && (w.kind.Juror? ==> HasKind(s.workers, Clerk) && !HasKind(s.workers, Juror))
            && !HasKind(s.workers, Judge)
  {
    var ws, t := s.workers, ReconcileRun(s, env);
    RowsHaveRoles(ws);
    assert t.workers != ws;
    assert t == NextWave(s, ws, env.preset.value, env);
    assert AllCompleted(ws) && !HasKind(ws, Judge);
    NextWaveAdds(s, env.preset.value, env, i);
  }

  lemma NextWaveAdds(s: CourtState, preset: seq<Role>, env: Surroundings, i: nat)
    requires !HasActive(s.workers)
    requires i < |NextWave(s, s.workers, preset, env).workers| && !HasRole(s.workers, NextWave(s, s.workers, preset, env).workers[i].roleID)
    ensures var w := NextWave(s, s.workers, preset, env).workers[i];
            && w.attempt == 1 && (w.kind.Juror? || w.kind.Judge?)
            && (w.kind.Juror? ==> HasKind(s.workers, Clerk) && !HasKind(s.workers, Juror))
  {
    var ws, t := s.workers, NextWave(s, s.workers, preset, env);
    if ClerkReadyForJurors(ws, preset) && !HasKind(ws, Juror) {
      var chosen := PromoteDocket(s.delegating, preset, env.delegation);
      AddedRow(s.(judgeIDs := chosen.judgeIDs, run := s.run.(phase := JurorsPhase)), chosen.jurors, env.failing, i);
    } else {
      RowsHaveRoles(ws);
      assert t.workers != ws;
      var judges := JudgeRoles(s.delegating, s.judgeIDs, preset, env.catalog).value;
      AddedRow(s.(run := s.run.(phase := VerdictPhase)), Missing(judges, ws), env.failing, i);
    }
  }

  lemma AddedRow(s: CourtState, roles: seq<Role>, failing: set<string>, i: nat)
    requires i < |Spawn(s, roles, failing).workers| && !HasRole(s.workers, Spawn(s, roles, failing).workers[i].roleID)
    ensures var w := Spawn(s, roles, failing).workers[i];
            w.attempt == 1 && exists k :: 0 <= k < |roles| && w.kind == roles[k].kind
  {
    SpawnShape(s, roles, failing);
    var t := Spawn(s, roles, failing);
    assert i >= |s.workers| by {
      assert forall j :: 0 <= j < |s.workers| ==> t.workers[j] == s.workers[j];
    }
    assert SpawnedRow(t.workers[i], roles, failing);
  }

  /** A reconcile that decided on any snapshot, however old, never gives a role a second worker. */
  lemma StaleReconcileKeepsUnique(s: CourtState, run: RunRecord, ws: seq<Worker>, env: Surroundings)
    requires Unique(s.workers)
    ensures Unique(ReconcileFrom(s, run, ws, env).workers)
  {
    if !run.status.Terminal() && ws != [] && !HasFailed(ws) && !HasCancelled(ws) && env.preset.Some? && !JudgeCompleted(ws) {
      var preset := env.preset.value;
      var chosen := PromoteDocket(s.delegating, preset, env.delegation);
      SpawnUnique(s.(judgeIDs := chosen.judgeIDs, run := s.run.(phase := JurorsPhase)), chosen.jurors, env.failing);
      var judges := JudgeRoles(s.delegating, s.judgeIDs, preset, env.catalog);
      if judges.Some? {
        SpawnUnique(s.(run := s.run.(phase := VerdictPhase)), Missing(judges.value, ws), env.failing);
      }
    }
  }

  lemma {:induction false} SpawnOfPresent(s: CourtState, roles: seq<Role>, failing: set<string>)
    requires forall k :: 0 <= k < |roles| ==> HasRole(s.workers, roles[k].id)
    ensures Spawn(s, roles, failing) == s
    decreases |roles|
  {
    if roles != [] {
      assert HasRole(s.workers, roles[0].id);
      SpawnOfPresent(s, roles[1..], failing);
    }
  }

  /** The roles that the wave decided from a snapshot asks for. */
  function WaveRoles(s: CourtState, ws: seq<Worker>, preset: seq<Role>, env: Surroundings): seq<Role> {
    if HasActive(ws) then []
    else if ClerkReadyForJurors(ws, preset) && !HasKind(ws, Juror) then PromoteDocket(s.delegating, preset, env.delegation).jurors
    else if s.workflow.ReviewOnly? then []
    else
      var judges := JudgeRoles(s.delegating, s.judgeIDs, preset, env.catalog);
      if judges.None? then [] else Missing(judges.value, ws)
  }

  /** The roles a reconcile is due to spawn. */
  function DueRoles(s: CourtState, run: RunRecord, ws: seq<Worker>, env: Surroundings): seq<Role> {
    if run.status.Terminal() || ws == [] || HasFailed(ws) || HasCancelled(ws) || env.preset.None? || JudgeCompleted(ws) then []
    else WaveRoles(s, ws, env.preset.value, env)
  }

  predicate AllPresent(ws: seq<Worker>, roles: seq<Role>) {
    forall k :: 0 <= k < |roles| ==> Find(ws, roles[k].id).Some?
  }

  lemma {:induction false} SpawnsNothingExactlyWhen(s: CourtState, roles: seq<Role>, failing: set<string>)
    ensures Spawn(s, roles, failing).workers == s.workers <==> AllPresent(s.workers, roles)
    decreases |roles|
  {
    if roles != [] {
      if Find(s.workers, roles[0].id).Some? {
        SpawnsNothingExactlyWhen(s, roles[1..], failing);
        assert AllPresent(s.workers, roles) <==> AllPresent(s.workers, roles[1..]) by {
          assert roles == [roles[0]] + roles[1..];
        }
      } else {
        SpawnShape(s.(workers := s.workers + [NewWorker(roles[0])]), roles[1..], failing);
      }
    }
  }

  /** Whatever snapshot it decided on, a reconcile adds no worker exactly when every role it is due to spawn has
      one. */
  lemma ReconcileAddsNothingExactlyWhen(s: CourtState, run: RunRecord, ws: seq<Worker>, env: Surroundings)
    ensures ReconcileFrom(s, run, ws, env).workers == s.workers <==> AllPresent(s.workers, DueRoles(s, run, ws, env))
  {
    if DueRoles(s, run, ws, env) != [] {
      var preset := env.preset.value;
      var chosen := PromoteDocket(s.delegating, preset, env.delegation);
      SpawnsNothingExactlyWhen(s.(judgeIDs := chosen.judgeIDs, run := s.run.(phase := JurorsPhase)), chosen.jurors, env.failing);
      SpawnsNothingExactlyWhen(s.(run := s.run.(phase := VerdictPhase)), WaveRoles(s, ws, preset, env), env.failing);
    }
  }

  /** A wave changes nothing that decides which roles the same snapshot asks for. */
  lemma WaveAsksForTheSame(s: CourtState, env: Surroundings)
    ensures var first := ReconcileFrom(s, s.run, s.workers, env);
            DueRoles(first, s.run, s.workers, env) == DueRoles(s, s.run, s.workers, env)
  {
    var ws := s.workers;
    if DueRoles(s, s.run, ws, env) != [] {
      var preset := env.preset.value;
      var chosen := PromoteDocket(s.delegating, preset, env.delegation);
      SpawnShape(s.(judgeIDs := chosen.judgeIDs, run := s.run.(phase := JurorsPhase)), chosen.jurors, env.failing);
      SpawnShape(s.(run := s.run.(phase := VerdictPhase)), WaveRoles(s, ws, preset, env), env.failing);
    }
  }

  /** Two reconciles that took the same snapshot, each with surroundings of its own: the second adds no worker
      exactly when the first left none of the roles the second is due to spawn without one. In the same
      surroundings these are the roles the first was due to spawn, so it adds none unless a failing launch cut
      the first one's wave short. */
  lemma RacingReconcilesSpawnOnce(s: CourtState, env: Surroundings, other: Surroundings)
    ensures var first := ReconcileFrom(s, s.run, s.workers, env);
            && (ReconcileFrom(first, s.run, s.workers, other).workers == first.workers
                <==> AllPresent(first.workers, DueRoles(first, s.run, s.workers, other)))
            && DueRoles(first, s.run, s.workers, env) == DueRoles(s, s.run, s.workers, env)
            && (env.failing == {} ==> ReconcileFrom(first, s.run, s.workers, env).workers == first.workers)
  {
    var first := ReconcileFrom(s, s.run, s.workers, env);
    ReconcileAddsNothingExactlyWhen(first, s.run, s.workers, other);
    ReconcileAddsNothingExactlyWhen(first, s.run, s.workers, env);
    WaveAsksForTheSame(s, env);
    if env.failing == {} {
      WaveIsWhole(s, env);
    }
  }

  /** When no launch fails every role asked for has a worker. */
  lemma WaveIsWhole(s: CourtState, env: Surroundings)
    requires env.failing == {}
    ensures AllPresent(ReconcileFrom(s, s.run, s.workers, env).workers, DueRoles(s, s.run, s.workers, env))
  {
    var ws := s.workers;
    if DueRoles(s, s.run, ws, env) != [] {
      var preset := env.preset.value;
      var chosen := PromoteDocket(s.delegating, preset, env.delegation);
      SpawnIsWhole(s.(judgeIDs := chosen.judgeIDs, run := s.run.(phase := JurorsPhase)), chosen.jurors);
      SpawnIsWhole(s.(run := s.run.(phase := VerdictPhase)), WaveRoles(s, ws, preset, env));
    }
  }

  lemma SpawnIsWhole(s: CourtState, roles: seq<Role>)
    ensures AllPresent(Spawn(s, roles, {}).workers, roles)
  {
    SpawnCovers(s, roles);
    forall k | 0 <= k < |roles|
      ensures Find(Spawn(s, roles, {}).workers, roles[k].id).Some?
    {
      assert HasRole(Spawn(s, roles, {}).workers, roles[k].id);
    }
  }

  /** A failing launch does leave room for a second reconcile: it skips the failed role and spawns the next. */
  lemma FailedWaveIsContinued(s: CourtState, first: Role, second: Role)
    requires first.id != second.id && !HasRole(s.workers, first.id) && !HasRole(s.workers, second.id)
    ensures var cut := Spawn(s, [first, second], {first.id});
            |cut.workers| == |s.workers| + 1 && |Spawn(cut, [first, second], {first.id}).workers| == |s.workers| + 2
  {
    var cut := Spawn(s, [first, second], {first.id});
    FailedLaunchRow(s.workers, first);
    assert cut.workers == s.workers + [NewWorker(first).(status := Failed)];
    assert cut.workers[|s.workers|].roleID == first.id && HasRole(cut.workers, first.id);
    assert !HasRole(cut.workers, second.id);
    assert [first, second][1..] == [second] && [second][1..] == [];
    assert Spawn(cut, [first, second], {first.id}) == Spawn(cut, [second], {first.id});
    assert Spawn(cut, [second], {first.id}) == Spawn(cut.(workers := cut.workers + [NewWorker(second)]), [], {first.id});
  }
}
