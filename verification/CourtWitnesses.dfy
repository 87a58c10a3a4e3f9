/** Concrete runs showing that the hypotheses of the court theorems are needed. */
module CourtWitnesses {
  import opened Lists
  import opened CourtTypes
  import opened Court
  import opened CourtInvariants
  import CourtProperties
  import T = CourtTermination

  const JUDGE := Role("j", Judge, "")
  const ENV := Surroundings(Some([JUDGE]), None, map[], {})

  lemma KindSnoc(preset: seq<Role>, role: Role, kind: RoleKind)
    ensures RolesOfKind(preset + [role], kind) == RolesOfKind(preset, kind) + if role.kind == kind then [role] else []
  {
    assert (preset + [role])[..|preset|] == preset;
  }

  lemma OneRole(role: Role, kind: RoleKind)
    ensures RolesOfKind([role], kind) == if role.kind == kind then [role] else []
  {
    assert [] + [role] == [role];
    KindSnoc([], role, kind);
  }

  lemma TwoRoles(a: Role, b: Role, kind: RoleKind)
    ensures RolesOfKind([a, b], kind) == RolesOfKind([a], kind) + RolesOfKind([b], kind)
  {
    assert [a] + [b] == [a, b];
    OneRole(b, kind);
    KindSnoc([a], b, kind);
  }

  lemma SpawnOne(s: CourtState, role: Role)
    requires !HasRole(s.workers, role.id)
    ensures Spawn(s, [role], {}) == s.(workers := s.workers + [NewWorker(role)])
  {
    assert [role][1..] == [];
  }

  /** A single judge's run as the engine makes it: its process begins once and ends once, one reconcile follows,
      and nothing happens any more. */
  function OnceOnly(n: nat): Step {
    if n == 0 then Begin("j")
    else if n == 1 then Finish("j", Succeeded("verdict"))
    else if n == 2 then Reconcile(ENV)
    else Attach("")
  }

  function OnceOnlyRow(n: nat): Worker {
    var w := NewWorker(JUDGE);
    if n == 0 then w
    else if n == 1 then w.(status := Running, executing := true)
    else w.(status := Completed, result := "verdict")
  }

  lemma {:induction false} OnceOnlyTrace(n: nat)
    ensures T.Trace(Start([JUDGE], ParallelConsensus, false, {}), OnceOnly, n).workers == [OnceOnlyRow(n)]
    ensures n <= 2 ==> T.Trace(Start([JUDGE], ParallelConsensus, false, {}), OnceOnly, n).run.status.RunRunning?
  {
    if n == 0 {
      StartedAlone();
    } else {
      OnceOnlyTrace(n - 1);
      OnceOnlyStep(T.Trace(Start([JUDGE], ParallelConsensus, false, {}), OnceOnly, n - 1), n - 1);
    }
  }

  lemma OnceOnlyStep(s: CourtState, n: nat)
    requires s.workers == [OnceOnlyRow(n)] && (n <= 2 ==> s.run.status.RunRunning?)
    ensures Apply(s, OnceOnly(n)).workers == [OnceOnlyRow(n + 1)]
    ensures n <= 1 ==> Apply(s, OnceOnly(n)).run.status.RunRunning?
  {
    if n == 2 {
      JudgedAlone(s, OnceOnlyRow(2));
    }
  }

  lemma OnceOnlyStatuses(n: nat, id: string, ws: seq<Worker>)
    requires ws == [OnceOnlyRow(n)]
    ensures T.Has(ws, id, Queued) ==> n == 0 && id == "j"
    ensures T.Has(ws, id, Running) ==> n == 1 && id == "j"
  {
  }

  lemma OnceOnlyTurns()
    ensures OnceOnly(0) == Begin("j") && OnceOnly(1).Finish? && OnceOnly(1).id == "j" && OnceOnly(2).Reconcile?
    ensures T.BeginsAfter(OnceOnly, 0, "j") && T.FinishesAfter(OnceOnly, 1, "j")
    ensures forall n: nat :: OnceOnly(n).Finish? ==> T.ReconcilesAfter(OnceOnly, n + 1)
  {
    assert OnceOnly(0) == Begin("j") && OnceOnly(1).Finish? && OnceOnly(2).Reconcile?;
  }

  /** Such a run is fair in the sense of the termination theorem. */
  lemma OnceOnlyIsFair()
    ensures T.Fair(Start([JUDGE], ParallelConsensus, false, {}), OnceOnly)
  {
    var s := Start([JUDGE], ParallelConsensus, false, {});
    OnceOnlyTurns();
    forall n: nat, id: string
      ensures T.Has(T.Trace(s, OnceOnly, n).workers, id, Queued) ==> T.BeginsAfter(OnceOnly, n, id)
      ensures T.Has(T.Trace(s, OnceOnly, n).workers, id, Running) ==> T.FinishesAfter(OnceOnly, n, id)
    {
      OnceOnlyTrace(n);
      OnceOnlyStatuses(n, id, T.Trace(s, OnceOnly, n).workers);
    }
  }

  /** And good: nothing in it fails. */
  lemma OnceOnlyIsGood()
    ensures exists plan: T.Plan :: plan.preset == [JUDGE] && T.GoodPlan(plan) && T.GoodSchedule(OnceOnly, plan)
  {
    var plan := T.Plan([JUDGE], map[], id => Judge);
    OneRole(JUDGE, Clerk);
    OneRole(JUDGE, Juror);
    OneRole(JUDGE, Judge);
    assert T.GoodPlan(plan) && T.GoodSchedule(OnceOnly, plan);
  }

  /** UpdateWorkerRunning and CompleteWorker do not look at the launch id, so a process of an older
      attempt could write its success over the row of the current one. */
  function StaleSuccess(s: CourtState, id: string, result: string): CourtState {
    s.(workers := Complete(s.workers, id, Completed, result))
  }

  /** A single judge that was begun, cancelled, retried and begun again. */
  function Rebegun(): CourtState {
    var s := Start([JUDGE], ParallelConsensus, false, {});
    BeginWorker(RetryWorker(CancelWorker(BeginWorker(s, "j"), "j", true), "j", true), "j")
  }

  lemma StartedAlone()
    ensures var s := Start([JUDGE], ParallelConsensus, false, {});
            s == CourtState(ParallelConsensus, false, RunRecord(RunRunning, VerdictPhase, "", false), [NewWorker(JUDGE)], map[], [], [])
  {
    OneRole(JUDGE, Clerk);
    OneRole(JUDGE, Juror);
    OneRole(JUDGE, Judge);
    assert InitialRoles([JUDGE], ParallelConsensus) == [JUDGE];
    var empty := CourtState(ParallelConsensus, false, RunRecord(RunRunning, VerdictPhase, "", false), [], map[], [], []);
    SpawnOne(empty, JUDGE);
    assert empty.workers + [NewWorker(JUDGE)] == [NewWorker(JUDGE)];
  }

  lemma RebegunState()
    ensures var row := NewWorker(JUDGE).(status := Running, executing := true);
            var s := Rebegun();
            && s.workers == [row.(attempt := 2)] && s.run == RunRecord(RunRunning, VerdictPhase, "", false)
            && s.attempts == map[("j", 1) := row.(status := Cancelled)]
  {
    var row := NewWorker(JUDGE).(status := Running, executing := true);
    CancelledState();
    var cancelled := CancelWorker(BeginWorker(Start([JUDGE], ParallelConsensus, false, {}), "j"), "j", true);
    RetriedAlone(cancelled, row.(status := Cancelled));
    BegunAlone(RetryWorker(cancelled, "j", true), ResetRow(row.(status := Cancelled)));
  }

  lemma RetriedAlone(s: CourtState, w: Worker)
    requires s.workers == [w] && w.roleID == "j" && w.kind.Judge? && w.status.Cancelled? && w.attempt == 1 && s.attempts == map[]
    ensures var t := RetryWorker(s, "j", true);
            && t.workers == [ResetRow(w)] && t.run == RunRecord(RunRunning, VerdictPhase, "", false)
            && t.attempts == map[("j", 1) := w]
  {
  }

  lemma BegunAlone(s: CourtState, w: Worker)
    requires s.workers == [w] && w.roleID == "j" && w.status.Queued?
    ensures BeginWorker(s, "j") == s.(workers := [w.(status := Running, executing := true)])
  {
    assert BeginWorker(s, "j").workers == [w.(status := Running, executing := true)];
  }

  lemma CancelledState()
    ensures var row := NewWorker(JUDGE).(status := Running, executing := true);
            var s := CancelWorker(BeginWorker(Start([JUDGE], ParallelConsensus, false, {}), "j"), "j", true);
            s.workers == [row.(status := Cancelled)] && s.attempts == map[]
  {
    StartedAlone();
    var begun := BeginWorker(Start([JUDGE], ParallelConsensus, false, {}), "j");
    assert begun.workers == [NewWorker(JUDGE).(status := Running, executing := true)];
  }

  lemma RebegunReachable()
    ensures Inv(Rebegun())
  {
    StartHolds([JUDGE], ParallelConsensus, false, {});
    var s := Start([JUDGE], ParallelConsensus, false, {});
    BeginKeeps(s, "j");
    CancelKeeps(BeginWorker(s, "j"), "j", true);
    RetryKeeps(CancelWorker(BeginWorker(s, "j"), "j", true), "j", true);
    BeginKeeps(RetryWorker(CancelWorker(BeginWorker(s, "j"), "j", true), "j", true), "j");
  }

  /** With such a write a completed run is no longer final: the older process completes the retried
      judge and the run, the current process then fails the same row, and a retry reopens the run and
      erases its verdict. */
  lemma SupersededWriteReopensCompletedRun()
    ensures var t := ReconcileRun(StaleSuccess(Rebegun(), "j", "old verdict"), ENV);
            && Inv(Rebegun())
            && t.run.status.RunCompleted? && t.run.verdict == "old verdict"
            && var u := RetryWorker(FinishWorker(t, "j", Errored("late")), "j", true);
               u.run.status.RunRunning? && u.run.verdict == ""
  {
    RebegunState();
    RebegunReachable();
    StaleVerdict(Rebegun());
  }

  lemma StaleVerdict(s: CourtState)
    requires s.workers == [NewWorker(JUDGE).(status := Running, executing := true, attempt := 2)]
    requires s.run == RunRecord(RunRunning, VerdictPhase, "", false)
    ensures var t := ReconcileRun(StaleSuccess(s, "j", "old verdict"), ENV);
            && t.run.status.RunCompleted? && t.run.verdict == "old verdict"
            && var u := RetryWorker(FinishWorker(t, "j", Errored("late")), "j", true);
               u.run.status.RunRunning? && u.run.verdict == ""
  {
    var stale := StaleSuccess(s, "j", "old verdict");
    var done := NewWorker(JUDGE).(status := Completed, executing := true, attempt := 2, result := "old verdict");
    assert stale.workers == [done];
    JudgedAlone(stale, done);
    ReopenedAlone(ReconcileRun(stale, ENV), done);
  }

  lemma VerdictAlone(w: Worker)
    requires w.kind.Judge? && w.result != ""
    ensures FinalVerdict([w]) == w.result
  {
    var p := (w: Worker) => w.kind.Judge? && w.result != "";
    assert [] + [w] == [w];
    FilterSnoc([], w, p);
  }

  lemma JudgedAlone(s: CourtState, w: Worker)
    requires s.workers == [w] && w.kind.Judge? && w.status.Completed? && w.result != "" && s.run.status.RunRunning?
    ensures ReconcileRun(s, ENV) == s.(run := Finished(s.run, w.result))
  {
    VerdictAlone(w);
    var ws := [w];
    assert ws[0] == w && JudgeCompleted(ws) && !HasFailed(ws) && !HasCancelled(ws);
    assert ReconcileFrom(s, s.run, ws, ENV) == s.(run := Finished(s.run, FinalVerdict(ws)));
  }

  lemma ReopenedAlone(s: CourtState, w: Worker)
    requires s.workers == [w] && w.roleID == "j" && w.status.Completed? && w.executing
    ensures var u := RetryWorker(FinishWorker(s, "j", Errored("late")), "j", true);
            u.run.status.RunRunning? && u.run.verdict == ""
  {
    var late := FinishWorker(s, "j", Errored("late"));
    assert late.workers == [w.(status := Failed, result := "late", executing := false)];
  }

  /** The reconcile of a live run whose workers are settled and unjudged is the start of the next wave. */
  lemma ReconcileIsNextWave(s: CourtState, preset: seq<Role>, env: Surroundings)
    requires !s.run.status.Terminal() && s.workers != [] && env.preset == Some(preset)
    requires AllCompleted(s.workers) && !HasKind(s.workers, Judge)
    ensures ReconcileRun(s, env) == NextWave(s, s.workers, preset, env)
    ensures !HasActive(s.workers)
  {
  }

  const FIRST := Role("a", Clerk, "")
  const SECOND := Role("b", Clerk, "")
  const REVIEWER := Role("x", Juror, "")
  const EMPTY := CourtState(ParallelConsensus, false, RunRecord(RunRunning, ClerkPhase, "", false), [], map[], [], [])

  /** A wave is spawned one insert at a time. If the first clerk could start, complete and be
      reconciled before the second is inserted, jurors would appear beside a queued clerk. */
  lemma InterleavedSpawnBreaksWaves()
    ensures var env := Surroundings(Some([FIRST, SECOND, REVIEWER]), None, map[], {});
            var half := Spawn(EMPTY, [FIRST], {});
            var reconciled := ReconcileRun(FinishWorker(BeginWorker(half, "a"), "a", Succeeded("notes")), env);
            !Waves(Spawn(reconciled, [SECOND], {}).workers)
  {
    var env := Surroundings(Some([FIRST, SECOND, REVIEWER]), None, map[], {});
    SpawnOne(EMPTY, FIRST);
    var half := Spawn(EMPTY, [FIRST], {});
    assert half.workers == [NewWorker(FIRST)];
    var begun := BeginWorker(half, "a");
    assert begun.workers == [NewWorker(FIRST).(status := Running, executing := true)];
    var finished := FinishWorker(begun, "a", Succeeded("notes"));
    var done := NewWorker(FIRST).(status := Completed, result := "notes");
    assert finished.workers == [done] && finished == EMPTY.(workers := [done]);
    JurorFollows(finished, done, env);
    var reconciled := ReconcileRun(finished, env);
    SpawnOne(reconciled, SECOND);
    var ws := Spawn(reconciled, [SECOND], {}).workers;
    assert ws[1].kind.Juror? && ws[2].kind.Clerk? && ws[2].status.Queued?;
  }

  lemma JurorFollows(s: CourtState, done: Worker, env: Surroundings)
    requires s == EMPTY.(workers := [done]) && done.roleID == "a" && done.kind.Clerk? && done.status.Completed?
    requires env == Surroundings(Some([FIRST, SECOND, REVIEWER]), None, map[], {})
    ensures ReconcileRun(s, env).workers == [done, NewWorker(REVIEWER)]
  {
    var preset := [FIRST, SECOND, REVIEWER];
    ThreeRoles(FIRST, SECOND, REVIEWER);
    ReconcileIsNextWave(s, preset, env);
    assert s.workers[0] == done && ClerkReadyForJurors(s.workers, preset) && !HasKind(s.workers, Juror);
    var moved := s.(run := s.run.(phase := JurorsPhase));
    SpawnOne(moved, REVIEWER);
    assert NextWave(s, s.workers, preset, env) == Spawn(moved, [REVIEWER], {});
  }

  lemma ThreeRoles(a: Role, b: Role, c: Role)
    requires a.kind.Clerk? && b.kind.Clerk? && c.kind.Juror?
    ensures RolesOfKind([a, b, c], Clerk) != [] && RolesOfKind([a, b, c], Juror) == [c]
  {
    assert [a, b] + [c] == [a, b, c];
    OneRole(a, Clerk);
    OneRole(a, Juror);
    OneRole(b, Juror);
    TwoRoles(a, b, Clerk);
    TwoRoles(a, b, Juror);
    KindSnoc([a, b], c, Clerk);
    KindSnoc([a, b], c, Juror);
  }

  /** The state of a run whose juror and judge share the id "a", once the juror is completed. */
  ghost predicate StuckOnSharedRole(s: CourtState) {
    && s.run.status.RunRunning? && !s.delegating && !s.workflow.ReviewOnly?
    && |s.workers| == 1 && s.workers[0].roleID == "a" && s.workers[0].kind.Juror?
    && s.workers[0].status.Completed? && !s.workers[0].executing
  }

  ghost predicate SharedStep(step: Step) {
    step.Reconcile? ==> step.env.preset == Some([Role("a", Juror, ""), Role("a", Judge, "")])
  }

  /** Disjoint role ids are needed for termination: with a shared id the judge is taken to exist
      already, and no operation at all ever completes the run. */
  lemma {:induction false} SharedRoleNeverCompletes(s: CourtState, steps: seq<Step>)
    requires StuckOnSharedRole(s)
    requires forall i :: 0 <= i < |steps| ==> SharedStep(steps[i])
    ensures StuckOnSharedRole(Exec(s, steps))
  {
    if steps != [] {
      SharedRoleNeverCompletes(s, steps[..|steps| - 1]);
      SharedRoleStep(Exec(s, steps[..|steps| - 1]), steps[|steps| - 1]);
    }
  }

  lemma SharedRoleStep(s: CourtState, step: Step)
    requires StuckOnSharedRole(s) && SharedStep(step)
    ensures StuckOnSharedRole(Apply(s, step))
  {
    match step
    case Reconcile(env) => SharedRoleReconcile(s, env);
    case Finish(id, outcome) =>
    case Retry(id, launched) =>
    case Begin(_) =>
    case Attach(_) =>
    case Poll(_, _) =>
    case Cancel(_, _) =>
    case Interrupt(_, _) =>
    case Resume(_, _) =>
  }

  lemma SharedRoleReconcile(s: CourtState, env: Surroundings)
    requires StuckOnSharedRole(s) && SharedStep(Reconcile(env))
    ensures ReconcileRun(s, env) == s
  {
    var juror, judge := Role("a", Juror, ""), Role("a", Judge, "");
    SharedPreset(juror, judge);
    NothingMissing(s, judge);
    ReconcileIsNextWave(s, [juror, judge], env);
    SharedRoleWave(s, [juror, judge], judge, env);
  }

  lemma SharedPreset(juror: Role, judge: Role)
    requires juror.kind.Juror? && judge.kind.Judge?
    ensures RolesOfKind([juror, judge], Clerk) == [] && PresetJudge([juror, judge]) == [judge]
  {
    OneRole(juror, Clerk);
    OneRole(juror, Judge);
    OneRole(judge, Clerk);
    OneRole(judge, Judge);
    TwoRoles(juror, judge, Clerk);
    TwoRoles(juror, judge, Judge);
  }

  lemma NothingMissing(s: CourtState, judge: Role)
    requires StuckOnSharedRole(s) && judge.id == "a"
    ensures Missing([judge], s.workers) == []
  {
    assert s.workers[0].roleID == "a" && HasRole(s.workers, "a");
    assert forall x :: x in Missing([judge], s.workers) ==> x == judge;
  }

  lemma SharedRoleWave(s: CourtState, preset: seq<Role>, judge: Role, env: Surroundings)
    requires StuckOnSharedRole(s) && RolesOfKind(preset, Clerk) == [] && PresetJudge(preset) == [judge]
    requires Missing([judge], s.workers) == []
    ensures NextWave(s, s.workers, preset, env) == s
  {
    assert !HasActive(s.workers);
  }

  /** Exactly when a reconcile of a running run with every worker completed gets nowhere: the roles of
      the wave it is due to start all have a worker already, or a docket judge cannot be found. */
  lemma StallsExactly(s: CourtState, preset: seq<Role>, env: Surroundings)
    requires s.run.status.RunRunning? && AllCompleted(s.workers) && env.failing == {} && env.preset == Some(preset)
    requires s.workers != [] && !HasKind(s.workers, Judge)
    ensures var t := ReconcileRun(s, env);
            var jurors := PromoteDocket(s.delegating, preset, env.delegation).jurors;
            var judges := JudgeRoles(s.delegating, s.judgeIDs, preset, env.catalog);
            (t.workers == s.workers && t.run.status.RunRunning?) <==>
              if ClerkReadyForJurors(s.workers, preset) && !HasKind(s.workers, Juror) then
                forall k :: 0 <= k < |jurors| ==> HasRole(s.workers, jurors[k].id)
              else
                && !s.workflow.ReviewOnly?
                && (judges.None? || (judges.value != [] && forall k :: 0 <= k < |judges.value| ==> HasRole(s.workers, judges.value[k].id)))
  {
    ReconcileIsNextWave(s, preset, env);
    if ClerkReadyForJurors(s.workers, preset) && !HasKind(s.workers, Juror) {
      var chosen := PromoteDocket(s.delegating, preset, env.delegation);
      SpawnStalls(s.(judgeIDs := chosen.judgeIDs, run := s.run.(phase := JurorsPhase)), chosen.jurors);
    } else if !s.workflow.ReviewOnly? {
      var judges := JudgeRoles(s.delegating, s.judgeIDs, preset, env.catalog);
      if judges.Some? {
        SpawnStalls(s.(run := s.run.(phase := VerdictPhase)), Missing(judges.value, s.workers));
        MissingStalls(judges.value, s.workers);
      }
    }
  }

  /** The judges still to be spawned are present only if there are none. */
  lemma MissingStalls(judges: seq<Role>, ws: seq<Worker>)
    ensures var missing := Missing(judges, ws);
            && (missing == [] <==> forall k :: 0 <= k < |judges| ==> HasRole(ws, judges[k].id))
            && ((forall k :: 0 <= k < |missing| ==> HasRole(ws, missing[k].id)) <==> missing == [])
  {
    var missing := Missing(judges, ws);
    if missing != [] {
      assert missing[0] in judges;
    } else {
      assert forall k :: 0 <= k < |judges| ==> judges[k] !in missing;
    }
  }

  lemma SpawnStalls(s: CourtState, roles: seq<Role>)
    ensures Spawn(s, roles, {}).run == s.run
    ensures Spawn(s, roles, {}).workers == s.workers <==> forall k :: 0 <= k < |roles| ==> HasRole(s.workers, roles[k].id)
  {
    SpawnCovers(s, roles);
    if forall k :: 0 <= k < |roles| ==> HasRole(s.workers, roles[k].id) {
      CourtProperties.SpawnOfPresent(s, roles, {});
    }
  }
}
