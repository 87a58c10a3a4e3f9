/** A run whose workers all succeed reaches a verdict, in at most three waves. */
module CourtTermination {
  import opened Lists
  import opened CourtTypes
  import opened Court
  import opened CourtInvariants
  import CourtProperties

  /** What stays fixed while a run goes well. `kindOf` says which kind each role id stands for: it
      exists exactly when clerk, juror and judge role ids are pairwise disjoint. */
  datatype Plan = Plan(preset: seq<Role>, catalog: map<string, Role>, kindOf: string -> RoleKind)

  ghost predicate Named(roles: seq<Role>, plan: Plan) {
    forall k :: 0 <= k < |roles| ==> plan.kindOf(roles[k].id) == roles[k].kind
  }

  /** The judges a docket leads to are found, and their ids stand for judges. */
  ghost predicate BenchFound(delegating: bool, judgeIDs: seq<string>, plan: Plan) {
    var judges := JudgeRoles(delegating, judgeIDs, plan.preset, plan.catalog);
    judges.Some? && Named(judges.value, plan)
  }

  ghost predicate GoodPlan(plan: Plan) {
    Named(RolesOfKind(plan.preset, Clerk), plan) && Named(RolesOfKind(plan.preset, Juror), plan)
    && Named(RolesOfKind(plan.preset, Judge), plan)
  }

  ghost predicate GoodSurroundings(env: Surroundings, plan: Plan) {
    && env.preset == Some(plan.preset) && env.catalog == plan.catalog && env.failing == {}
    && (env.delegation.Some? ==> Named(env.delegation.value.jurors, plan) && BenchFound(true, env.delegation.value.judgeIDs, plan))
  }

  /** Steps of a run in which nothing fails and nobody cancels. */
  ghost predicate GoodStep(step: Step, plan: Plan) {
    match step
    case Begin(_) => true
    case Attach(_) => true
    case Poll(_, _) => true
    case Interrupt(_, _) => true
    case Resume(_, _) => true
    case Finish(_, outcome) => outcome.Succeeded?
    case Reconcile(env) => GoodSurroundings(env, plan)
    case Cancel(_, _) => false
    case Retry(_, _) => false
  }

  ghost predicate CalmRow(w: Worker, plan: Plan) {
    && !w.status.Failed? && !w.status.Cancelled? && (w.status.Running? ==> w.executing)
    && !w.kind.OtherKind? && plan.kindOf(w.roleID) == w.kind
  }

  ghost predicate Calm(s: CourtState, plan: Plan) {
    && Inv(s) && GoodPlan(plan) && s.workers != []
    && (s.run.status.RunRunning? || s.run.status.RunCompleted?)
    && (forall i :: 0 <= i < |s.workers| ==> CalmRow(s.workers[i], plan))
    && BenchFound(s.delegating, s.judgeIDs, plan)
  }

  // The measure

  function WavesLeft(ws: seq<Worker>): nat {
    if HasKind(ws, Judge) then 0 else if HasKind(ws, Juror) then 1 else 2
  }

  function Rank(s: CourtState): nat {
    if s.run.status.RunCompleted? then 0 else 1 + WavesLeft(s.workers)
  }

  function Weight(status: WorkerStatus): nat {
    if status.Queued? then 2 else if status.Running? then 1 else 0
  }

  function Unfinished(ws: seq<Worker>): nat {
    if ws == [] then 0 else Unfinished(ws[..|ws| - 1]) + Weight(ws[|ws| - 1].status)
  }

  ghost predicate Less(t: CourtState, s: CourtState) {
    Rank(t) < Rank(s) || (Rank(t) == Rank(s) && Unfinished(t.workers) < Unfinished(s.workers))
  }

  /** Same statuses, row by row. */
  ghost predicate Still(s: CourtState, t: CourtState) {
    && t.run.status == s.run.status && |t.workers| == |s.workers|
    && forall i :: 0 <= i < |s.workers| ==>
         && t.workers[i].status == s.workers[i].status && t.workers[i].kind == s.workers[i].kind
         && t.workers[i].roleID == s.workers[i].roleID
  }

  lemma {:induction false} UnfinishedMonotone(ws: seq<Worker>, ws': seq<Worker>)
    requires |ws| == |ws'|
    requires forall i :: 0 <= i < |ws| ==> Weight(ws'[i].status) <= Weight(ws[i].status)
    ensures Unfinished(ws') <= Unfinished(ws)
    ensures (exists i :: 0 <= i < |ws| && Weight(ws'[i].status) < Weight(ws[i].status)) ==> Unfinished(ws') < Unfinished(ws)
  {
    if ws != [] {
      var n := |ws| - 1;
      UnfinishedMonotone(ws[..n], ws'[..n]);
      if i :| 0 <= i < |ws| && Weight(ws'[i].status) < Weight(ws[i].status) {
        if i < n {
          assert Weight(ws'[..n][i].status) < Weight(ws[..n][i].status);
        }
      }
    }
  }

  lemma SameKinds(ws: seq<Worker>, ws': seq<Worker>)
    requires |ws| == |ws'| && forall i :: 0 <= i < |ws| ==> ws'[i].kind == ws[i].kind
    ensures WavesLeft(ws) == WavesLeft(ws')
  {
    forall k: RoleKind
      ensures HasKind(ws, k) <==> HasKind(ws', k)
    {
      if i :| 0 <= i < |ws| && ws[i].kind == k {
        assert ws'[i].kind == k;
      }
      if i :| 0 <= i < |ws'| && ws'[i].kind == k {
        assert ws[i].kind == k;
      }
    }
  }

  lemma StillSameMeasure(s: CourtState, t: CourtState)
    requires Still(s, t)
    ensures Rank(t) == Rank(s) && Unfinished(t.workers) == Unfinished(s.workers)
  {
    UnfinishedMonotone(s.workers, t.workers);
    UnfinishedMonotone(t.workers, s.workers);
    SameKinds(s.workers, t.workers);
  }

  // Steps of workers

  /** One row of a good run can only move down the queued, running, completed order. */
  ghost predicate RowSettles(w: Worker, w': Worker, plan: Plan) {
    && w'.kind == w.kind && w'.roleID == w.roleID && CalmRow(w', plan)
    && (w'.status == w.status || Weight(w'.status) < Weight(w.status))
  }

  ghost predicate RowsSettle(s: CourtState, t: CourtState, plan: Plan) {
    && t.run == s.run && t.delegating == s.delegating && t.judgeIDs == s.judgeIDs && |t.workers| == |s.workers|
    && forall i :: 0 <= i < |s.workers| ==> RowSettles(s.workers[i], t.workers[i], plan)
  }

  lemma BeginSettles(s: CourtState, id: string, plan: Plan)
    requires Calm(s, plan)
    ensures RowsSettle(s, BeginWorker(s, id), plan)
  {
    FindUnique(s.workers, id);
  }

  lemma FinishSettles(s: CourtState, id: string, result: string, plan: Plan)
    requires Calm(s, plan)
    ensures RowsSettle(s, FinishWorker(s, id, Succeeded(result)), plan)
  {
    FinishRows(s, id, Succeeded(result));
    var t := FinishWorker(s, id, Succeeded(result));
    forall i | 0 <= i < |s.workers|
      ensures RowSettles(s.workers[i], t.workers[i], plan)
    {
      assert CalmRow(s.workers[i], plan);
      assert s.workers[i].executing ==> s.workers[i].status.Running?;
    }
  }

  lemma ProcessSettles(s: CourtState, id: string, answers: seq<bool>, flag: bool, plan: Plan)
    requires Unique(s.workers) && forall i :: 0 <= i < |s.workers| ==> CalmRow(s.workers[i], plan)
    ensures RowsSettle(s, AttachSession(s, id), plan) && RowsSettle(s, PollControls(s, id, answers), plan)
    ensures RowsSettle(s, InterruptWorker(s, id, flag), plan) && RowsSettle(s, ResumeWorker(s, id, flag), plan)
  {
  }

  lemma RowStepSettles(s: CourtState, step: Step, plan: Plan)
    requires Calm(s, plan) && GoodStep(step, plan) && !step.Reconcile?
    ensures RowsSettle(s, Apply(s, step), plan)
  {
    match step
    case Begin(id) => BeginSettles(s, id, plan);
    case Finish(id, outcome) => FinishSettles(s, id, outcome.result, plan);
    case Attach(id) => ProcessSettles(s, id, [], false, plan);
    case Poll(id, answers) => ProcessSettles(s, id, answers, false, plan);
    case Interrupt(id, delivered) => ProcessSettles(s, id, [], delivered, plan);
    case Resume(id, adopted) => ProcessSettles(s, id, [], adopted, plan);
    case Cancel(_, _) =>
    case Retry(_, _) =>
  }

  lemma SettledMeasure(s: CourtState, t: CourtState, plan: Plan)
    requires RowsSettle(s, t, plan)
    ensures Less(t, s) || Still(s, t)
  {
    forall i | 0 <= i < |s.workers|
      ensures Weight(t.workers[i].status) <= Weight(s.workers[i].status)
    {
      assert RowSettles(s.workers[i], t.workers[i], plan);
    }
    UnfinishedMonotone(s.workers, t.workers);
    forall i | 0 <= i < |s.workers|
      ensures t.workers[i].kind == s.workers[i].kind && t.workers[i].roleID == s.workers[i].roleID
    {
      assert RowSettles(s.workers[i], t.workers[i], plan);
    }
    SameKinds(s.workers, t.workers);
    if !Still(s, t) {
      var i :| 0 <= i < |s.workers| && t.workers[i].status != s.workers[i].status;
      assert RowSettles(s.workers[i], t.workers[i], plan);
    }
  }

  lemma RowStep(s: CourtState, step: Step, plan: Plan)
    requires Calm(s, plan) && GoodStep(step, plan) && !step.Reconcile?
    ensures Calm(Apply(s, step), plan)
    ensures Less(Apply(s, step), s) || Still(s, Apply(s, step))
    ensures |Apply(s, step).workers| == |s.workers|
  {
    StepKeeps(s, step);
    RowStepSettles(s, step, plan);
    SettledMeasure(s, Apply(s, step), plan);
    SettledCalm(s, Apply(s, step), plan);
  }

  lemma SettledCalm(s: CourtState, t: CourtState, plan: Plan)
    requires Calm(s, plan) && RowsSettle(s, t, plan) && Inv(t)
    ensures Calm(t, plan)
  {
    forall i | 0 <= i < |t.workers|
      ensures CalmRow(t.workers[i], plan)
    {
      assert RowSettles(s.workers[i], t.workers[i], plan);
    }
  }

  // Reconciles

  /** Spawning a wave of one kind, none of whose roles exists yet, keeps the run calm and uses up a wave. */
  lemma WaveSpawned(s: CourtState, roles: seq<Role>, kind: RoleKind, plan: Plan)
    requires Calm(s, plan) && s.run.status.RunRunning? && AllCompleted(s.workers)
    requires roles != [] && Named(roles, plan) && forall k :: 0 <= k < |roles| ==> roles[k].kind == kind
    requires kind.Juror? || kind.Judge?
    requires !HasKind(s.workers, Judge) && (kind.Juror? ==> !HasKind(s.workers, Juror))
    ensures var t := Spawn(s, roles, {});
            && Calm(t, plan) && t.run == s.run && WavesLeft(t.workers) < WavesLeft(s.workers)
            && |t.workers| > |s.workers| && HasActive(t.workers)
  {
    var t := Spawn(s, roles, {});
    SpawnKeeps(s, roles, {}, kind);
    SpawnShape(s, roles, {});
    SpawnCovers(s, roles);
    forall i | 0 <= i < |t.workers|
      ensures CalmRow(t.workers[i], plan)
      ensures i < |s.workers| ==> t.workers[i] == s.workers[i]
      ensures i >= |s.workers| ==> t.workers[i].kind == kind && t.workers[i].status.Queued?
    {
      if i >= |s.workers| {
        assert SpawnedRow(t.workers[i], roles, {});
      }
    }
    assert HasRole(t.workers, roles[0].id);
    var j :| 0 <= j < |t.workers| && t.workers[j].roleID == roles[0].id;
    assert CalmRow(t.workers[j], plan) && t.workers[j].kind == kind;
    assert j >= |s.workers|;
    assert HasKind(t.workers, kind);
    assert kind.Juror? ==> !HasKind(t.workers, Judge);
  }

  lemma MissingAll(judges: seq<Role>, ws: seq<Worker>, plan: Plan)
    requires Named(judges, plan) && forall k :: 0 <= k < |judges| ==> judges[k].kind.Judge?
    requires !HasKind(ws, Judge) && forall i :: 0 <= i < |ws| ==> CalmRow(ws[i], plan)
    ensures Named(Missing(judges, ws), plan)
    ensures forall x :: x in Missing(judges, ws) ==> x.kind.Judge?
    ensures judges != [] ==> Missing(judges, ws) != []
  {
    var missing := Missing(judges, ws);
    forall k | 0 <= k < |missing|
      ensures plan.kindOf(missing[k].id) == missing[k].kind && missing[k].kind.Judge?
    {
      assert missing[k] in judges;
    }
    if judges != [] {
      assert forall i :: 0 <= i < |ws| && CalmRow(ws[i], plan) ==> ws[i].roleID != judges[0].id;
      assert !HasRole(ws, judges[0].id);
      assert judges[0] in missing;
    }
  }

  /** A reconcile of a calm run with unfinished workers only refreshes the phase; once all are
      completed it completes the run or starts the next wave. */
  lemma ReconcileStep(s: CourtState, env: Surroundings, plan: Plan)
    requires Calm(s, plan) && GoodSurroundings(env, plan)
    ensures var t := ReconcileRun(s, env);
            && Calm(t, plan)
            && (HasActive(s.workers) || s.run.status.RunCompleted? ==> Still(s, t))
            && (!HasActive(s.workers) && s.run.status.RunRunning? ==> Rank(t) < Rank(s) && (t.run.status.RunCompleted? || HasActive(t.workers)))
            && (t.workers == s.workers || (|t.workers| > |s.workers| && WavesLeft(t.workers) < WavesLeft(s.workers)))
  {
    var ws, preset := s.workers, plan.preset;
    ReconcileKeeps(s, env);
    assert !HasFailed(ws) && !HasCancelled(ws) by {
      assert forall i :: 0 <= i < |ws| ==> CalmRow(ws[i], plan);
    }
    if s.run.status.RunRunning? {
      if JudgeCompleted(ws) {
        JudgedMeansCompleted(ws);
      } else if !HasActive(ws) {
        AllCompletedWave(s, env, plan);
      }
    }
  }

  ghost predicate Advances(s: CourtState, t: CourtState, plan: Plan) {
    && Calm(t, plan) && Rank(t) < Rank(s) && (t.run.status.RunCompleted? || HasActive(t.workers))
    && (t.workers == s.workers || (|t.workers| > |s.workers| && WavesLeft(t.workers) < WavesLeft(s.workers)))
  }

  lemma AllCompletedWave(s: CourtState, env: Surroundings, plan: Plan)
    requires Calm(s, plan) && GoodSurroundings(env, plan) && s.run.status.RunRunning?
    requires !HasActive(s.workers) && !JudgeCompleted(s.workers)
    requires Inv(NextWave(s, s.workers, plan.preset, env))
    ensures Advances(s, NextWave(s, s.workers, plan.preset, env), plan)
  {
    var ws, preset := s.workers, plan.preset;
    assert AllCompleted(ws) by {
      assert forall i :: 0 <= i < |ws| ==> CalmRow(ws[i], plan);
    }
    assert !HasKind(ws, Judge);
    if ClerkReadyForJurors(ws, preset) && !HasKind(ws, Juror) {
      JurorWave(s, env, plan);
    } else if !s.workflow.ReviewOnly? {
      JudgeWave(s, env, plan);
    }
  }

  lemma JurorWave(s: CourtState, env: Surroundings, plan: Plan)
    requires Calm(s, plan) && GoodSurroundings(env, plan) && s.run.status.RunRunning?
    requires AllCompleted(s.workers) && !HasKind(s.workers, Judge) && !HasKind(s.workers, Juror)
    requires ClerkReadyForJurors(s.workers, plan.preset)
    ensures Advances(s, NextWave(s, s.workers, plan.preset, env), plan)
  {
    var chosen := PromoteDocket(s.delegating, plan.preset, env.delegation);
    var moved := s.(judgeIDs := chosen.judgeIDs, run := s.run.(phase := JurorsPhase));
    PhaseKeeps(s, JurorsPhase, chosen.judgeIDs);
    assert BenchFound(moved.delegating, moved.judgeIDs, plan);
    WaveSpawned(moved, chosen.jurors, Juror, plan);
    assert NextWave(s, s.workers, plan.preset, env) == Spawn(moved, chosen.jurors, {});
  }

  lemma JudgeWave(s: CourtState, env: Surroundings, plan: Plan)
    requires Calm(s, plan) && GoodSurroundings(env, plan) && s.run.status.RunRunning? && !s.workflow.ReviewOnly?
    requires AllCompleted(s.workers) && !HasKind(s.workers, Judge)
    requires !(ClerkReadyForJurors(s.workers, plan.preset) && !HasKind(s.workers, Juror))
    requires Inv(NextWave(s, s.workers, plan.preset, env))
    ensures Advances(s, NextWave(s, s.workers, plan.preset, env), plan)
  {
    var judges := JudgeRoles(s.delegating, s.judgeIDs, plan.preset, env.catalog).value;
    MissingAll(judges, s.workers, plan);
    if judges != [] {
      var moved := s.(run := s.run.(phase := VerdictPhase));
      PhaseKeeps(s, VerdictPhase, s.judgeIDs);
      WaveSpawned(moved, Missing(judges, s.workers), Judge, plan);
      assert NextWave(s, s.workers, plan.preset, env) == Spawn(moved, Missing(judges, s.workers), {});
    }
  }

  // Whole runs

  lemma GoodStepMeasure(s: CourtState, step: Step, plan: Plan)
    requires Calm(s, plan) && GoodStep(step, plan)
    ensures var t := Apply(s, step);
            && Calm(t, plan) && (Less(t, s) || Still(s, t))
            && (|t.workers| == |s.workers| || WavesLeft(t.workers) < WavesLeft(s.workers))
            && WavesLeft(t.workers) <= WavesLeft(s.workers)
  {
    if step.Reconcile? {
      ReconcileStep(s, step.env, plan);
    } else {
      RowStep(s, step, plan);
      RowStepSettles(s, step, plan);
      assert forall i :: 0 <= i < |s.workers| ==> RowSettles(s.workers[i], Apply(s, step).workers[i], plan);
      SameKinds(s.workers, Apply(s, step).workers);
    }
  }

  /** The schedule as an infinite sequence, and the states it goes through. */
  function Trace(s: CourtState, schedule: nat -> Step, n: nat): CourtState {
    if n == 0 then s else Apply(Trace(s, schedule, n - 1), schedule(n - 1))
  }

  ghost predicate GoodSchedule(schedule: nat -> Step, plan: Plan) {
    forall n: nat :: GoodStep(schedule(n), plan)
  }

  ghost predicate BeginsAfter(schedule: nat -> Step, n: nat, id: string) {
    exists m: nat :: m >= n && schedule(m) == Begin(id)
  }

  ghost predicate FinishesAfter(schedule: nat -> Step, n: nat, id: string) {
    exists m: nat :: m >= n && schedule(m).Finish? && schedule(m).id == id
  }

  ghost predicate ReconcilesAfter(schedule: nat -> Step, n: nat) {
    exists m: nat :: m >= n && schedule(m).Reconcile?
  }

  predicate Has(ws: seq<Worker>, id: string, status: WorkerStatus) {
    exists i :: 0 <= i < |ws| && ws[i].roleID == id && ws[i].status == status
  }

  /** The step is the end of a process: it executes, and writes its outcome. */
  predicate EndsProcess(s: CourtState, step: Step) {
    step.Finish? && Find(s.workers, step.id).Some? && Find(s.workers, step.id).value.executing
  }

  /** What the engine does for its workers: the process of a queued worker begins some time, that of a running
      worker ends some time, and the end of a process is followed by a reconcile. Nothing need happen twice, and
      nothing at all is asked once the workers are done. */
  ghost predicate Fair(s: CourtState, schedule: nat -> Step) {
    && (forall n: nat, id: string :: Has(Trace(s, schedule, n).workers, id, Queued) ==> BeginsAfter(schedule, n, id))
    && (forall n: nat, id: string :: Has(Trace(s, schedule, n).workers, id, Running) ==> FinishesAfter(schedule, n, id))
    && (forall n: nat :: EndsProcess(Trace(s, schedule, n), schedule(n)) ==> ReconcilesAfter(schedule, n + 1))
  }

  lemma CalmStep(s: CourtState, step: Step, plan: Plan)
    requires Calm(s, plan) && GoodStep(step, plan)
    ensures Calm(Apply(s, step), plan)
  {
    GoodStepMeasure(s, step, plan);
  }

  lemma CalmNext(s: CourtState, schedule: nat -> Step, plan: Plan, n: nat, now: CourtState)
    requires now == Trace(s, schedule, n) && Calm(now, plan) && GoodSchedule(schedule, plan)
    ensures Calm(Trace(s, schedule, n + 1), plan)
  {
    CalmStep(now, schedule(n), plan);
  }

  ghost predicate CalmAt(s: CourtState, schedule: nat -> Step, plan: Plan, n: nat) {
    Calm(Trace(s, schedule, n), plan)
  }

  lemma CalmFirst(s: CourtState, schedule: nat -> Step, plan: Plan)
    requires Calm(s, plan)
    ensures CalmAt(s, schedule, plan, 0)
  {
  }

  lemma Induct(p: nat -> bool, n: nat)
    requires p(0) && forall k: nat :: p(k) ==> p(k + 1)
    ensures p(n)
  {
    if n > 0 {
      Induct(p, n - 1);
      assert p(n - 1 + 1);
    }
  }

  lemma CalmAlways(s: CourtState, schedule: nat -> Step, plan: Plan, p: nat -> bool)
    requires Calm(s, plan) && GoodSchedule(schedule, plan)
    requires forall k: nat :: p(k) <==> CalmAt(s, schedule, plan, k)
    ensures forall n: nat :: p(n)
  {
    CalmFirst(s, schedule, plan);
    forall k: nat | p(k)
      ensures p(k + 1)
    {
      CalmNext(s, schedule, plan, k, Trace(s, schedule, k));
    }
    forall n: nat
      ensures p(n)
    {
      Induct(p, n);
    }
  }

  lemma TraceCalm(s: CourtState, schedule: nat -> Step, plan: Plan, n: nat)
    requires Calm(s, plan) && GoodSchedule(schedule, plan)
    ensures Calm(Trace(s, schedule, n), plan)
  {
    ghost var p := (k: nat) => CalmAt(s, schedule, plan, k);
    CalmAlways(s, schedule, plan, p);
    assert p(n);
  }

  /** From a to b either the measure has gone down or no status has moved. */
  ghost predicate Descends(a: CourtState, b: CourtState) {
    Less(b, a) || Still(a, b)
  }

  lemma DescendsTransitive(a: CourtState, b: CourtState, c: CourtState)
    requires Descends(a, b) && Descends(b, c)
    ensures Descends(a, c)
    ensures Less(c, b) ==> Less(c, a)
  {
    if Still(a, b) {
      StillSameMeasure(a, b);
    }
    if Still(b, c) {
      StillSameMeasure(b, c);
    }
  }

  lemma {:induction false} DescendsLong(trace: nat -> CourtState, n: nat, m: nat)
    requires n <= m && forall k: nat :: n <= k < m ==> Descends(trace(k), trace(k + 1))
    ensures Descends(trace(n), trace(m))
    decreases m - n
  {
    if n < m {
      DescendsLong(trace, n, m - 1);
      assert Descends(trace(m - 1), trace(m - 1 + 1));
      DescendsTransitive(trace(n), trace(m - 1), trace(m));
    }
  }

  /** If every uncompleted moment is followed by a lower one, a completed moment comes. */
  lemma Descent(trace: nat -> CourtState, n: nat) returns (end: nat)
    requires forall k: nat :: !trace(k).run.status.RunCompleted? ==> Lowered(trace, k)
    ensures end >= n && trace(end).run.status.RunCompleted?
    decreases Rank(trace(n)), Unfinished(trace(n).workers)
  {
    if trace(n).run.status.RunCompleted? {
      return n;
    }
    assert Lowered(trace, n);
    var m: nat :| m >= n && Less(trace(m), trace(n));
    end := Descent(trace, m);
  }

  ghost predicate Lowered(trace: nat -> CourtState, k: nat) {
    exists m: nat :: m >= k && Less(trace(m), trace(k))
  }

  /** The step at moment k, taken in a state whose statuses are still those of `now`, lowers the measure. */
  ghost predicate StillLowers(s: CourtState, schedule: nat -> Step, n: nat, k: nat) {
    Still(Trace(s, schedule, n), Trace(s, schedule, k)) ==> Less(Trace(s, schedule, k + 1), Trace(s, schedule, k))
  }

  /** Whatever leaves no worker active is the end of a process. */
  lemma LastEnd(s: CourtState, step: Step, plan: Plan)
    requires Calm(s, plan) && GoodStep(step, plan)
    requires HasActive(s.workers) && !HasActive(Apply(s, step).workers)
    ensures EndsProcess(s, step)
  {
    var i :| 0 <= i < |s.workers| && (s.workers[i].status.Queued? || s.workers[i].status.Running?);
    if step.Reconcile? {
      ReconcileKeepsActive(s, step.env, plan);
    } else if !EndsProcess(s, step) {
      ActiveUnlessEnded(s, step, i);
    }
  }

  lemma ReconcileKeepsActive(s: CourtState, env: Surroundings, plan: Plan)
    requires Calm(s, plan) && GoodSurroundings(env, plan) && HasActive(s.workers)
    ensures HasActive(ReconcileRun(s, env).workers)
  {
    ReconcileStep(s, env, plan);
    var i :| 0 <= i < |s.workers| && (s.workers[i].status.Queued? || s.workers[i].status.Running?);
    assert ReconcileRun(s, env).workers[i].status == s.workers[i].status;
  }

  lemma ActiveUnlessEnded(s: CourtState, step: Step, i: nat)
    requires i < |s.workers| && (s.workers[i].status.Queued? || s.workers[i].status.Running?)
    requires !step.Reconcile? && !step.Cancel? && !step.Retry? && !EndsProcess(s, step)
    ensures HasActive(Apply(s, step).workers)
  {
    var ws := Apply(s, step).workers;
    assert |ws| == |s.workers| && (ws[i].status == s.workers[i].status || ws[i].status.Running?);
  }

  lemma CompletedStays(s: CourtState, step: Step, plan: Plan)
    requires Calm(s, plan) && GoodStep(step, plan) && s.run.status.RunCompleted?
    ensures Apply(s, step).run == s.run
  {
    CourtProperties.CompletedStepChangesNothing(s, step);
  }

  /** A run that is not completed and has no worker active is owed a reconcile. */
  predicate Owed(s: CourtState) {
    !s.run.status.RunCompleted? && !HasActive(s.workers)
  }

  /** A reconcile settles what is owed; before it, only the end of a process can make a reconcile owed. */
  lemma OwedStep(s: CourtState, step: Step, plan: Plan)
    requires Calm(s, plan) && GoodStep(step, plan) && Owed(Apply(s, step))
    ensures EndsProcess(s, step) || (Owed(s) && !step.Reconcile?)
  {
    if s.run.status.RunCompleted? {
      CompletedStays(s, step, plan);
    } else if HasActive(s.workers) {
      LastEnd(s, step, plan);
    } else if step.Reconcile? {
      ReconcileStep(s, step.env, plan);
    }
  }

  lemma OwedNext(s: CourtState, schedule: nat -> Step, plan: Plan, n: nat, now: CourtState)
    requires now == Trace(s, schedule, n) && Calm(now, plan) && GoodSchedule(schedule, plan) && Fair(s, schedule)
    requires Owed(Trace(s, schedule, n + 1))
    ensures ReconcilesAfter(schedule, n + 1) || (Owed(now) && !schedule(n).Reconcile?)
  {
    OwedStep(now, schedule(n), plan);
  }

  lemma {:induction false} OwedSince(owed: nat -> bool, schedule: nat -> Step, n: nat)
    requires !owed(0) && owed(n)
    requires forall k: nat :: owed(k + 1) ==> ReconcilesAfter(schedule, k + 1) || (owed(k) && !schedule(k).Reconcile?)
    ensures ReconcilesAfter(schedule, n)
  {
    assert owed(n - 1 + 1);
    if owed(n - 1) && !schedule(n - 1).Reconcile? {
      OwedSince(owed, schedule, n - 1);
      var m: nat :| m >= n - 1 && schedule(m).Reconcile?;
      assert m >= n;
    }
  }

  /** Since each end of a process is followed by a reconcile, one comes whenever it is owed. */
  lemma OwedReconcileComes(s: CourtState, schedule: nat -> Step, plan: Plan, n: nat)
    requires Calm(s, plan) && HasActive(s.workers) && GoodSchedule(schedule, plan) && Fair(s, schedule)
    requires Owed(Trace(s, schedule, n))
    ensures ReconcilesAfter(schedule, n)
  {
    var owed := (k: nat) => Owed(Trace(s, schedule, k));
    forall k: nat | owed(k + 1)
      ensures ReconcilesAfter(schedule, k + 1) || (owed(k) && !schedule(k).Reconcile?)
    {
      TraceCalm(s, schedule, plan, k);
      OwedNext(s, schedule, plan, k, Trace(s, schedule, k));
    }
    OwedSince(owed, schedule, n);
  }

  /** Some scheduled step at or after n lowers the measure, if no status moved before it. */
  lemma Turn(s: CourtState, schedule: nat -> Step, plan: Plan, n: nat) returns (k: nat)
    requires Calm(s, plan) && HasActive(s.workers) && GoodSchedule(schedule, plan) && Fair(s, schedule)
    requires !Trace(s, schedule, n).run.status.RunCompleted?
    ensures k >= n && StillLowers(s, schedule, n, k)
  {
    var ws := Trace(s, schedule, n).workers;
    if i :| 0 <= i < |ws| && ws[i].status.Queued? {
      assert Has(ws, ws[i].roleID, Queued) && BeginsAfter(schedule, n, ws[i].roleID);
      k :| k >= n && schedule(k) == Begin(ws[i].roleID);
      BeginTurn(s, schedule, plan, n, k, i);
    } else if i :| 0 <= i < |ws| && ws[i].status.Running? {
      assert Has(ws, ws[i].roleID, Running) && FinishesAfter(schedule, n, ws[i].roleID);
      k :| k >= n && schedule(k).Finish? && schedule(k).id == ws[i].roleID;
      FinishTurn(s, schedule, plan, n, k, i);
    } else {
      OwedReconcileComes(s, schedule, plan, n);
      k :| k >= n && schedule(k).Reconcile?;
      ReconcileTurn(s, schedule, plan, n, k);
    }
  }

  lemma BeginTurn(s: CourtState, schedule: nat -> Step, plan: Plan, n: nat, k: nat, i: nat)
    requires Calm(s, plan) && GoodSchedule(schedule, plan)
    requires i < |Trace(s, schedule, n).workers| && Trace(s, schedule, n).workers[i].status.Queued?
    requires schedule(k) == Begin(Trace(s, schedule, n).workers[i].roleID)
    ensures StillLowers(s, schedule, n, k)
  {
    TraceCalm(s, schedule, plan, k);
    if Still(Trace(s, schedule, n), Trace(s, schedule, k)) {
      BeginMoves(Trace(s, schedule, k), Trace(s, schedule, n).workers[i].roleID, i, plan);
    }
  }

  lemma FinishTurn(s: CourtState, schedule: nat -> Step, plan: Plan, n: nat, k: nat, i: nat)
    requires Calm(s, plan) && GoodSchedule(schedule, plan)
    requires i < |Trace(s, schedule, n).workers| && Trace(s, schedule, n).workers[i].status.Running?
    requires schedule(k).Finish? && schedule(k).id == Trace(s, schedule, n).workers[i].roleID
    ensures StillLowers(s, schedule, n, k)
  {
    TraceCalm(s, schedule, plan, k);
    if Still(Trace(s, schedule, n), Trace(s, schedule, k)) {
      FinishMoves(Trace(s, schedule, k), schedule(k), i, plan);
    }
  }

  lemma ReconcileTurn(s: CourtState, schedule: nat -> Step, plan: Plan, n: nat, k: nat)
    requires Calm(s, plan) && GoodSchedule(schedule, plan)
    requires !Trace(s, schedule, n).run.status.RunCompleted? && !HasActive(Trace(s, schedule, n).workers)
    requires schedule(k).Reconcile?
    ensures StillLowers(s, schedule, n, k)
  {
    TraceCalm(s, schedule, plan, k);
    if Still(Trace(s, schedule, n), Trace(s, schedule, k)) {
      ReconcileMoves(Trace(s, schedule, n), Trace(s, schedule, k), schedule(k), plan);
    }
  }

  lemma ReconcileMoves(now: CourtState, s: CourtState, step: Step, plan: Plan)
    requires Calm(s, plan) && GoodStep(step, plan) && step.Reconcile? && Still(now, s)
    requires !now.run.status.RunCompleted? && !HasActive(now.workers)
    ensures Less(Apply(s, step), s)
  {
    ReconcileStep(s, step.env, plan);
  }

  /** As long as the run is not completed, the measure will go down. */
  lemma Progress(s: CourtState, schedule: nat -> Step, plan: Plan, n: nat) returns (m: nat)
    requires Calm(s, plan) && HasActive(s.workers) && GoodSchedule(schedule, plan) && Fair(s, schedule)
    requires !Trace(s, schedule, n).run.status.RunCompleted?
    ensures m >= n && Less(Trace(s, schedule, m), Trace(s, schedule, n))
  {
    var k := Turn(s, schedule, plan, n);
    AlwaysDescends(s, schedule, plan);
    m := Lower(s, schedule, (j: nat) => Trace(s, schedule, j), n, k);
  }

  lemma AlwaysDescends(s: CourtState, schedule: nat -> Step, plan: Plan)
    requires Calm(s, plan) && GoodSchedule(schedule, plan)
    ensures forall j: nat :: Descends(Trace(s, schedule, j), Trace(s, schedule, j + 1))
  {
    forall j: nat
      ensures Descends(Trace(s, schedule, j), Trace(s, schedule, j + 1))
    {
      TraceDescends(s, schedule, plan, j);
    }
  }

  lemma Lower(s: CourtState, schedule: nat -> Step, trace: nat -> CourtState, n: nat, k: nat) returns (m: nat)
    requires n <= k && StillLowers(s, schedule, n, k) && forall j: nat :: trace(j) == Trace(s, schedule, j)
    requires forall j: nat :: n <= j < k + 1 ==> Descends(trace(j), trace(j + 1))
    ensures m >= n && Less(Trace(s, schedule, m), Trace(s, schedule, n))
  {
    DescendsLong(trace, n, k);
    assert Descends(trace(k), trace(k + 1));
    DescendsTransitive(trace(n), trace(k), trace(k + 1));
    m := if Less(trace(k), trace(n)) then k else k + 1;
  }

  lemma TraceDescends(s: CourtState, schedule: nat -> Step, plan: Plan, n: nat)
    requires Calm(s, plan) && GoodSchedule(schedule, plan)
    ensures Descends(Trace(s, schedule, n), Trace(s, schedule, n + 1))
    ensures |Trace(s, schedule, n + 1).workers| == |Trace(s, schedule, n).workers|
            || WavesLeft(Trace(s, schedule, n + 1).workers) < WavesLeft(Trace(s, schedule, n).workers)
    ensures WavesLeft(Trace(s, schedule, n + 1).workers) <= WavesLeft(Trace(s, schedule, n).workers)
  {
    TraceCalm(s, schedule, plan, n);
    GoodStepMeasure(Trace(s, schedule, n), schedule(n), plan);
  }

  lemma BeginMoves(s: CourtState, id: string, i: nat, plan: Plan)
    requires Calm(s, plan) && i < |s.workers| && s.workers[i].roleID == id && s.workers[i].status.Queued?
    ensures Less(BeginWorker(s, id), s)
  {
    FindUnique(s.workers, id);
    BeginSettles(s, id, plan);
    SettledMeasure(s, BeginWorker(s, id), plan);
    assert BeginWorker(s, id).workers[i].status.Running?;
  }

  lemma FinishMoves(s: CourtState, step: Step, i: nat, plan: Plan)
    requires Calm(s, plan) && GoodStep(step, plan) && step.Finish?
    requires i < |s.workers| && s.workers[i].roleID == step.id && s.workers[i].status.Running?
    ensures Less(Apply(s, step), s)
  {
    FinishRows(s, step.id, step.outcome);
    FinishSettles(s, step.id, step.outcome.result, plan);
    SettledMeasure(s, Apply(s, step), plan);
    assert CalmRow(s.workers[i], plan);
    assert Apply(s, step).workers[i].status.Completed?;
  }

  lemma StartIsCalm(plan: Plan, workflow: Workflow, delegating: bool)
    requires GoodPlan(plan) && InitialRoles(plan.preset, workflow) != []
    ensures Calm(Start(plan.preset, workflow, delegating, {}), plan)
    ensures HasActive(Start(plan.preset, workflow, delegating, {}).workers)
  {
    var roles := InitialRoles(plan.preset, workflow);
    var run := RunRecord(RunRunning, InitialPhase(plan.preset, workflow), "", false);
    var empty := CourtState(workflow, delegating, run, [], map[], [], []);
    var t := Start(plan.preset, workflow, delegating, {});
    StartHolds(plan.preset, workflow, delegating, {});
    SpawnShape(empty, roles, {});
    SpawnCovers(empty, roles);
    assert HasRole(t.workers, roles[0].id);
    assert Named(roles, plan);
    forall i | 0 <= i < |t.workers|
      ensures CalmRow(t.workers[i], plan)
    {
      assert SpawnedRow(t.workers[i], roles, {});
    }
  }

  lemma CompletedNext(s: CourtState, schedule: nat -> Step, plan: Plan, n: nat, now: CourtState)
    requires now == Trace(s, schedule, n) && Calm(now, plan) && GoodSchedule(schedule, plan) && now.run.status.RunCompleted?
    ensures Trace(s, schedule, n + 1).run == now.run
  {
    CompletedStays(now, schedule(n), plan);
  }

  lemma {:induction false} KeptSince(record: nat -> RunRecord, n: nat, m: nat)
    requires n <= m && record(n).status.RunCompleted?
    requires forall k: nat :: record(k).status.RunCompleted? ==> record(k + 1) == record(k)
    ensures record(m) == record(n)
    decreases m - n
  {
    if n < m {
      KeptSince(record, n, m - 1);
      assert record(m - 1 + 1) == record(m - 1);
    }
  }

  /** Once completed, the run's record is the same for ever. */
  lemma RecordIsKept(s: CourtState, schedule: nat -> Step, plan: Plan, n: nat)
    requires Calm(s, plan) && GoodSchedule(schedule, plan) && Trace(s, schedule, n).run.status.RunCompleted?
    ensures forall m: nat :: m >= n ==> Trace(s, schedule, m).run == Trace(s, schedule, n).run
  {
    var record := (k: nat) => Trace(s, schedule, k).run;
    forall k: nat | record(k).status.RunCompleted?
      ensures record(k + 1) == record(k)
    {
      TraceCalm(s, schedule, plan, k);
      CompletedNext(s, schedule, plan, k, Trace(s, schedule, k));
    }
    forall m: nat | m >= n
      ensures Trace(s, schedule, m).run == Trace(s, schedule, n).run
    {
      KeptSince(record, n, m);
    }
  }

  /** Termination: with disjoint role ids, successful launches and workers, and a bench that can be
      found, every fair schedule of a run with at least one initial worker reaches a completed run,
      which then keeps its verdict for good. */
  lemma EveryFairRunCompletes(plan: Plan, workflow: Workflow, delegating: bool, schedule: nat -> Step) returns (end: nat)
    requires GoodPlan(plan) && InitialRoles(plan.preset, workflow) != []
    requires GoodSchedule(schedule, plan) && Fair(Start(plan.preset, workflow, delegating, {}), schedule)
    ensures var s := Trace(Start(plan.preset, workflow, delegating, {}), schedule, end);
            s.run.status.RunCompleted? && s.run.verdict != "" && AllCompleted(s.workers)
    ensures forall m: nat :: m >= end ==>
              Trace(Start(plan.preset, workflow, delegating, {}), schedule, m).run
              == Trace(Start(plan.preset, workflow, delegating, {}), schedule, end).run
  {
    StartIsCalm(plan, workflow, delegating);
    end := CalmRunCompletes(Start(plan.preset, workflow, delegating, {}), schedule, plan);
  }

  lemma CalmRunCompletes(s: CourtState, schedule: nat -> Step, plan: Plan) returns (end: nat)
    requires Calm(s, plan) && HasActive(s.workers) && GoodSchedule(schedule, plan) && Fair(s, schedule)
    ensures var t := Trace(s, schedule, end);
            t.run.status.RunCompleted? && t.run.verdict != "" && AllCompleted(t.workers)
    ensures forall m: nat :: m >= end ==> Trace(s, schedule, m).run == Trace(s, schedule, end).run
  {
    var trace := (j: nat) => Trace(s, schedule, j);
    forall k: nat | !trace(k).run.status.RunCompleted?
      ensures Lowered(trace, k)
    {
      var m := Progress(s, schedule, plan, k);
      assert Less(trace(m), trace(k));
    }
    end := Descent(trace, 0);
    TraceCalm(s, schedule, plan, end);
    RecordIsKept(s, schedule, plan, end);
  }

  /** How many of the first n steps of a trace added workers. */
  function Spawns(trace: nat -> CourtState, n: nat): nat {
    if n == 0 then 0
    else Spawns(trace, n - 1) + if |trace(n).workers| != |trace(n - 1).workers| then 1 else 0
  }

  /** Added workers are a new wave. */
  ghost predicate WaveUsed(s: CourtState, t: CourtState) {
    && WavesLeft(t.workers) <= WavesLeft(s.workers)
    && (|t.workers| == |s.workers| || WavesLeft(t.workers) < WavesLeft(s.workers))
  }

  lemma {:induction false} SpawnsUseUpWaves(trace: nat -> CourtState, n: nat)
    requires forall k: nat :: k < n ==> WaveUsed(trace(k), trace(k + 1))
    ensures Spawns(trace, n) + WavesLeft(trace(n).workers) <= WavesLeft(trace(0).workers)
  {
    if n > 0 {
      SpawnsUseUpWaves(trace, n - 1);
      assert WaveUsed(trace(n - 1), trace(n - 1 + 1));
    }
  }

  /** The initial wave is followed by at most two more. */
  lemma AtMostThreeWaves(plan: Plan, workflow: Workflow, delegating: bool, schedule: nat -> Step, n: nat)
    requires GoodPlan(plan) && InitialRoles(plan.preset, workflow) != [] && GoodSchedule(schedule, plan)
    ensures 1 + Spawns((k: nat) => Trace(Start(plan.preset, workflow, delegating, {}), schedule, k), n) <= 3
  {
    StartIsCalm(plan, workflow, delegating);
    var trace := (k: nat) => Trace(Start(plan.preset, workflow, delegating, {}), schedule, k);
    WavesAreUsed(Start(plan.preset, workflow, delegating, {}), schedule, plan, trace);
    StartUsesAWave(plan, workflow, delegating);
    SpawnsUseUpWaves(trace, n);
  }

  lemma WavesAreUsed(s: CourtState, schedule: nat -> Step, plan: Plan, trace: nat -> CourtState)
    requires Calm(s, plan) && GoodSchedule(schedule, plan) && forall k: nat :: trace(k) == Trace(s, schedule, k)
    ensures forall k: nat :: WaveUsed(trace(k), trace(k + 1))
  {
    forall k: nat
      ensures WaveUsed(trace(k), trace(k + 1))
    {
      TraceDescends(s, schedule, plan, k);
    }
  }

  /** After the initial wave at most two are left. */
  lemma StartUsesAWave(plan: Plan, workflow: Workflow, delegating: bool)
    requires Calm(Start(plan.preset, workflow, delegating, {}), plan)
    ensures WavesLeft(Start(plan.preset, workflow, delegating, {}).workers) <= 2
  {
  }
}
