/** Which workers a start and a reconcile create, and when they create none. */
module CourtWaves {
  import opened Lists
  import opened Places
  import opened CourtTypes
  import opened Court
  import opened CourtInvariants
  import Phases

  // Roles of a preset

  predicate IsOfKind(kind: RoleKind, role: Role) {
    role.kind == kind
  }

  /** The places of the roles of a kind. */
  ghost predicate KindAt(preset: seq<Role>, kind: RoleKind, places: seq<nat>) {
    Picks(preset, (r: Role) => IsOfKind(kind, r), places)
  }

  /** The roles of a kind are those of the preset, all of them, in order. */
  lemma {:induction false} RolesOfKindAre(preset: seq<Role>, kind: RoleKind, places: seq<nat>)
    requires KindAt(preset, kind, places)
    ensures RolesOfKind(preset, kind) == At(preset, places)
  {
    RolesAreFiltered(preset, kind);
    FilterTakesPlaces(preset, (r: Role) => IsOfKind(kind, r), places);
  }

  lemma {:induction false} RolesAreFiltered(preset: seq<Role>, kind: RoleKind)
    ensures RolesOfKind(preset, kind) == Filter(preset, (r: Role) => IsOfKind(kind, r))
  {
    if preset != [] {
      RolesAreFiltered(preset[..|preset| - 1], kind);
    }
  }

  predicate SomeOfKind(preset: seq<Role>, kind: RoleKind) {
    exists i :: 0 <= i < |preset| && preset[i].kind == kind
  }

  lemma {:induction false} SomeRoleOfKind(preset: seq<Role>, kind: RoleKind)
    ensures RolesOfKind(preset, kind) != [] <==> SomeOfKind(preset, kind)
  {
    if preset != [] {
      var n := |preset| - 1;
      SomeRoleOfKind(preset[..n], kind);
      if SomeOfKind(preset[..n], kind) {
        var i :| 0 <= i < n && preset[..n][i].kind == kind;
        assert preset[i].kind == kind;
      }
    }
  }

  /** Place i of the preset holds its first judge; i is its length when it has none. */
  predicate FirstJudgeAt(preset: seq<Role>, i: nat) {
    i <= |preset| && (forall j :: 0 <= j < i ==> !preset[j].kind.Judge?) && (i < |preset| ==> preset[i].kind.Judge?)
  }

  lemma FirstPlace(preset: seq<Role>, places: seq<nat>, i: nat)
    requires KindAt(preset, Judge, places) && FirstJudgeAt(preset, i) && i < |preset|
    ensures places != [] && places[0] == i
  {
    assert IsOfKind(Judge, preset[i]);
    var k :| 0 <= k < |places| && places[k] == i;
    assert places[0] <= places[k] && IsOfKind(Judge, preset[places[0]]);
  }

  /** The preset's judge is the first role that is one. */
  lemma PresetJudgeIsFirst(preset: seq<Role>, i: nat)
    requires FirstJudgeAt(preset, i)
    ensures PresetJudge(preset) == if i < |preset| then [preset[i]] else []
  {
    if i < |preset| {
      var places := PlacesOf(preset, (r: Role) => IsOfKind(Judge, r));
      RolesOfKindAre(preset, Judge, places);
      FirstPlace(preset, places, i);
    } else {
      SomeRoleOfKind(preset, Judge);
    }
  }

  // Spawning

  /** The rows of workers that have just been created for these roles. */
  function NewRows(roles: seq<Role>): seq<Worker> {
    seq(|roles|, k requires 0 <= k < |roles| => Worker(roles[k].id, roles[k].kind, roles[k].title, Queued, 1, "", false, false))
  }

  predicate HasNoWorker(ws: seq<Worker>, role: Role) {
    forall i :: 0 <= i < |ws| ==> ws[i].roleID != role.id
  }

  predicate Among(roles: seq<Role>, id: string) {
    exists k :: 0 <= k < |roles| && roles[k].id == id
  }

  /** The role has no worker, and none of those before it has its id. */
  predicate IsNew(ws: seq<Worker>, before: seq<Role>, role: Role) {
    HasNoWorker(ws, role) && !Among(before, role.id)
  }

  /** The roles of a list that are new, in order, each id once. */
  function NewRoles(ws: seq<Worker>, roles: seq<Role>): seq<Role> {
    if roles == [] then []
    else
      var before, last := roles[..|roles| - 1], roles[|roles| - 1];
      NewRoles(ws, before) + if IsNew(ws, before, last) then [last] else []
  }

  function Staffed(s: CourtState, roles: seq<Role>): CourtState {
    s.(workers := s.workers + NewRows(NewRoles(s.workers, roles)))
  }

  lemma AmongSnoc(roles: seq<Role>, last: Role, id: string)
    ensures Among(roles + [last], id) <==> Among(roles, id) || last.id == id
  {
    var all := roles + [last];
    assert all[|roles|] == last;
    if Among(roles, id) {
      var k :| 0 <= k < |roles| && roles[k].id == id;
      assert all[k].id == id;
    }
  }

  /** The new roles of a list have its ids, but for those that have a worker. */
  lemma {:induction false} NewRolesAreOf(ws: seq<Worker>, roles: seq<Role>, id: string)
    requires forall i :: 0 <= i < |ws| ==> ws[i].roleID != id
    ensures Among(NewRoles(ws, roles), id) <==> Among(roles, id)
  {
    if roles != [] {
      var before, last := roles[..|roles| - 1], roles[|roles| - 1];
      NewRolesAreOf(ws, before, id);
      AmongSnoc(before, last, id);
      AmongSnoc(NewRoles(ws, before), last, id);
      assert roles == before + [last] && NewRoles(ws, before) + [] == NewRoles(ws, before);
      assert last.id == id ==> HasNoWorker(ws, last);
    }
  }

  /** After the new roles of a list have their workers, a role has none exactly when it is new behind that list. */
  lemma UnstaffedIsNew(s: CourtState, before: seq<Role>, role: Role)
    ensures Find(Staffed(s, before).workers, role.id).None? <==> IsNew(s.workers, before, role)
  {
    var all, some := Staffed(s, before).workers, NewRoles(s.workers, before);
    assert forall j :: 0 <= j < |some| ==> all[|s.workers| + j].roleID == some[j].id;
    assert forall i :: 0 <= i < |s.workers| ==> all[i] == s.workers[i];
    if HasNoWorker(s.workers, role) {
      NewRolesAreOf(s.workers, before, role.id);
      if Among(some, role.id) {
        var j :| 0 <= j < |some| && some[j].id == role.id;
        assert HasRole(all, all[|s.workers| + j].roleID);
      } else {
        forall j | 0 <= j < |all|
          ensures all[j].roleID != role.id
        {
          if j >= |s.workers| {
            var k := j - |s.workers|;
            assert all[|s.workers| + k].roleID == some[k].id;
            assert some[k].id == role.id ==> Among(some, role.id);
          }
        }
      }
    } else {
      var i :| 0 <= i < |s.workers| && s.workers[i].roleID == role.id;
      assert HasRole(all, all[i].roleID);
    }
  }

  lemma StaffedSnoc(s: CourtState, before: seq<Role>, role: Role)
    ensures Staffed(s, before + [role])
         == if IsNew(s.workers, before, role) then Staffed(s, before).(workers := Staffed(s, before).workers + [NewWorker(role)])
            else Staffed(s, before)
  {
    assert (before + [role])[..|before|] == before;
    assert NewRows(NewRoles(s.workers, before) + [role]) == NewRows(NewRoles(s.workers, before)) + [NewWorker(role)];
    assert NewRoles(s.workers, before) + [] == NewRoles(s.workers, before);
  }

  /** None of the launches that these roles come to fails. */
  ghost predicate AllLaunch(ws: seq<Worker>, roles: seq<Role>, failing: set<string>) {
    forall k :: 0 <= k < |roles| && IsNew(ws, roles[..k], roles[k]) ==> roles[k].id !in failing
  }

  lemma AllLaunchInit(ws: seq<Worker>, before: seq<Role>, role: Role, failing: set<string>)
    requires AllLaunch(ws, before + [role], failing)
    ensures AllLaunch(ws, before, failing) && (IsNew(ws, before, role) ==> role.id !in failing)
  {
    var roles := before + [role];
    assert roles[..|before|] == before && roles[|before|] == role;
    forall k | 0 <= k < |before| && IsNew(ws, before[..k], before[k])
      ensures before[k].id !in failing
    {
      assert roles[..k] == before[..k] && roles[k] == before[k];
    }
  }

  /** Spawning a list takes its first roles and then the others. */
  lemma {:induction false} SpawnFirst(s: CourtState, roles: seq<Role>, more: seq<Role>, failing: set<string>)
    requires AllLaunch(s.workers, roles, failing)
    ensures Spawn(s, roles + more, failing) == Spawn(Staffed(s, roles), more, failing)
    decreases |roles|
  {
    if roles == [] {
      assert roles + more == more && s.workers + NewRows([]) == s.workers;
    } else {
      var before, last := roles[..|roles| - 1], roles[|roles| - 1];
      assert roles == before + [last] && roles + more == before + ([last] + more);
      AllLaunchInit(s.workers, before, last, failing);
      SpawnFirst(s, before, [last] + more, failing);
      StaffedSnoc(s, before, last);
      UnstaffedIsNew(s, before, last);
      assert ([last] + more)[1..] == more;
    }
  }

  /** When no launch fails, each new role gets one queued worker, in order, after the workers there are. */
  lemma SpawnAppends(s: CourtState, roles: seq<Role>)
    ensures Spawn(s, roles, {}) == s.(workers := s.workers + NewRows(NewRoles(s.workers, roles)))
  {
    SpawnFirst(s, roles, [], {});
    assert roles + [] == roles;
  }

  /** The first launch that fails leaves its worker failed, those before it queued and those after it uncreated, and the
      run failed. */
  lemma SpawnStopsAtFailure(s: CourtState, roles: seq<Role>, failing: set<string>, k: nat)
    requires k < |roles| && roles[k].id in failing && IsNew(s.workers, roles[..k], roles[k])
    requires AllLaunch(s.workers, roles[..k], failing)
    ensures Spawn(s, roles, failing)
         == s.(workers := s.workers + NewRows(NewRoles(s.workers, roles[..k]))
                          + [Worker(roles[k].id, roles[k].kind, roles[k].title, Failed, 1, "", false, false)],
               run := RunRecord(RunFailed, BlockedPhase, "", true))
  {
    var staffed := Staffed(s, roles[..k]);
    SpawnFirst(s, roles[..k], roles[k..], failing);
    assert roles[..k] + roles[k..] == roles;
    UnstaffedIsNew(s, roles[..k], roles[k]);
    FailedLaunchRow(staffed.workers, roles[k]);
  }

  // The first wave

  /** A start with a clerk, or without one but with a juror, begins with a worker for each clerk, or for each juror. */
  lemma StartsWithKind(preset: seq<Role>, workflow: Workflow, delegating: bool, kind: RoleKind, places: seq<nat>)
    requires KindAt(preset, kind, places) && places != []
    requires kind.Clerk? || (kind.Juror? && !SomeOfKind(preset, Clerk))
    ensures var s := Start(preset, workflow, delegating, {});
            && s.workers == NewRows(NewRoles([], At(preset, places)))
            && s.run == RunRecord(RunRunning, if kind.Clerk? then ClerkPhase else JurorsPhase, "", false)
            && s.attempts == map[] && s.controls == [] && s.judgeIDs == []
  {
    RolesOfKindAre(preset, kind, places);
    SomeRoleOfKind(preset, Clerk);
    var empty := CourtState(workflow, delegating, RunRecord(RunRunning, InitialPhase(preset, workflow), "", false), [], map[], [], []);
    SpawnAppends(empty, At(preset, places));
    assert [] + NewRows(NewRoles([], At(preset, places))) == NewRows(NewRoles([], At(preset, places)));
  }

  lemma OneNewRole(ws: seq<Worker>, role: Role)
    requires HasNoWorker(ws, role)
    ensures NewRoles(ws, [role]) == [role] && NewRoles(ws, []) == []
  {
    assert [role][..0] == [];
  }

  /** Without either it begins with the preset's first judge, unless it is for review only or there is no judge: then there
      is no worker at all. */
  lemma StartsWithJudge(preset: seq<Role>, workflow: Workflow, delegating: bool, i: nat)
    requires !SomeOfKind(preset, Clerk) && !SomeOfKind(preset, Juror) && FirstJudgeAt(preset, i)
    ensures var s := Start(preset, workflow, delegating, {});
            && s.workers == (if workflow.ReviewOnly? || i == |preset| then [] else NewRows([preset[i]]))
            && s.run == RunRecord(RunRunning, if workflow.ReviewOnly? then CompletePhase else VerdictPhase, "", false)
  {
    SomeRoleOfKind(preset, Clerk);
    SomeRoleOfKind(preset, Juror);
    PresetJudgeIsFirst(preset, i);
    var empty := CourtState(workflow, delegating, RunRecord(RunRunning, InitialPhase(preset, workflow), "", false), [], map[], [], []);
    SpawnAppends(empty, InitialRoles(preset, workflow));
    if i < |preset| && !workflow.ReviewOnly? {
      OneNewRole([], preset[i]);
    }
    assert [] + NewRows(NewRoles([], InitialRoles(preset, workflow))) == NewRows(NewRoles([], InitialRoles(preset, workflow)));
  }

  // Reconciles

  /** The run is under way, it has workers, and none of them has failed or been cancelled. */
  predicate GoesWell(s: CourtState) {
    && (s.run.status.RunRunning? || s.run.status.RunQueued?) && s.workers != []
    && forall i :: 0 <= i < |s.workers| ==> !s.workers[i].status.Failed? && !s.workers[i].status.Cancelled?
  }

  /** When a run does not go well, a reconcile halts it: as failed when a worker failed, also beside cancelled ones, and
      otherwise as cancelled. A run that is over, or has no worker, it leaves alone; and so one whose preset is not found. */
  lemma ReconcileHalts(s: CourtState, env: Surroundings)
    requires !GoesWell(s) || env.preset.None?
    ensures var over := s.run.status.RunCompleted? || s.run.status.RunFailed? || s.run.status.RunCancelled? || s.workers == [];
            var failed := exists i :: 0 <= i < |s.workers| && s.workers[i].status.Failed?;
            var cancelled := exists i :: 0 <= i < |s.workers| && s.workers[i].status.Cancelled?;
            ReconcileRun(s, env) ==
              if over then s
              else if failed then s.(run := RunRecord(RunFailed, BlockedPhase, "", true))
              else if cancelled then s.(run := RunRecord(RunCancelled, BlockedPhase, "", true))
              else s
  {
  }

  /** While a worker is queued or running, and not all judges are done, only the phase moves: the docket is awaited until a
      clerk is done, then the jurors, then what the workflow has next. */
  lemma ReconcileWaits(s: CourtState, env: Surroundings, preset: seq<Role>)
    requires GoesWell(s) && env.preset == Some(preset)
    requires exists i :: 0 <= i < |s.workers| && (s.workers[i].status.Queued? || s.workers[i].status.Running?)
    requires (exists i :: 0 <= i < |s.workers| && s.workers[i].kind.Judge? && !s.workers[i].status.Completed?)
             || forall i :: 0 <= i < |s.workers| ==> !s.workers[i].kind.Judge?
    ensures var t := ReconcileRun(s, env);
            var waiting := SomeOfKind(preset, Clerk) && !exists i :: 0 <= i < |s.workers| && s.workers[i].kind.Clerk? && s.workers[i].status.Completed?;
            var some := exists i :: 0 <= i < |s.workers| && s.workers[i].kind.Juror?;
            var all := forall i :: 0 <= i < |s.workers| && s.workers[i].kind.Juror? ==> s.workers[i].status.Completed?;
            && t == s.(run := s.run.(phase := t.run.phase))
            && t.run.phase == (if waiting then ClerkPhase
                               else if !some then IdlePhase
                               else if !all then JurorsPhase
                               else if s.workflow.BoundedCorrection? then InlineJudgePhase
                               else if s.workflow.ReviewOnly? then CompletePhase
                               else VerdictPhase)
  {
    SomeRoleOfKind(preset, Clerk);
    Phases.WorkerPhase(PhaseInputFor(s.workflow, preset, s.workers), s.workers);
  }

  /** When there are judges and all of them are completed, the run is. */
  lemma ReconcileCompletes(s: CourtState, env: Surroundings)
    requires GoesWell(s) && env.preset.Some?
    requires (exists i :: 0 <= i < |s.workers| && s.workers[i].kind.Judge?)
             && forall i :: 0 <= i < |s.workers| && s.workers[i].kind.Judge? ==> s.workers[i].status.Completed?
    ensures ReconcileRun(s, env) == s.(run := RunRecord(RunCompleted, CompletePhase, FinalVerdict(s.workers), true))
  {
    assert HasKind(s.workers, Judge) && AllDone(s.workers, Judge);
  }

  /** Every worker is completed and none is a judge: what follows is the next wave. */
  predicate WaveIsOver(s: CourtState) {
    && (s.run.status.RunRunning? || s.run.status.RunQueued?) && s.workers != []
    && forall i :: 0 <= i < |s.workers| ==> s.workers[i].status.Completed? && !s.workers[i].kind.Judge?
  }

  /** The jurors are next: the preset has clerks and jurors, a clerk has worked, and no juror has. */
  predicate JurorsAreNext(s: CourtState, preset: seq<Role>) {
    && SomeOfKind(preset, Clerk) && SomeOfKind(preset, Juror)
    && (exists i :: 0 <= i < |s.workers| && s.workers[i].kind.Clerk?)
    && forall i :: 0 <= i < |s.workers| ==> !s.workers[i].kind.Juror?
  }

  lemma JurorsAreReady(ws: seq<Worker>, preset: seq<Role>)
    requires forall i :: 0 <= i < |ws| ==> ws[i].status.Completed?
    ensures ClerkReadyForJurors(ws, preset) <==>
            SomeOfKind(preset, Clerk) && SomeOfKind(preset, Juror) && exists i :: 0 <= i < |ws| && ws[i].kind.Clerk?
  {
    SomeRoleOfKind(preset, Clerk);
    SomeRoleOfKind(preset, Juror);
    assert AllDone(ws, Clerk);
    if i :| 0 <= i < |ws| && ws[i].kind.Clerk? {
      assert ClerkCompleted(ws);
    }
  }

  lemma WaveIsNext(s: CourtState, env: Surroundings, preset: seq<Role>)
    requires WaveIsOver(s) && env.preset == Some(preset)
    ensures ReconcileRun(s, env) == NextWave(s, s.workers, preset, env) && !HasActive(s.workers)
    ensures ClerkReadyForJurors(s.workers, preset) && !HasKind(s.workers, Juror) <==> JurorsAreNext(s, preset)
  {
    JurorsAreReady(s.workers, preset);
    assert !HasKind(s.workers, Judge);
  }

  /** The jurors of the wave: those of the docket when the run delegates and has one, and otherwise all of the preset. */
  lemma JurorWave(s: CourtState, env: Surroundings, preset: seq<Role>, jurors: seq<Role>, places: seq<nat>)
    requires WaveIsOver(s) && env.preset == Some(preset) && JurorsAreNext(s, preset) && env.failing == {}
    requires KindAt(preset, Juror, places)
    requires jurors == if s.delegating && env.delegation.Some? then env.delegation.value.jurors else At(preset, places)
    ensures ReconcileRun(s, env)
         == s.(workers := s.workers + NewRows(NewRoles(s.workers, jurors)), run := s.run.(phase := JurorsPhase),
               judgeIDs := if s.delegating && env.delegation.Some? then env.delegation.value.judgeIDs else [])
  {
    WaveIsNext(s, env, preset);
    RolesOfKindAre(preset, Juror, places);
    var chosen := PromoteDocket(s.delegating, preset, env.delegation);
    SpawnAppends(s.(judgeIDs := chosen.judgeIDs, run := s.run.(phase := JurorsPhase)), chosen.jurors);
  }

  /** A run for review only is completed after its jurors. */
  lemma ReviewCompletes(s: CourtState, env: Surroundings, preset: seq<Role>)
    requires WaveIsOver(s) && env.preset == Some(preset) && !JurorsAreNext(s, preset) && s.workflow.ReviewOnly?
    ensures ReconcileRun(s, env) == s.(run := RunRecord(RunCompleted, CompletePhase, FinalVerdict(s.workers), true))
  {
    WaveIsNext(s, env, preset);
  }

  // The bench

  /** The judge a docket names by this id: a role of the catalogue, made a judge, or else the preset's first judge. */
  predicate IsNamedJudge(role: Role, id: string, preset: seq<Role>, first: nat, catalog: map<string, Role>)
    requires first <= |preset|
  {
    if id in catalog then role == Role(catalog[id].id, Judge, catalog[id].title)
    else first < |preset| && preset[first].id == id && role == preset[first]
  }

  predicate CanBeJudge(id: string, preset: seq<Role>, first: nat, catalog: map<string, Role>)
    requires first <= |preset|
  {
    id in catalog || (first < |preset| && preset[first].id == id)
  }

  predicate AreNamedJudges(bench: seq<Role>, ids: seq<string>, preset: seq<Role>, first: nat, catalog: map<string, Role>)
    requires first <= |preset|
  {
    |bench| == |ids| && forall k :: 0 <= k < |ids| ==> IsNamedJudge(bench[k], ids[k], preset, first, catalog)
  }

  lemma {:induction false} DocketJudgesAre(ids: seq<string>, preset: seq<Role>, first: nat, catalog: map<string, Role>)
    requires FirstJudgeAt(preset, first)
    ensures var r := DocketJudges(ids, preset, catalog);
            && (r.Some? <==> forall k :: 0 <= k < |ids| ==> CanBeJudge(ids[k], preset, first, catalog))
            && (r.Some? ==> AreNamedJudges(r.value, ids, preset, first, catalog))
  {
    PresetJudgeIsFirst(preset, first);
    if ids != [] {
      DocketJudgesAre(ids[1..], preset, first, catalog);
      assert forall k :: 0 < k < |ids| ==> ids[k] == ids[1..][k - 1];
      assert forall k :: 0 <= k < |ids| - 1 ==> ids[1..][k] == ids[k + 1];
    }
  }

  /** The judges a run is to have: those its docket names, once each, when it delegates and has named some; otherwise the
      preset's first judge, if there is one. */
  predicate IsBench(s: CourtState, preset: seq<Role>, first: nat, catalog: map<string, Role>, bench: seq<Role>)
    requires first <= |preset|
  {
    if s.delegating && s.judgeIDs != [] then AreNamedJudges(bench, Dedup(Trimmed(s.judgeIDs)), preset, first, catalog)
    else bench == if first < |preset| then [preset[first]] else []
  }

  lemma SameJudge(a: Role, b: Role, id: string, preset: seq<Role>, first: nat, catalog: map<string, Role>)
    requires first <= |preset| && IsNamedJudge(a, id, preset, first, catalog) && IsNamedJudge(b, id, preset, first, catalog)
    ensures a == b && CanBeJudge(id, preset, first, catalog)
  {
  }

  lemma SameBench(a: seq<Role>, b: seq<Role>, ids: seq<string>, preset: seq<Role>, first: nat, catalog: map<string, Role>)
    requires first <= |preset| && AreNamedJudges(a, ids, preset, first, catalog) && AreNamedJudges(b, ids, preset, first, catalog)
    ensures a == b
  {
    forall k | 0 <= k < |ids|
      ensures a[k] == b[k]
    {
      SameJudge(a[k], b[k], ids[k], preset, first, catalog);
    }
  }

  lemma BenchIs(s: CourtState, preset: seq<Role>, first: nat, catalog: map<string, Role>, bench: seq<Role>)
    requires FirstJudgeAt(preset, first) && IsBench(s, preset, first, catalog, bench)
    ensures JudgeRoles(s.delegating, s.judgeIDs, preset, catalog) == Some(bench)
  {
    PresetJudgeIsFirst(preset, first);
    if s.delegating && s.judgeIDs != [] {
      var ids := Dedup(Trimmed(s.judgeIDs));
      DocketJudgesAre(ids, preset, first, catalog);
      forall k | 0 <= k < |ids|
        ensures CanBeJudge(ids[k], preset, first, catalog)
      {
        SameJudge(bench[k], bench[k], ids[k], preset, first, catalog);
      }
      SameBench(bench, DocketJudges(ids, preset, catalog).value, ids, preset, first, catalog);
    }
  }

  /** With an empty bench the run is completed. */
  lemma NoBenchCompletes(s: CourtState, env: Surroundings, preset: seq<Role>, first: nat)
    requires WaveIsOver(s) && env.preset == Some(preset) && !JurorsAreNext(s, preset) && !s.workflow.ReviewOnly?
    requires FirstJudgeAt(preset, first) && IsBench(s, preset, first, env.catalog, [])
    ensures ReconcileRun(s, env) == s.(run := RunRecord(RunCompleted, CompletePhase, FinalVerdict(s.workers), true))
  {
    WaveIsNext(s, env, preset);
    BenchIs(s, preset, first, env.catalog, []);
  }

  /** A judge that the docket names and nobody knows leaves the run as it is. */
  lemma UnknownJudgeWaits(s: CourtState, env: Surroundings, preset: seq<Role>, first: nat, k: nat)
    requires WaveIsOver(s) && env.preset == Some(preset) && !JurorsAreNext(s, preset) && !s.workflow.ReviewOnly?
    requires FirstJudgeAt(preset, first) && s.delegating && s.judgeIDs != []
    requires k < |Dedup(Trimmed(s.judgeIDs))| && !CanBeJudge(Dedup(Trimmed(s.judgeIDs))[k], preset, first, env.catalog)
    ensures ReconcileRun(s, env) == s
  {
    WaveIsNext(s, env, preset);
    DocketJudgesAre(Dedup(Trimmed(s.judgeIDs)), preset, first, env.catalog);
  }

  lemma MissingIds(judges: seq<Role>, ws: seq<Worker>, id: string)
    requires forall i :: 0 <= i < |ws| ==> ws[i].roleID != id
    ensures Among(Missing(judges, ws), id) <==> Among(judges, id)
  {
    var missing := Missing(judges, ws);
    assert !HasRole(ws, id);
    if Among(missing, id) {
      var k :| 0 <= k < |missing| && missing[k].id == id;
      assert missing[k] in missing && missing[k] in judges;
    }
    if Among(judges, id) {
      var k :| 0 <= k < |judges| && judges[k].id == id;
      assert judges[k] in judges && judges[k] in missing;
    }
  }

  lemma NewSnoc(ws: seq<Worker>, before: seq<Role>, last: Role)
    ensures NewRoles(ws, before + [last]) == NewRoles(ws, before) + if HasNoWorker(ws, last) && !Among(before, last.id) then [last] else []
  {
    assert (before + [last])[..|before|] == before;
  }

  lemma MissingSnoc(ws: seq<Worker>, before: seq<Role>, last: Role)
    ensures Missing(before + [last], ws) == if HasNoWorker(ws, last) then Missing(before, ws) + [last] else Missing(before, ws)
  {
    assert (before + [last])[..|before|] == before;
    assert Missing(before, ws) + [] == Missing(before, ws);
    assert Find(ws, last.id).None? <==> HasNoWorker(ws, last);
  }

  /** Leaving out the judges that have a worker leaves out none that is new. */
  predicate NewAreKept(judges: seq<Role>, ws: seq<Worker>) {
    && NewRoles(ws, Missing(judges, ws)) == NewRoles(ws, judges)
    && (Missing(judges, ws) == [] <==> NewRoles(ws, judges) == [])
  }

  lemma NewAreKeptSnoc(before: seq<Role>, last: Role, ws: seq<Worker>)
    requires NewAreKept(before, ws)
    ensures NewAreKept(before + [last], ws)
  {
    var missing := Missing(before, ws);
    NewSnoc(ws, before, last);
    MissingSnoc(ws, before, last);
    if HasNoWorker(ws, last) {
      MissingIds(before, ws, last.id);
      NewSnoc(ws, missing, last);
      assert missing == [] ==> !Among(missing, last.id);
    }
  }

  lemma {:induction false} NewAreMissing(judges: seq<Role>, ws: seq<Worker>)
    ensures NewAreKept(judges, ws)
  {
    if judges != [] {
      var before, last := judges[..|judges| - 1], judges[|judges| - 1];
      NewAreMissing(before, ws);
      NewAreKeptSnoc(before, last, ws);
      assert judges == before + [last];
    }
  }

  /** The judges of the bench that have no worker get one, in order; when all have one, nothing happens. */
  lemma JudgeWave(s: CourtState, env: Surroundings, preset: seq<Role>, first: nat, bench: seq<Role>)
    requires WaveIsOver(s) && env.preset == Some(preset) && !JurorsAreNext(s, preset) && !s.workflow.ReviewOnly? && env.failing == {}
    requires FirstJudgeAt(preset, first) && IsBench(s, preset, first, env.catalog, bench) && bench != []
    ensures var rows := NewRows(NewRoles(s.workers, bench));
            ReconcileRun(s, env) == if rows == [] then s else s.(workers := s.workers + rows, run := s.run.(phase := VerdictPhase))
  {
    WaveIsNext(s, env, preset);
    BenchIs(s, preset, first, env.catalog, bench);
    NewAreMissing(bench, s.workers);
    SpawnAppends(s.(run := s.run.(phase := VerdictPhase)), Missing(bench, s.workers));
  }
}
