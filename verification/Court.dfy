/** A court run as a value, and each engine operation as a function on it. */
module Court {
  import opened Text
  import opened Lists
  import opened CourtTypes
  import Phases
  import SessionControls

  /** Everything the engine stores about one run. `workers` is the workers table in creation order,
      `attempts` the worker_attempts table, `judgeIDs` the judges named by the latest docket. */
  datatype CourtState = CourtState(
    workflow: Workflow, delegating: bool, run: RunRecord, workers: seq<Worker>,
    attempts: map<(string, nat), Worker>, controls: seq<Control>, judgeIDs: seq<string>)

  /** A docket built from a clerk's delegation decision: at least one juror, and only jurors. */
  datatype DelegatedRoles = DelegatedRoles(jurors: seq<Role>, judgeIDs: seq<string>)
  type Delegation = d: DelegatedRoles |
    d.jurors != [] && forall i :: 0 <= i < |d.jurors| ==> d.jurors[i].kind.Juror?
    witness DelegatedRoles([Role("juror", Juror, "")], [])

  /** What a reconcile meets outside the store: the preset (None when it cannot be resolved), an
      accepted delegation decision, the role catalogue, and the roles whose launch would fail. */
  datatype Surroundings = Surroundings(
    preset: Option<seq<Role>>, delegation: Option<Delegation>, catalog: map<string, Role>, failing: set<string>)

  datatype Outcome = Succeeded(result: string) | Errored(result: string) | Stopped(result: string)

  datatype Step =
    | Begin(id: string)
    | Attach(id: string)
    | Finish(id: string, outcome: Outcome)
    | Poll(id: string, answers: seq<bool>)
    | Reconcile(env: Surroundings)
    | Cancel(id: string, stopped: bool)
    | Interrupt(id: string, delivered: bool)
    | Resume(id: string, adopted: bool)
    | Retry(id: string, launched: bool)

  // Rows

  ghost predicate HasRole(ws: seq<Worker>, id: string) {
    exists i :: 0 <= i < |ws| && ws[i].roleID == id
  }

  function Find(ws: seq<Worker>, id: string): (r: Option<Worker>)
    ensures r.None? ==> !HasRole(ws, id)
    ensures r.Some? ==> exists i :: 0 <= i < |ws| && ws[i] == r.value && ws[i].roleID == id
  {
    if ws == [] then None
    else if ws[0].roleID == id then Some(ws[0])
    else
      var r := Find(ws[1..], id);
      assert forall i :: 0 <= i < |ws| - 1 ==> ws[1..][i] == ws[i + 1];
      assert forall i :: 1 <= i < |ws| ==> ws[i] == ws[1..][i - 1];
      r
  }

  /** UPDATE workers SET ... WHERE the row is the one of role id. */
  function Update(ws: seq<Worker>, id: string, f: Worker -> Worker): (r: seq<Worker>)
    ensures |r| == |ws|
    ensures forall i :: 0 <= i < |ws| ==> r[i] == if ws[i].roleID == id then f(ws[i]) else ws[i]
  {
    seq(|ws|, i requires 0 <= i < |ws| => if ws[i].roleID == id then f(ws[i]) else ws[i])
  }

  /** CompleteWorker: a cancelled row is only overwritten by another cancellation. */
  function Complete(ws: seq<Worker>, id: string, status: WorkerStatus, result: string): seq<Worker> {
    Update(ws, id, (w: Worker) => if w.status.Cancelled? && !status.Cancelled? then w
                        else w.(status := status, result := result))
  }

  /** UpdateRunStatus sets the verdict, and completed_at exactly for terminal statuses. */
  function WithStatus(run: RunRecord, status: RunStatus, verdict: string): RunRecord {
    RunRecord(status, run.phase, verdict, status.Terminal())
  }

  function Halted(run: RunRecord, status: RunStatus): RunRecord {
    WithStatus(run, status, "").(phase := BlockedPhase)
  }

  function Finished(run: RunRecord, verdict: string): RunRecord {
    WithStatus(run, RunCompleted, verdict).(phase := CompletePhase)
  }

  function NewWorker(role: Role): Worker {
    Worker(role.id, role.kind, role.title, Queued, 1, "", false, false)
  }

  // Roles

  function RolesOfKind(preset: seq<Role>, kind: RoleKind): (r: seq<Role>)
    ensures forall i :: 0 <= i < |r| ==> r[i].kind == kind && r[i] in preset
  {
    if preset == [] then []
    else RolesOfKind(preset[..|preset| - 1], kind)
         + if preset[|preset| - 1].kind == kind then [preset[|preset| - 1]] else []
  }

  /** The first judge of the preset, if any. */
  function PresetJudge(preset: seq<Role>): (r: seq<Role>)
    ensures |r| <= 1
    ensures forall i :: 0 <= i < |r| ==> r[i].kind.Judge? && r[i] in preset
  {
    var judges := RolesOfKind(preset, Judge);
    if judges == [] then [] else [judges[0]]
  }

  function InitialRoles(preset: seq<Role>, workflow: Workflow): seq<Role> {
    var clerks, jurors := RolesOfKind(preset, Clerk), RolesOfKind(preset, Juror);
    if clerks != [] then clerks
    else if jurors != [] then jurors
    else if workflow.ReviewOnly? then []
    else PresetJudge(preset)
  }

  function InitialPhase(preset: seq<Role>, workflow: Workflow): Phase {
    if RolesOfKind(preset, Clerk) != [] then ClerkPhase
    else if RolesOfKind(preset, Juror) != [] then JurorsPhase
    else if workflow.ReviewOnly? then CompletePhase
    else VerdictPhase
  }

  /** Look up the judges of a docket, in the catalogue first and then as the preset's judge. */
  function DocketJudges(ids: seq<string>, preset: seq<Role>, catalog: map<string, Role>): (r: Option<seq<Role>>)
    ensures r.Some? ==> forall i :: 0 <= i < |r.value| ==> r.value[i].kind.Judge?
    ensures r.Some? ==> |r.value| == |ids|
  {
    if ids == [] then Some([])
    else
      var id, judge := ids[0], PresetJudge(preset);
      var rest := DocketJudges(ids[1..], preset, catalog);
      if rest.None? then None
      else if id in catalog then Some([catalog[id].(kind := Judge)] + rest.value)
      else if judge != [] && judge[0].id == id then Some([judge[0]] + rest.value)
      else None
  }

  /** judgeRolesForRun; None is the error of a judge that cannot be found. */
  function JudgeRoles(delegating: bool, judgeIDs: seq<string>, preset: seq<Role>, catalog: map<string, Role>): (r: Option<seq<Role>>)
    ensures r.Some? ==> forall i :: 0 <= i < |r.value| ==> r.value[i].kind.Judge?
  {
    if !delegating || judgeIDs == [] then Some(PresetJudge(preset))
    else DocketJudges(Dedup(Trimmed(judgeIDs)), preset, catalog)
  }

  // Scans

  predicate HasFailed(ws: seq<Worker>) { exists i :: 0 <= i < |ws| && ws[i].status.Failed? }
  predicate HasCancelled(ws: seq<Worker>) { exists i :: 0 <= i < |ws| && ws[i].status.Cancelled? }
  predicate HasActive(ws: seq<Worker>) {
    exists i :: 0 <= i < |ws| && (ws[i].status.Queued? || ws[i].status.Running?)
  }
  predicate HasKind(ws: seq<Worker>, kind: RoleKind) { exists i :: 0 <= i < |ws| && ws[i].kind == kind }

  predicate AllDone(ws: seq<Worker>, kind: RoleKind) {
    forall i :: 0 <= i < |ws| && ws[i].kind == kind ==> ws[i].status.Completed?
  }

  predicate JudgeCompleted(ws: seq<Worker>) {
    HasKind(ws, Judge) && AllDone(ws, Judge)
  }

  predicate ClerkCompleted(ws: seq<Worker>) {
    exists i :: 0 <= i < |ws| && ws[i].kind.Clerk? && ws[i].status.Completed?
  }

  predicate ClerkReadyForJurors(ws: seq<Worker>, preset: seq<Role>) {
    RolesOfKind(preset, Clerk) != [] && RolesOfKind(preset, Juror) != [] && AllDone(ws, Clerk) && ClerkCompleted(ws)
  }

  function PhaseInputFor(workflow: Workflow, preset: seq<Role>, ws: seq<Worker>): Phases.PhaseInput {
    Phases.PhaseInput(
      RolesOfKind(preset, Clerk) != [], workflow.BoundedCorrection?, !workflow.ReviewOnly?, workflow.ReviewOnly?,
      RolesOfKind(preset, Clerk) == [] || ClerkCompleted(ws), false, false, 0, 0)
  }

  // The verdict

  const VERDICT_TITLE := "# Court Verdict\n\n"

  function Sections(ws: seq<Worker>): string {
    if ws == [] then ""
    else
      var w := ws[|ws| - 1];
      Sections(ws[..|ws| - 1]) + "## " + w.title + "\n\n" + w.result + "\n\n"
  }

  function FinalVerdict(ws: seq<Worker>): string {
    var judged := Filter(ws, (w: Worker) => w.kind.Judge? && w.result != "");
    if |judged| == 1 then judged[0].result
    else if |judged| > 1 then TrimSpace(VERDICT_TITLE + Sections(judged))
    else VERDICT_TITLE + Sections(Filter(ws, (w: Worker) => w.result != ""))
  }

  // Operations

  /** spawnRoles: insert and launch the roles in order, skipping roles that already have a worker
      (the UNIQUE constraint) and stopping at the first launch that fails. */
  function Spawn(s: CourtState, roles: seq<Role>, failing: set<string>): CourtState
    decreases |roles|
  {
    if roles == [] then s
    else if Find(s.workers, roles[0].id).Some? then Spawn(s, roles[1..], failing)
    else
      var queued := s.(workers := s.workers + [NewWorker(roles[0])]);
      if roles[0].id in failing then
        queued.(workers := Complete(queued.workers, roles[0].id, Failed, ""), run := Halted(s.run, RunFailed))
      else Spawn(queued, roles[1..], failing)
  }

  function Start(preset: seq<Role>, workflow: Workflow, delegating: bool, failing: set<string>): CourtState {
    var run := RunRecord(RunRunning, InitialPhase(preset, workflow), "", false);
    Spawn(CourtState(workflow, delegating, run, [], map[], [], []), InitialRoles(preset, workflow), failing)
  }

  /** The reconcile decision taken from a snapshot of the run and worker rows, applied to s. The
      engine reads its snapshot first and writes afterwards, so the two can differ. */
  function ReconcileFrom(s: CourtState, run: RunRecord, ws: seq<Worker>, env: Surroundings): CourtState {
    if run.status.Terminal() || ws == [] then s
    else if HasFailed(ws) then s.(run := Halted(s.run, RunFailed))
    else if HasCancelled(ws) then s.(run := Halted(s.run, RunCancelled))
    else if env.preset.None? then s
    else if JudgeCompleted(ws) then s.(run := Finished(s.run, FinalVerdict(ws)))
    else NextWave(s, ws, env.preset.value, env)
  }

  function NextWave(s: CourtState, ws: seq<Worker>, preset: seq<Role>, env: Surroundings): CourtState {
    if HasActive(ws) then
      var input := PhaseInputFor(s.workflow, preset, ws);
      s.(run := s.run.(phase := Phases.Evaluate(input, Phases.ParticipantStates(ws)).phase))
    else if ClerkReadyForJurors(ws, preset) && !HasKind(ws, Juror) then
      var chosen := PromoteDocket(s.delegating, preset, env.delegation);
      Spawn(s.(judgeIDs := chosen.judgeIDs, run := s.run.(phase := JurorsPhase)), chosen.jurors, env.failing)
    else if s.workflow.ReviewOnly? then s.(run := Finished(s.run, FinalVerdict(ws)))
    else
      match JudgeRoles(s.delegating, s.judgeIDs, preset, env.catalog)
      case None => s
      case Some(judges) =>
        var missing := Missing(judges, ws);
        if judges == [] then s.(run := Finished(s.run, FinalVerdict(ws)))
        else if missing == [] then s
        else Spawn(s.(run := s.run.(phase := VerdictPhase)), missing, env.failing)
  }

  /** promoteClerkDocket: the delegated jurors and judges when delegation is on and was accepted,
      the preset's jurors and no named judge otherwise. */
  function PromoteDocket(delegating: bool, preset: seq<Role>, delegation: Option<Delegation>): DelegatedRoles {
    if delegating && delegation.Some? then delegation.value
    else DelegatedRoles(RolesOfKind(preset, Juror), [])
  }

  function Missing(judges: seq<Role>, ws: seq<Worker>): (r: seq<Role>)
    ensures forall x :: x in r <==> x in judges && !HasRole(ws, x.id)
  {
    if judges == [] then []
    else
      var last := judges[|judges| - 1];
      assert judges == judges[..|judges| - 1] + [last];
      Missing(judges[..|judges| - 1], ws) + if Find(ws, last.id).Some? then [] else [last]
  }

  function ReconcileRun(s: CourtState, env: Surroundings): CourtState {
    ReconcileFrom(s, s.run, s.workers, env)
  }

  /** Load and MarkRunning: a process that finds its worker terminal does nothing. */
  function BeginWorker(s: CourtState, id: string): CourtState {
    match Find(s.workers, id)
    case None => s
    case Some(w) =>
      if w.status.Terminal() then s
      else s.(workers := Update(s.workers, id, (w: Worker) => w.(status := Running, executing := true)))
  }

  /** OnSessionStarted: the executing process stores the runtime identity. */
  function AttachSession(s: CourtState, id: string): CourtState {
    match Find(s.workers, id)
    case None => s
    case Some(w) => if !w.executing then s else s.(workers := Update(s.workers, id, (w: Worker) => w.(session := true)))
  }

  /** The outcome a process writes. Success is written only if the reloaded row is not cancelled. */
  function FinishWorker(s: CourtState, id: string, outcome: Outcome): CourtState {
    match Find(s.workers, id)
    case None => s
    case Some(w) =>
      if !w.executing then s
      else
        var written := match outcome
          case Stopped(result) => Complete(s.workers, id, Cancelled, result)
          case Errored(result) => Complete(s.workers, id, Failed, result)
          case Succeeded(result) => if w.status.Cancelled? then s.workers else Complete(s.workers, id, Completed, result);
        s.(workers := Update(written, id, (w: Worker) => w.(executing := false)))
  }

  /** A control the poll of worker id acts on. */
  predicate Deliverable(c: Control, id: string) {
    c.roleID == id && c.status.Pending? && (c.action.CancelAction? || c.action.InterruptAction?)
  }

  /** ListPendingWorkerControls, in id order, as the session-control loop receives them. */
  function PendingFor(cs: seq<Control>, id: string): seq<SessionControls.PendingControl> {
    if cs == [] then []
    else
      var n := |cs| - 1;
      var rest := PendingFor(cs[..n], id);
      if !Deliverable(cs[n], id) then rest
      else
        rest + [SessionControls.PendingControl(
                  n, if cs[n].action.CancelAction? then SessionControls.StopSession else SessionControls.InterruptSession)]
  }

  /** The Complete hook: mark each handled row completed or failed. */
  function MarkHandled(cs: seq<Control>, handled: seq<SessionControls.Handling>): (r: seq<Control>)
    ensures |r| == |cs|
    ensures forall i :: 0 <= i < |cs| ==>
              r[i] == cs[i] || (r[i].status != Pending && r[i] == cs[i].(status := r[i].status)
                                && exists k :: 0 <= k < |handled| && handled[k].control.id == i)
  {
    if handled == [] then cs
    else
      var before := MarkHandled(cs, handled[..|handled| - 1]);
      var h := handled[|handled| - 1];
      if h.control.id < |cs| then
        before[h.control.id := before[h.control.id].(status := if h.accepted then ControlCompleted else ControlFailed)]
      else before
  }

  function PollControls(s: CourtState, id: string, answers: seq<bool>): CourtState {
    match Find(s.workers, id)
    case None => s
    case Some(w) =>
      if !w.executing then s
      else s.(controls := MarkHandled(s.controls, SessionControls.Handle(PendingFor(s.controls, id), answers)))
  }

  function CancelWorker(s: CourtState, id: string, stopped: bool): CourtState {
    match Find(s.workers, id)
    case None => s
    case Some(w) =>
      if w.status.Terminal() then s
      else
        var status := if !w.session || stopped then ControlCompleted
                      else if w.status.Running? then Pending else ControlFailed;
        s.(controls := s.controls + [Control(id, CancelAction, status, w.attempt)],
           workers := Complete(s.workers, id, Cancelled, w.result),
           run := Halted(s.run, RunCancelled))
  }

  /** The control row is left pending only when the runtime refused the interrupt: with no stored
      session identity no error arises, so the row is completed. */
  function InterruptWorker(s: CourtState, id: string, delivered: bool): CourtState {
    match Find(s.workers, id)
    case None => s
    case Some(w) =>
      if !w.status.Running? then s
      else
        var status := if w.session && !delivered then Pending else ControlCompleted;
        s.(controls := s.controls + [Control(id, InterruptAction, status, w.attempt)])
  }

  /** The status InterruptWorker reports to its caller. */
  function InterruptReport(s: CourtState, id: string, delivered: bool): Option<ControlStatus> {
    match Find(s.workers, id)
    case None => None
    case Some(w) =>
      if !w.status.Running? then None
      else if !w.session || !delivered then Some(Pending) else Some(ControlCompleted)
  }

  function ResumeWorker(s: CourtState, id: string, adopted: bool): CourtState {
    match Find(s.workers, id)
    case None => s
    case Some(w) =>
      s.(controls := s.controls + [Control(id, ResumeAction, if adopted then ControlCompleted else ControlFailed, w.attempt)],
         workers := if adopted then Update(s.workers, id, (w: Worker) => w.(session := true)) else s.workers)
  }

  /** CompletePendingWorkerControls. */
  function Supersede(cs: seq<Control>, id: string): (r: seq<Control>)
    ensures |r| == |cs|
    ensures forall i :: 0 <= i < |cs| ==>
              r[i] == if cs[i].roleID == id && cs[i].status.Pending? then cs[i].(status := ControlFailed) else cs[i]
  {
    seq(|cs|, i requires 0 <= i < |cs| =>
      if cs[i].roleID == id && cs[i].status.Pending? then cs[i].(status := ControlFailed) else cs[i])
  }

  function RetryPhase(kind: RoleKind): Phase {
    match kind
    case Clerk => ClerkPhase
    case Juror => JurorsPhase
    case Judge => VerdictPhase
    case OtherKind => BlockedPhase
  }

  /** ResetWorkerForRetry; the process of the old attempt counts as gone from here on. */
  function ResetRow(w: Worker): Worker {
    w.(attempt := w.attempt + 1, status := Queued, session := false, result := "", executing := false)
  }

  function RetryWorker(s: CourtState, id: string, launched: bool): CourtState {
    match Find(s.workers, id)
    case None => s
    case Some(w) =>
      if !w.status.Failed? && !w.status.Cancelled? then s
      else
        var controls := Supersede(s.controls, id)
                        + [Control(id, RetryAction, if launched then ControlCompleted else ControlFailed, w.attempt)];
        var reset := Update(s.workers, id, ResetRow);
        var revived := s.(controls := controls, attempts := s.attempts[(id, w.attempt) := w], workers := reset,
                          run := RunRecord(RunRunning, RetryPhase(w.kind), "", false));
        if launched then revived
        else revived.(workers := Complete(reset, id, Failed, ""), run := Halted(revived.run, RunFailed))
  }

  function Apply(s: CourtState, step: Step): CourtState {
    match step
    case Begin(id) => BeginWorker(s, id)
    case Attach(id) => AttachSession(s, id)
    case Finish(id, outcome) => FinishWorker(s, id, outcome)
    case Poll(id, answers) => PollControls(s, id, answers)
    case Reconcile(env) => ReconcileRun(s, env)
    case Cancel(id, stopped) => CancelWorker(s, id, stopped)
    case Interrupt(id, delivered) => InterruptWorker(s, id, delivered)
    case Resume(id, adopted) => ResumeWorker(s, id, adopted)
    case Retry(id, launched) => RetryWorker(s, id, launched)
  }

  /** Any sequence of operations, in any order. */
  function Exec(s: CourtState, steps: seq<Step>): CourtState {
    if steps == [] then s else Apply(Exec(s, steps[..|steps| - 1]), steps[|steps| - 1])
  }
}
