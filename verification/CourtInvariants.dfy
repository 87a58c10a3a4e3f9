/** What every reachable state of a court run satisfies. */
module CourtInvariants {
  import opened Text
  import opened Lists
  import opened CourtTypes
  import opened Court

  /** At most one worker per role. */
  ghost predicate Unique(ws: seq<Worker>) {
    forall i, j :: 0 <= i < j < |ws| ==> ws[i].roleID != ws[j].roleID
  }

  /** Judges coexist only with completed clerks and jurors, jurors only with completed clerks. */
  ghost predicate Waves(ws: seq<Worker>) {
    && (forall i, j :: 0 <= i < |ws| && 0 <= j < |ws| && ws[i].kind.Judge? && !ws[j].kind.Judge? ==> ws[j].status.Completed?)
    && (forall i, j :: 0 <= i < |ws| && 0 <= j < |ws| && ws[i].kind.Juror? && ws[j].kind.Clerk? ==> ws[j].status.Completed?)
  }

  ghost predicate AllCompleted(ws: seq<Worker>) {
    forall i :: 0 <= i < |ws| ==> ws[i].status.Completed?
  }

  /** Only running and cancelled workers have a process that may still write. */
  ghost predicate Processes(ws: seq<Worker>) {
    forall i :: 0 <= i < |ws| && ws[i].executing ==> ws[i].status.Running? || ws[i].status.Cancelled?
  }

  /** Verdict, completion time and phase agree with the status. */
  ghost predicate RecordAgrees(r: RunRecord) {
    && (r.verdict != "" <==> r.status.RunCompleted?)
    && (r.completedAt <==> r.status.Terminal())
    && (r.status.RunCompleted? ==> r.phase.CompletePhase?)
    && (r.status.RunFailed? || r.status.RunCancelled? ==> r.phase.BlockedPhase?)
  }

  /** The archive holds exactly the attempts before the current one, each as it ended. */
  ghost predicate Archived(s: CourtState) {
    && (forall i, k :: 0 <= i < |s.workers| ==> ((s.workers[i].roleID, k) in s.attempts <==> 1 <= k < s.workers[i].attempt))
    && (forall key :: key in s.attempts ==> HasRole(s.workers, key.0))
    && (forall key :: key in s.attempts ==>
          && s.attempts[key].roleID == key.0 && s.attempts[key].attempt == key.1
          && (s.attempts[key].status.Failed? || s.attempts[key].status.Cancelled?))
  }

  /** Pending controls are cancellations and interrupts issued during the worker's current attempt. */
  ghost predicate ControlsCurrent(s: CourtState) {
    && (forall c :: 0 <= c < |s.controls| ==> HasRole(s.workers, s.controls[c].roleID))
    && (forall c :: 0 <= c < |s.controls| && s.controls[c].status.Pending? ==>
          s.controls[c].action.CancelAction? || s.controls[c].action.InterruptAction?)
    && (forall c, i ::
          (0 <= c < |s.controls| && 0 <= i < |s.workers| && s.controls[c].status.Pending?
           && s.workers[i].roleID == s.controls[c].roleID) ==> s.controls[c].forAttempt == s.workers[i].attempt)
  }

  ghost predicate WorkersInv(ws: seq<Worker>) {
    Unique(ws) && Waves(ws) && Processes(ws) && forall i :: 0 <= i < |ws| ==> ws[i].attempt >= 1
  }

  ghost predicate Inv(s: CourtState) {
    && WorkersInv(s.workers)
    && RecordAgrees(s.run)
    && (s.run.status.RunCompleted? ==> AllCompleted(s.workers))
    && Archived(s)
    && ControlsCurrent(s)
  }

  // Row updates

  /** A row-wise update that keeps identities and leaves completed rows as they are. */
  ghost predicate Evolves(ws: seq<Worker>, ws': seq<Worker>) {
    && |ws| == |ws'|
    && forall i :: 0 <= i < |ws| ==>
         && ws'[i].roleID == ws[i].roleID && ws'[i].kind == ws[i].kind && ws'[i].attempt >= ws[i].attempt
         && (ws[i].status.Completed? ==> ws'[i] == ws[i].(session := ws'[i].session))
         && (ws'[i].executing ==> ws'[i].status.Running? || ws'[i].status.Cancelled?)
  }

  lemma EvolvesKeeps(ws: seq<Worker>, ws': seq<Worker>)
    requires WorkersInv(ws) && Evolves(ws, ws')
    ensures WorkersInv(ws')
    ensures forall id :: HasRole(ws, id) <==> HasRole(ws', id)
  {
    forall id
      ensures HasRole(ws, id) <==> HasRole(ws', id)
    {
      if HasRole(ws, id) {
        var i :| 0 <= i < |ws| && ws[i].roleID == id;
        assert ws'[i].roleID == id;
      }
      if HasRole(ws', id) {
        var i :| 0 <= i < |ws'| && ws'[i].roleID == id;
        assert ws[i].roleID == id;
      }
    }
  }

  /** The row Find returns is the only one an update of that role touches. */
  lemma FindUnique(ws: seq<Worker>, id: string)
    requires Unique(ws)
    ensures var r := Find(ws, id);
            r.Some? ==> forall i :: 0 <= i < |ws| && ws[i].roleID == id ==> ws[i] == r.value
  {
  }

  // Spawning

  /** A row that spawning adds: freshly queued, or marked failed by its own launch. */
  ghost predicate SpawnedRow(w: Worker, roles: seq<Role>, failing: set<string>) {
    exists k :: 0 <= k < |roles| && (w == NewWorker(roles[k])
                                     || (roles[k].id in failing && w == NewWorker(roles[k]).(status := Failed)))
  }

  lemma SpawnedRowWeaken(w: Worker, role: Role, rest: seq<Role>, roles: seq<Role>, failing: set<string>)
    requires roles == [role] + rest && SpawnedRow(w, rest, failing)
    ensures SpawnedRow(w, roles, failing)
  {
    var k :| 0 <= k < |rest| && (w == NewWorker(rest[k]) || (rest[k].id in failing && w == NewWorker(rest[k]).(status := Failed)));
    assert roles[k + 1] == rest[k];
  }

  /** The row inserted for a role whose launch fails ends up failed; the other rows are untouched. */
  lemma FailedLaunchRow(ws: seq<Worker>, role: Role)
    requires !HasRole(ws, role.id)
    ensures Complete(ws + [NewWorker(role)], role.id, Failed, "") == ws + [NewWorker(role).(status := Failed)]
  {
  }

  /** Spawning only appends fresh rows, and can only fail the run. */
  lemma {:induction false} SpawnShape(s: CourtState, roles: seq<Role>, failing: set<string>)
    ensures var t := Spawn(s, roles, failing);
            && t == s.(workers := t.workers, run := t.run)
            && s.workers <= t.workers
            && (t.run == s.run || t.run == Halted(s.run, RunFailed))
            && (forall i :: |s.workers| <= i < |t.workers| ==> SpawnedRow(t.workers[i], roles, failing))
    decreases |roles|
  {
    if roles != [] {
      var role, rest := roles[0], roles[1..];
      var t := Spawn(s, roles, failing);
      assert roles == [role] + rest;
      if Find(s.workers, role.id).Some? {
        SpawnShape(s, rest, failing);
        forall i | |s.workers| <= i < |t.workers|
          ensures SpawnedRow(t.workers[i], roles, failing)
        {
          SpawnedRowWeaken(t.workers[i], role, rest, roles, failing);
        }
      } else if role.id in failing {
        FailedLaunchRow(s.workers, role);
      } else {
        var queued := s.(workers := s.workers + [NewWorker(role)]);
        SpawnShape(queued, rest, failing);
        forall i | |s.workers| <= i < |t.workers|
          ensures SpawnedRow(t.workers[i], roles, failing)
        {
          if i == |s.workers| {
            assert t.workers[i] == queued.workers[i] == NewWorker(role) == NewWorker(roles[0]);
          } else {
            SpawnedRowWeaken(t.workers[i], role, rest, roles, failing);
          }
        }
      }
    }
  }

  /** Spawning never gives a role a second worker. */
  lemma {:induction false} SpawnUnique(s: CourtState, roles: seq<Role>, failing: set<string>)
    requires Unique(s.workers)
    ensures Unique(Spawn(s, roles, failing).workers)
    decreases |roles|
  {
    if roles != [] {
      if Find(s.workers, roles[0].id).Some? {
        SpawnUnique(s, roles[1..], failing);
      } else if roles[0].id in failing {
        FailedLaunchRow(s.workers, roles[0]);
      } else {
        SpawnUnique(s.(workers := s.workers + [NewWorker(roles[0])]), roles[1..], failing);
      }
    }
  }

  lemma PrefixKeepsRoles(ws: seq<Worker>, ws': seq<Worker>)
    requires ws <= ws'
    ensures forall id :: HasRole(ws, id) ==> HasRole(ws', id)
  {
    forall id | HasRole(ws, id)
      ensures HasRole(ws', id)
    {
      var i :| 0 <= i < |ws| && ws[i].roleID == id;
      assert ws'[i] == ws[i];
    }
  }

  /** When every launch succeeds, every role of the list ends up with a worker and the run is untouched. */
  lemma {:induction false} SpawnCovers(s: CourtState, roles: seq<Role>)
    ensures var t := Spawn(s, roles, {});
            t.run == s.run && forall k :: 0 <= k < |roles| ==> HasRole(t.workers, roles[k].id)
    decreases |roles|
  {
    if roles != [] {
      var rest := roles[1..];
      var next := if Find(s.workers, roles[0].id).Some? then s else s.(workers := s.workers + [NewWorker(roles[0])]);
      assert HasRole(next.workers, roles[0].id) by {
        if Find(s.workers, roles[0].id).None? {
          assert next.workers[|s.workers|].roleID == roles[0].id;
        }
      }
      SpawnCovers(next, rest);
      SpawnShape(next, rest, {});
      PrefixKeepsRoles(next.workers, Spawn(s, roles, {}).workers);
      assert forall k :: 1 <= k < |roles| ==> roles[k] == rest[k - 1];
    }
  }

  /** New rows are of one kind, and everything before them is completed: the spawned wave is sound. */
  lemma SpawnKeeps(s: CourtState, roles: seq<Role>, failing: set<string>, kind: RoleKind)
    requires Inv(s) && !s.run.status.Terminal() && AllCompleted(s.workers)
    requires forall k :: 0 <= k < |roles| ==> roles[k].kind == kind
    requires kind.Judge? || (kind.Juror? && !HasKind(s.workers, Judge)) || s.workers == []
    ensures Inv(Spawn(s, roles, failing))
  {
    SpawnShape(s, roles, failing);
    SpawnUnique(s, roles, failing);
    var t := Spawn(s, roles, failing);
    var old', n := s.workers, |s.workers|;
    assert forall i :: 0 <= i < n ==> t.workers[i] == old'[i];
    assert forall i :: n <= i < |t.workers| ==>
             t.workers[i].kind == kind && t.workers[i].attempt == 1 && !t.workers[i].executing by {
      forall i | n <= i < |t.workers|
        ensures t.workers[i].kind == kind && t.workers[i].attempt == 1 && !t.workers[i].executing
      {
        assert SpawnedRow(t.workers[i], roles, failing);
      }
    }
    assert Waves(t.workers);
    PrefixKeepsRoles(s.workers, t.workers);
    assert forall i :: n <= i < |t.workers| ==> !HasRole(s.workers, t.workers[i].roleID) by {
      forall i | n <= i < |t.workers|
        ensures !HasRole(s.workers, t.workers[i].roleID)
      {
        assert forall j :: 0 <= j < n ==> t.workers[j].roleID != t.workers[i].roleID;
      }
    }
    assert Archived(t);
    assert ControlsCurrent(t);
  }

  /** The controls after an operation: old rows kept or settled, new rows current. */
  ghost predicate ControlsFollow(s: CourtState, cs: seq<Control>) {
    && |s.controls| <= |cs|
    && (forall c :: 0 <= c < |s.controls| ==>
          cs[c] == s.controls[c] || (cs[c].roleID == s.controls[c].roleID && !cs[c].status.Pending?))
    && (forall c :: |s.controls| <= c < |cs| ==> exists i :: 0 <= i < |s.workers| && CurrentFor(cs[c], s.workers[i]))
  }

  ghost predicate CurrentFor(c: Control, w: Worker) {
    c.roleID == w.roleID
    && (c.status.Pending? ==> (c.action.CancelAction? || c.action.InterruptAction?) && c.forAttempt == w.attempt)
  }

  /** Operations that update rows in place, within one attempt. */
  lemma RowsKeep(s: CourtState, t: CourtState)
    requires Inv(s) && Evolves(s.workers, t.workers)
    requires forall i :: 0 <= i < |s.workers| ==> t.workers[i].attempt == s.workers[i].attempt
    requires t.attempts == s.attempts && RecordAgrees(t.run)
    requires t.run.status.RunCompleted? ==> AllCompleted(s.workers)
    requires ControlsFollow(s, t.controls)
    ensures Inv(t)
  {
    EvolvesKeeps(s.workers, t.workers);
    assert Archived(t);
    forall c | 0 <= c < |t.controls|
      ensures HasRole(t.workers, t.controls[c].roleID)
      ensures t.controls[c].status.Pending? ==> t.controls[c].action.CancelAction? || t.controls[c].action.InterruptAction?
      ensures forall i :: 0 <= i < |t.workers| && t.controls[c].status.Pending? && t.workers[i].roleID == t.controls[c].roleID
                ==> t.controls[c].forAttempt == t.workers[i].attempt
    {
      if c >= |s.controls| {
        var i :| 0 <= i < |s.workers| && CurrentFor(t.controls[c], s.workers[i]);
        assert t.workers[i].roleID == t.controls[c].roleID;
      }
    }
  }

  /** What RowsKeep asks of an operation. */
  ghost predicate InPlace(s: CourtState, t: CourtState) {
    && Evolves(s.workers, t.workers)
    && (forall i :: 0 <= i < |s.workers| ==> t.workers[i].attempt == s.workers[i].attempt)
    && t.attempts == s.attempts && t.run == s.run
    && ControlsFollow(s, t.controls)
  }

  lemma InPlaceKeeps(s: CourtState, t: CourtState)
    requires Inv(s) && InPlace(s, t)
    ensures Inv(t)
  {
    RowsKeep(s, t);
  }

  lemma BeginKeeps(s: CourtState, id: string)
    requires Inv(s)
    ensures Inv(BeginWorker(s, id))
  {
    FindUnique(s.workers, id);
    RowsKeep(s, BeginWorker(s, id));
  }

  lemma AttachInPlace(s: CourtState, id: string)
    requires Processes(s.workers)
    ensures InPlace(s, AttachSession(s, id))
  {
  }

  lemma AttachKeeps(s: CourtState, id: string)
    requires Inv(s)
    ensures Inv(AttachSession(s, id))
  {
    AttachInPlace(s, id);
    InPlaceKeeps(s, AttachSession(s, id));
  }

  /** How a process's outcome reads on its own row: cancellation wins over anything else. */
  function FinishedRow(w: Worker, outcome: Outcome): Worker {
    var ended := w.(executing := false);
    match outcome
    case Stopped(result) => ended.(status := Cancelled, result := result)
    case Errored(result) => if w.status.Cancelled? then ended else ended.(status := Failed, result := result)
    case Succeeded(result) => if w.status.Cancelled? then ended else ended.(status := Completed, result := result)
  }

  /** FinishWorker writes exactly the row of the finishing process. */
  lemma FinishRows(s: CourtState, id: string, outcome: Outcome)
    requires Unique(s.workers)
    ensures var t := FinishWorker(s, id, outcome);
            && t == s.(workers := t.workers) && |t.workers| == |s.workers|
            && forall i :: 0 <= i < |s.workers| ==>
                 t.workers[i] == if s.workers[i].roleID == id && s.workers[i].executing then FinishedRow(s.workers[i], outcome)
                                 else s.workers[i]
  {
    FindUnique(s.workers, id);
    match outcome
    case Stopped(result) =>
    case Errored(result) =>
    case Succeeded(result) =>
  }

  lemma FinishKeeps(s: CourtState, id: string, outcome: Outcome)
    requires Inv(s)
    ensures Inv(FinishWorker(s, id, outcome))
  {
    FinishRows(s, id, outcome);
    FinishedKeeps(s, FinishWorker(s, id, outcome).workers, id, outcome);
  }

  lemma FinishedKeeps(s: CourtState, ws: seq<Worker>, id: string, outcome: Outcome)
    requires Inv(s) && |ws| == |s.workers|
    requires forall i :: 0 <= i < |s.workers| ==>
               ws[i] == if s.workers[i].roleID == id && s.workers[i].executing then FinishedRow(s.workers[i], outcome) else s.workers[i]
    ensures Inv(s.(workers := ws))
  {
    assert Evolves(s.workers, ws);
    RowsKeep(s, s.(workers := ws));
  }

  lemma PollInPlace(s: CourtState, id: string, answers: seq<bool>)
    requires Processes(s.workers)
    ensures InPlace(s, PollControls(s, id, answers))
  {
  }

  lemma PollKeeps(s: CourtState, id: string, answers: seq<bool>)
    requires Inv(s)
    ensures Inv(PollControls(s, id, answers))
  {
    PollInPlace(s, id, answers);
    InPlaceKeeps(s, PollControls(s, id, answers));
  }

  lemma CancelKeeps(s: CourtState, id: string, stopped: bool)
    requires Inv(s)
    ensures Inv(CancelWorker(s, id, stopped))
  {
    FindUnique(s.workers, id);
    RowsKeep(s, CancelWorker(s, id, stopped));
  }

  lemma InterruptInPlace(s: CourtState, id: string, delivered: bool)
    requires Processes(s.workers)
    ensures InPlace(s, InterruptWorker(s, id, delivered))
  {
  }

  lemma InterruptKeeps(s: CourtState, id: string, delivered: bool)
    requires Inv(s)
    ensures Inv(InterruptWorker(s, id, delivered))
  {
    InterruptInPlace(s, id, delivered);
    InPlaceKeeps(s, InterruptWorker(s, id, delivered));
  }

  lemma ResumeInPlace(s: CourtState, id: string, adopted: bool)
    requires Processes(s.workers)
    ensures InPlace(s, ResumeWorker(s, id, adopted))
  {
  }

  lemma ResumeKeeps(s: CourtState, id: string, adopted: bool)
    requires Inv(s)
    ensures Inv(ResumeWorker(s, id, adopted))
  {
    ResumeInPlace(s, id, adopted);
    InPlaceKeeps(s, ResumeWorker(s, id, adopted));
  }

  /** What RetryWorker does to the rows, controls and archive when it is allowed. */
  lemma RetryRows(s: CourtState, id: string, launched: bool, w: Worker)
    requires Unique(s.workers) && Find(s.workers, id) == Some(w) && (w.status.Failed? || w.status.Cancelled?)
    ensures var t := RetryWorker(s, id, launched);
            && |t.workers| == |s.workers|
            && (forall i :: 0 <= i < |s.workers| ==>
                  t.workers[i] == if s.workers[i].roleID != id then s.workers[i]
                                  else if launched then ResetRow(w) else ResetRow(w).(status := Failed))
            && t.attempts == s.attempts[(id, w.attempt) := w]
            && |t.controls| == |s.controls| + 1
            && (forall c :: 0 <= c < |s.controls| ==> t.controls[c] == Supersede(s.controls, id)[c])
            && t.controls[|s.controls|].roleID == id && !t.controls[|s.controls|].status.Pending?
  {
    FindUnique(s.workers, id);
  }

  lemma RetryKeeps(s: CourtState, id: string, launched: bool)
    requires Inv(s)
    ensures Inv(RetryWorker(s, id, launched))
  {
    var r := Find(s.workers, id);
    if r.Some? && (r.value.status.Failed? || r.value.status.Cancelled?) {
      RetryRows(s, id, launched, r.value);
      RetriedKeeps(s, RetryWorker(s, id, launched), id, r.value, launched);
    }
  }

  lemma RetriedKeeps(s: CourtState, t: CourtState, id: string, w: Worker, launched: bool)
    requires Inv(s) && w in s.workers && w.roleID == id && (w.status.Failed? || w.status.Cancelled?)
    requires |t.workers| == |s.workers|
    requires forall i :: 0 <= i < |s.workers| ==>
               t.workers[i] == if s.workers[i].roleID != id then s.workers[i]
                               else if launched then ResetRow(w) else ResetRow(w).(status := Failed)
    requires t.attempts == s.attempts[(id, w.attempt) := w]
    requires |t.controls| == |s.controls| + 1
    requires forall c :: 0 <= c < |s.controls| ==> t.controls[c] == Supersede(s.controls, id)[c]
    requires t.controls[|s.controls|].roleID == id && !t.controls[|s.controls|].status.Pending?
    requires RecordAgrees(t.run) && !t.run.status.RunCompleted?
    ensures Inv(t)
  {
    var j :| 0 <= j < |s.workers| && s.workers[j] == w;
    assert forall i :: 0 <= i < |s.workers| && s.workers[i].roleID == id ==> i == j;
    assert Evolves(s.workers, t.workers);
    EvolvesKeeps(s.workers, t.workers);
    RetryArchives(s, t, id, w);
    RetryControls(s, t, id);
  }

  lemma RetryArchives(s: CourtState, t: CourtState, id: string, w: Worker)
    requires Inv(s) && w in s.workers && w.roleID == id && (w.status.Failed? || w.status.Cancelled?)
    requires |t.workers| == |s.workers|
    requires forall i :: 0 <= i < |s.workers| ==>
               t.workers[i].roleID == s.workers[i].roleID
               && t.workers[i].attempt == s.workers[i].attempt + (if s.workers[i].roleID == id then 1 else 0)
    requires forall x :: HasRole(s.workers, x) <==> HasRole(t.workers, x)
    requires t.attempts == s.attempts[(id, w.attempt) := w]
    ensures Archived(t)
  {
    var j :| 0 <= j < |s.workers| && s.workers[j] == w;
    assert HasRole(s.workers, id);
    forall i, k | 0 <= i < |t.workers|
      ensures (t.workers[i].roleID, k) in t.attempts <==> 1 <= k < t.workers[i].attempt
    {
      assert (s.workers[i].roleID, k) in s.attempts <==> 1 <= k < s.workers[i].attempt;
      if s.workers[i].roleID == id {
        assert i == j;
      }
    }
  }

  lemma RetryControls(s: CourtState, t: CourtState, id: string)
    requires Inv(s) && HasRole(s.workers, id) && |t.workers| == |s.workers|
    requires forall i :: 0 <= i < |s.workers| ==>
               t.workers[i].roleID == s.workers[i].roleID
               && (s.workers[i].roleID != id ==> t.workers[i].attempt == s.workers[i].attempt)
    requires forall x :: HasRole(s.workers, x) <==> HasRole(t.workers, x)
    requires |t.controls| == |s.controls| + 1
    requires forall c :: 0 <= c < |s.controls| ==> t.controls[c] == Supersede(s.controls, id)[c]
    requires t.controls[|s.controls|].roleID == id && !t.controls[|s.controls|].status.Pending?
    ensures ControlsCurrent(t)
  {
  }

  /** A final verdict is never empty: it has a title or is a judge's non-empty result. */
  lemma FinalVerdictNonEmpty(ws: seq<Worker>)
    ensures FinalVerdict(ws) != ""
  {
    var p := (w: Worker) => w.kind.Judge? && w.result != "";
    var judged := Filter(ws, p);
    if |judged| == 1 {
      FilterHolds(ws, p);
      assert p(judged[0]);
    } else if |judged| > 1 {
      var text := VERDICT_TITLE + Sections(judged);
      assert text[0] == '#' && TrimLeft(text) == text;
      TrimRightKeepsHead(text);
    }
  }

  lemma FilterHolds<T>(s: seq<T>, p: T -> bool)
    ensures forall i :: 0 <= i < |Filter(s, p)| ==> p(Filter(s, p)[i])
  {
  }

  /** A completed judge bench means that every worker is completed. */
  lemma JudgedMeansCompleted(ws: seq<Worker>)
    requires Waves(ws) && JudgeCompleted(ws)
    ensures AllCompleted(ws)
  {
    var j :| 0 <= j < |ws| && ws[j].kind == Judge;
    assert forall i :: 0 <= i < |ws| && !ws[i].kind.Judge? ==> ws[i].status.Completed?;
  }

  /** Moving a live run to another phase, or recording a docket. */
  lemma PhaseKeeps(s: CourtState, phase: Phase, judgeIDs: seq<string>)
    requires Inv(s) && !s.run.status.Terminal()
    ensures Inv(s.(run := s.run.(phase := phase), judgeIDs := judgeIDs))
  {
    RowsKeep(s, s.(run := s.run.(phase := phase), judgeIDs := judgeIDs));
  }

  lemma VerdictKeeps(s: CourtState, verdict: string)
    requires Inv(s) && AllCompleted(s.workers) && verdict != ""
    ensures Inv(s.(run := Finished(s.run, verdict)))
  {
    RowsKeep(s, s.(run := Finished(s.run, verdict)));
  }

  lemma JudgeWaveKeeps(s: CourtState, preset: seq<Role>, env: Surroundings)
    requires Inv(s) && !s.run.status.Terminal() && AllCompleted(s.workers) && !s.workflow.ReviewOnly?
    requires !(ClerkReadyForJurors(s.workers, preset) && !HasKind(s.workers, Juror))
    ensures Inv(NextWave(s, s.workers, preset, env))
  {
    var ws := s.workers;
    FinalVerdictNonEmpty(ws);
    var judges := JudgeRoles(s.delegating, s.judgeIDs, preset, env.catalog);
    if judges.Some? {
      if judges.value == [] {
        VerdictKeeps(s, FinalVerdict(ws));
      } else if Missing(judges.value, ws) != [] {
        PhaseKeeps(s, VerdictPhase, s.judgeIDs);
        SpawnKeeps(s.(run := s.run.(phase := VerdictPhase)), Missing(judges.value, ws), env.failing, Judge);
      }
    }
  }

  lemma NextWaveKeeps(s: CourtState, preset: seq<Role>, env: Surroundings)
    requires Inv(s) && !s.run.status.Terminal() && s.workers != []
    requires !HasFailed(s.workers) && !HasCancelled(s.workers) && !JudgeCompleted(s.workers)
    ensures Inv(NextWave(s, s.workers, preset, env))
  {
    var ws := s.workers;
    if HasActive(ws) {
      PhaseKeeps(s, NextWave(s, ws, preset, env).run.phase, s.judgeIDs);
    } else {
      assert AllCompleted(ws) && !HasKind(ws, Judge);
      if ClerkReadyForJurors(ws, preset) && !HasKind(ws, Juror) {
        var chosen := PromoteDocket(s.delegating, preset, env.delegation);
        PhaseKeeps(s, JurorsPhase, chosen.judgeIDs);
        SpawnKeeps(s.(judgeIDs := chosen.judgeIDs, run := s.run.(phase := JurorsPhase)), chosen.jurors, env.failing, Juror);
      } else if s.workflow.ReviewOnly? {
        FinalVerdictNonEmpty(ws);
        VerdictKeeps(s, FinalVerdict(ws));
      } else {
        JudgeWaveKeeps(s, preset, env);
      }
    }
  }

  lemma ReconcileKeeps(s: CourtState, env: Surroundings)
    requires Inv(s)
    ensures Inv(ReconcileRun(s, env))
  {
    var ws, t := s.workers, ReconcileRun(s, env);
    if s.run.status.Terminal() || ws == [] {
    } else if HasFailed(ws) || HasCancelled(ws) {
      RowsKeep(s, t);
    } else if env.preset.Some? {
      if JudgeCompleted(ws) {
        JudgedMeansCompleted(ws);
        FinalVerdictNonEmpty(ws);
        RowsKeep(s, t);
      } else {
        NextWaveKeeps(s, env.preset.value, env);
      }
    }
  }

  lemma StepKeeps(s: CourtState, step: Step)
    requires Inv(s)
    ensures Inv(Apply(s, step))
  {
    match step
    case Begin(id) => BeginKeeps(s, id);
    case Attach(id) => AttachKeeps(s, id);
    case Finish(id, outcome) => FinishKeeps(s, id, outcome);
    case Poll(id, answers) => PollKeeps(s, id, answers);
    case Reconcile(env) => ReconcileKeeps(s, env);
    case Cancel(id, stopped) => CancelKeeps(s, id, stopped);
    case Interrupt(id, delivered) => InterruptKeeps(s, id, delivered);
    case Resume(id, adopted) => ResumeKeeps(s, id, adopted);
    case Retry(id, launched) => RetryKeeps(s, id, launched);
  }

  lemma StartHolds(preset: seq<Role>, workflow: Workflow, delegating: bool, failing: set<string>)
    ensures Inv(Start(preset, workflow, delegating, failing))
  {
    var run := RunRecord(RunRunning, InitialPhase(preset, workflow), "", false);
    var empty := CourtState(workflow, delegating, run, [], map[], [], []);
    var roles := InitialRoles(preset, workflow);
    if roles != [] {
      SpawnKeeps(empty, roles, failing, roles[0].kind);
    }
  }

  /** Every state reachable by any sequence of operations satisfies the invariant, whatever presets,
      catalogues, delegation decisions, launch failures and runtime answers occur on the way. */
  lemma {:induction false} Reachable(preset: seq<Role>, workflow: Workflow, delegating: bool, failing: set<string>, steps: seq<Step>)
    ensures Inv(Exec(Start(preset, workflow, delegating, failing), steps))
  {
    StartHolds(preset, workflow, delegating, failing);
    if steps != [] {
      var init := steps[..|steps| - 1];
      Reachable(preset, workflow, delegating, failing, init);
      StepKeeps(Exec(Start(preset, workflow, delegating, failing), init), steps[|steps| - 1]);
    }
  }
}
