/** Controls and retries over whole runs. */
module CourtControls {
  import opened Lists
  import opened CourtTypes
  import opened Court
  import opened CourtInvariants
  import SessionControls

  type Pendings = seq<SessionControls.PendingControl>

  /** The rows PendingFor lists, without gaps: position k of the list is row r[k].id. */
  ghost predicate ListsPending(r: Pendings, cs: seq<Control>, id: string) {
    && (forall k :: 0 <= k < |r| ==>
          && r[k].id < |cs| && Deliverable(cs[r[k].id], id)
          && (r[k].action.StopSession? <==> cs[r[k].id].action.CancelAction?))
    && (forall j, k :: 0 <= j < k < |r| ==> r[j].id < r[k].id)
    && (forall i :: 0 <= i < |cs| && Deliverable(cs[i], id) ==> Listed(r, i))
  }

  ghost predicate Listed(r: Pendings, i: nat) {
    exists k :: 0 <= k < |r| && r[k].id == i
  }

  lemma {:induction false} PendingForLists(cs: seq<Control>, id: string)
    ensures ListsPending(PendingFor(cs, id), cs, id)
  {
    if cs != [] {
      var n := |cs| - 1;
      var rest, r := PendingFor(cs[..n], id), PendingFor(cs, id);
      PendingForLists(cs[..n], id);
      assert rest <= r;
      forall i | 0 <= i < |cs| && Deliverable(cs[i], id)
        ensures Listed(r, i)
      {
        if i < n {
          assert Deliverable(cs[..n][i], id);
          assert Listed(rest, i);
          var k :| 0 <= k < |rest| && rest[k].id == i;
          assert r[k].id == i;
        } else {
          assert r[|rest|].id == i;
        }
      }
    }
  }

  /** Marking handled rows changes exactly the rows named, provided they were pending. */
  lemma {:induction false} MarkHandledExactly(cs: seq<Control>, handled: seq<SessionControls.Handling>, i: nat)
    requires i < |cs| && cs[i].status.Pending?
    ensures MarkHandled(cs, handled)[i] != cs[i] <==> exists k :: 0 <= k < |handled| && handled[k].control.id == i
    ensures MarkHandled(cs, handled)[i] != cs[i] ==> !MarkHandled(cs, handled)[i].status.Pending?
  {
    if handled != [] {
      var init, last := handled[..|handled| - 1], handled[|handled| - 1];
      MarkHandledExactly(cs, init, i);
      assert handled == init + [last];
      if last.control.id == i {
        assert handled[|init|].control.id == i;
      }
    }
  }

  /** One poll settles exactly the pending cancel and interrupt rows of its worker that no earlier
      such cancel row precedes: it handles controls in order, up to and including the first cancel. */
  lemma PollSettlesExactly(s: CourtState, id: string, answers: seq<bool>, w: Worker, i: nat)
    requires Find(s.workers, id) == Some(w) && w.executing && i < |s.controls|
    ensures var t := PollControls(s, id, answers);
            t.controls[i] != s.controls[i] <==>
              Deliverable(s.controls[i], id)
              && forall j :: 0 <= j < i ==> !(Deliverable(s.controls[j], id) && s.controls[j].action.CancelAction?)
  {
    var cs := s.controls;
    var pending := PendingFor(cs, id);
    var handled := SessionControls.Handle(pending, answers);
    PendingForLists(cs, id);
    SessionControls.ReachedStopsAtFirstStop(pending);
    if Deliverable(cs[i], id) {
      MarkHandledExactly(cs, handled, i);
      assert Listed(pending, i);
      var k :| 0 <= k < |pending| && pending[k].id == i;
      PositionReached(pending, cs, id, k, i);
      if k < |handled| {
        assert handled[k].control.id == i;
      }
      forall m | 0 <= m < |handled| && handled[m].control.id == i
        ensures m == k
      {
        assert pending[m].id == i;
      }
    }
  }

  /** Position k of the list is reached exactly when no cancel row of the worker comes before its row. */
  lemma PositionReached(pending: Pendings, cs: seq<Control>, id: string, k: nat, i: nat)
    requires ListsPending(pending, cs, id) && k < |pending| && pending[k].id == i && i < |cs|
    ensures k < |SessionControls.Reached(pending)| <==>
            forall j :: 0 <= j < i ==> !(Deliverable(cs[j], id) && cs[j].action.CancelAction?)
  {
    if exists j :: 0 <= j < i && Deliverable(cs[j], id) && cs[j].action.CancelAction? {
      var j :| 0 <= j < i && Deliverable(cs[j], id) && cs[j].action.CancelAction?;
      PrecededNotReached(pending, cs, id, k, i, j);
    } else {
      UnprecededReached(pending, cs, id, k, i);
    }
  }

  lemma PrecededNotReached(pending: Pendings, cs: seq<Control>, id: string, k: nat, i: nat, j: nat)
    requires ListsPending(pending, cs, id) && k < |pending| && pending[k].id == i && i < |cs|
    requires j < i && Deliverable(cs[j], id) && cs[j].action.CancelAction?
    ensures k >= |SessionControls.Reached(pending)|
  {
    assert Listed(pending, j);
    var m :| 0 <= m < |pending| && pending[m].id == j;
    assert m < k;
    StopsBefore(pending, m, k);
  }

  lemma StopsBefore(pending: Pendings, m: nat, k: nat)
    requires m < k < |pending| && pending[m].action.StopSession?
    ensures k >= |SessionControls.Reached(pending)|
  {
    SessionControls.ReachedStopsAtFirstStop(pending);
    var first := FirstStop(pending, m);
  }

  lemma UnprecededReached(pending: Pendings, cs: seq<Control>, id: string, k: nat, i: nat)
    requires ListsPending(pending, cs, id) && k < |pending| && pending[k].id == i && i < |cs|
    requires forall j :: 0 <= j < i ==> !(Deliverable(cs[j], id) && cs[j].action.CancelAction?)
    ensures k < |SessionControls.Reached(pending)|
  {
    SessionControls.ReachedStopsAtFirstStop(pending);
    if stop :| 0 <= stop < |pending| && pending[stop].action.StopSession? {
      var first := FirstStop(pending, stop);
      assert |SessionControls.Reached(pending)| == first + 1;
      assert Deliverable(cs[pending[first].id], id) && cs[pending[first].id].action.CancelAction?;
    }
  }

  lemma FirstStop(pending: Pendings, stop: nat) returns (first: nat)
    requires stop < |pending| && pending[stop].action.StopSession?
    ensures first <= stop && SessionControls.IsFirstStop(pending, first)
  {
    first := 0;
    while !pending[first].action.StopSession?
      invariant first <= stop && forall i :: 0 <= i < first ==> !pending[i].action.StopSession?
      decreases stop - first
    {
      first := first + 1;
    }
  }

  /** A control a poll settles was issued during the attempt whose process is polling. */
  lemma PollDeliversToOwnAttempt(s: CourtState, id: string, answers: seq<bool>, w: Worker, i: nat)
    requires Inv(s) && Find(s.workers, id) == Some(w)
    requires i < |s.controls| && PollControls(s, id, answers).controls[i] != s.controls[i]
    ensures s.controls[i].roleID == id && s.controls[i].forAttempt == w.attempt
  {
    PollSettlesExactly(s, id, answers, w, i);
    var j :| 0 <= j < |s.workers| && s.workers[j] == w && s.workers[j].roleID == id;
  }

  /** No operation ever changes a settled control. */
  lemma SettledStepStays(s: CourtState, step: Step, i: nat)
    requires i < |s.controls| && !s.controls[i].status.Pending?
    ensures |Apply(s, step).controls| >= |s.controls| && Apply(s, step).controls[i] == s.controls[i]
  {
    match step
    case Poll(id, answers) =>
      var w := Find(s.workers, id);
      if w.Some? && w.value.executing {
        PollSettlesExactly(s, id, answers, w.value, i);
      }
    case Reconcile(env) =>
      ReconcileKeepsControls(s, env);
    case Retry(_, _) =>
    case Begin(_) =>
    case Attach(_) =>
    case Finish(_, _) =>
    case Cancel(_, _) =>
    case Interrupt(_, _) =>
    case Resume(_, _) =>
  }

  lemma ReconcileKeepsControls(s: CourtState, env: Surroundings)
    ensures ReconcileRun(s, env).controls == s.controls
  {
    if env.preset.Some? {
      NextWaveKeepsControls(s, env.preset.value, env);
    }
  }

  lemma NextWaveKeepsControls(s: CourtState, preset: seq<Role>, env: Surroundings)
    ensures NextWave(s, s.workers, preset, env).controls == s.controls
  {
    if HasActive(s.workers) {
    } else if ClerkReadyForJurors(s.workers, preset) && !HasKind(s.workers, Juror) {
      var chosen := PromoteDocket(s.delegating, preset, env.delegation);
      SpawnShape(s.(judgeIDs := chosen.judgeIDs, run := s.run.(phase := JurorsPhase)), chosen.jurors, env.failing);
    } else {
      var judges := JudgeRoles(s.delegating, s.judgeIDs, preset, env.catalog);
      if judges.Some? {
        SpawnShape(s.(run := s.run.(phase := VerdictPhase)), Missing(judges.value, s.workers), env.failing);
      }
    }
  }

  lemma {:induction false} SettledStays(s: CourtState, steps: seq<Step>, i: nat)
    requires i < |s.controls| && !s.controls[i].status.Pending?
    ensures |Exec(s, steps).controls| >= |s.controls| && Exec(s, steps).controls[i] == s.controls[i]
  {
    if steps != [] {
      var init := steps[..|steps| - 1];
      SettledStays(s, init, i);
      SettledStepStays(Exec(s, init), steps[|steps| - 1], i);
    }
  }

  /** Controls of a worker that are still pending when its retry starts are failed by the retry, and
      nothing that happens afterwards, polls of the new attempt included, touches them again. */
  lemma SupersededNeverDelivered(s: CourtState, id: string, launched: bool, after: seq<Step>, i: nat)
    requires Find(s.workers, id).Some? && RetryWorker(s, id, launched) != s
    requires i < |s.controls| && s.controls[i].roleID == id && s.controls[i].status.Pending?
    ensures i < |Exec(RetryWorker(s, id, launched), after).controls|
    ensures Exec(RetryWorker(s, id, launched), after).controls[i] == s.controls[i].(status := ControlFailed)
  {
    SettledStays(RetryWorker(s, id, launched), after, i);
  }

  /** In every reachable state the archived attempts of a worker are 1 up to its attempt minus one,
      each archived once, in the failed or cancelled state it ended in. */
  lemma RetryHistory(preset: seq<Role>, workflow: Workflow, delegating: bool, failing: set<string>, steps: seq<Step>)
    ensures var s := Exec(Start(preset, workflow, delegating, failing), steps);
            forall i :: 0 <= i < |s.workers| ==>
              var w := s.workers[i];
              && (forall k :: (w.roleID, k) in s.attempts <==> 1 <= k < w.attempt)
              && (forall k :: 1 <= k < w.attempt ==>
                    s.attempts[(w.roleID, k)].attempt == k
                    && (s.attempts[(w.roleID, k)].status.Failed? || s.attempts[(w.roleID, k)].status.Cancelled?))
  {
    Reachable(preset, workflow, delegating, failing, steps);
  }

  /** An interrupt reported as pending is really pending exactly when the worker has a stored session
      identity; without one the row is already completed and no later poll delivers it. */
  lemma PendingInterruptNeedsSession(s: CourtState, id: string, delivered: bool, w: Worker, after: seq<Step>)
    requires Find(s.workers, id) == Some(w) && InterruptReport(s, id, delivered) == Some(Pending)
    ensures var t := InterruptWorker(s, id, delivered);
            && |t.controls| == |s.controls| + 1
            && (t.controls[|s.controls|].status.Pending? <==> w.session)
            && |Exec(t, after).controls| >= |t.controls|
            && (!w.session ==> Exec(t, after).controls[|s.controls|].status.ControlCompleted?)
  {
    var t := InterruptWorker(s, id, delivered);
    ControlsGrow(t, after);
    if !w.session {
      SettledStays(t, after, |s.controls|);
    }
  }

  lemma {:induction false} ControlsGrow(s: CourtState, steps: seq<Step>)
    ensures |Exec(s, steps).controls| >= |s.controls|
  {
    if steps != [] {
      ControlsGrow(s, steps[..|steps| - 1]);
      StepGrowsControls(Exec(s, steps[..|steps| - 1]), steps[|steps| - 1]);
    }
  }

  lemma StepGrowsControls(s: CourtState, step: Step)
    ensures |Apply(s, step).controls| >= |s.controls|
  {
    match step
    case Reconcile(env) => ReconcileKeepsControls(s, env);
    case Poll(_, _) =>
    case Retry(_, _) =>
    case Begin(_) =>
    case Attach(_) =>
    case Finish(_, _) =>
    case Cancel(_, _) =>
    case Interrupt(_, _) =>
    case Resume(_, _) =>
  }
}
