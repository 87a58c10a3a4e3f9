/** What each operation of a run writes, row by row, and when it writes nothing. */
module CourtEffects {
  import opened Lists
  import opened CourtTypes
  import opened Court
  import opened CourtInvariants
  import opened CourtControls
  import SessionControls

  /** The row of worker i, in a table with one row for each role. */
  ghost predicate IsRow(s: CourtState, i: nat, id: string) {
    Unique(s.workers) && i < |s.workers| && s.workers[i].roleID == id
  }

  lemma FindRow(s: CourtState, i: nat, id: string)
    requires IsRow(s, i, id)
    ensures Find(s.workers, id) == Some(s.workers[i])
  {
    FindUnique(s.workers, id);
  }

  lemma UpdateRow(s: CourtState, i: nat, id: string, f: Worker -> Worker)
    requires IsRow(s, i, id)
    ensures Update(s.workers, id, f) == s.workers[i := f(s.workers[i])]
  {
  }

  /** The state with another row for worker i. */
  function WithRow(s: CourtState, i: nat, w: Worker): CourtState
    requires i < |s.workers|
  {
    s.(workers := s.workers[i := w])
  }

  predicate Live(w: Worker) {
    w.status.Queued? || w.status.Running?
  }

  /** An operation on a role that has no worker does nothing. */
  lemma UnknownIsIgnored(s: CourtState, step: Step)
    requires !step.Reconcile? && forall i :: 0 <= i < |s.workers| ==> s.workers[i].roleID != step.id
    ensures Apply(s, step) == s
  {
    assert Find(s.workers, step.id) == None;
  }

  /** A process that begins marks a live worker running; it leaves one that has ended alone. */
  lemma BeginSays(s: CourtState, i: nat, id: string)
    requires IsRow(s, i, id)
    ensures var w := s.workers[i];
            BeginWorker(s, id) == if Live(w) then WithRow(s, i, w.(status := Running, executing := true)) else s
  {
    FindRow(s, i, id);
    UpdateRow(s, i, id, (w: Worker) => w.(status := Running, executing := true));
  }

  lemma AttachSays(s: CourtState, i: nat, id: string)
    requires IsRow(s, i, id)
    ensures var w := s.workers[i];
            AttachSession(s, id) == if w.executing then WithRow(s, i, w.(session := true)) else s
  {
    FindRow(s, i, id);
    UpdateRow(s, i, id, (w: Worker) => w.(session := true));
  }

  /** The end of a process: only an executing one writes; a stop cancels, an error fails and a success completes, with the
      result of the process; but a worker that was cancelled meanwhile stays as it is unless it was stopped. */
  lemma FinishSays(s: CourtState, i: nat, id: string, outcome: Outcome)
    requires IsRow(s, i, id)
    ensures var w, t := s.workers[i], FinishWorker(s, id, outcome);
            && (!w.executing ==> t == s)
            && (w.executing ==>
                  && t == WithRow(s, i, t.workers[i])
                  && !t.workers[i].executing
                  && (outcome.Stopped? ==> t.workers[i] == w.(status := Cancelled, result := outcome.result, executing := false))
                  && (!outcome.Stopped? && w.status.Cancelled? ==> t.workers[i] == w.(executing := false))
                  && (outcome.Errored? && !w.status.Cancelled? ==>
                        t.workers[i] == w.(status := Failed, result := outcome.result, executing := false))
                  && (outcome.Succeeded? && !w.status.Cancelled? ==>
                        t.workers[i] == w.(status := Completed, result := outcome.result, executing := false)))
  {
    FindRow(s, i, id);
    FinishRows(s, id, outcome);
    if s.workers[i].executing {
      assert FinishWorker(s, id, outcome).workers == s.workers[i := FinishWorker(s, id, outcome).workers[i]];
    }
  }

  /** The record of a run that was halted: no verdict, blocked, and over. */
  function HaltedRun(status: RunStatus): RunRecord {
    RunRecord(status, BlockedPhase, "", true)
  }

  /** A cancellation ends a live worker, keeps its result and halts the run. Its control is settled at once when there is
      no session to stop or the stop succeeds; otherwise it waits for the process of a running worker and has failed for
      one that is only queued. */
  lemma CancelSays(s: CourtState, i: nat, id: string, stopped: bool)
    requires IsRow(s, i, id)
    ensures var w, t := s.workers[i], CancelWorker(s, id, stopped);
            && (!Live(w) ==> t == s)
            && (Live(w) ==>
                  && t.workers == s.workers[i := w.(status := Cancelled)]
                  && t.run == HaltedRun(RunCancelled)
                  && t.controls == s.controls + [Control(id, CancelAction, t.controls[|s.controls|].status, w.attempt)]
                  && (t.controls[|s.controls|].status == ControlCompleted <==> !w.session || stopped)
                  && (t.controls[|s.controls|].status == Pending <==> w.session && !stopped && w.status.Running?)
                  && t.attempts == s.attempts && t.judgeIDs == s.judgeIDs && t.workflow == s.workflow && t.delegating == s.delegating)
  {
    FindRow(s, i, id);
    var w := s.workers[i];
    if Live(w) {
      UpdateRow(s, i, id, (x: Worker) => if x.status.Cancelled? && !Cancelled.Cancelled? then x else x.(status := Cancelled, result := w.result));
      assert Complete(s.workers, id, Cancelled, w.result) == s.workers[i := w.(status := Cancelled)];
    }
  }

  /** An interrupt only records a control, for a running worker; it waits exactly when there is a session that refused. */
  lemma InterruptSays(s: CourtState, i: nat, id: string, delivered: bool)
    requires IsRow(s, i, id)
    ensures var w, t := s.workers[i], InterruptWorker(s, id, delivered);
            && (!w.status.Running? ==> t == s && InterruptReport(s, id, delivered) == None)
            && (w.status.Running? ==>
                  && t == s.(controls := s.controls + [Control(id, InterruptAction,
                                                               if w.session && !delivered then Pending else ControlCompleted, w.attempt)])
                  && InterruptReport(s, id, delivered) == Some(if w.session && delivered then ControlCompleted else Pending))
  {
    FindRow(s, i, id);
  }

  /** A resume records a control for a worker in any state, and stores the session identity when it is adopted. */
  lemma ResumeSays(s: CourtState, i: nat, id: string, adopted: bool)
    requires IsRow(s, i, id)
    ensures var w, t := s.workers[i], ResumeWorker(s, id, adopted);
            && t.controls == s.controls + [Control(id, ResumeAction, if adopted then ControlCompleted else ControlFailed, w.attempt)]
            && t.workers == (if adopted then s.workers[i := w.(session := true)] else s.workers)
            && t == s.(controls := t.controls, workers := t.workers)
  {
    FindRow(s, i, id);
    UpdateRow(s, i, id, (w: Worker) => w.(session := true));
  }

  /** A retry, of a failed or cancelled worker only: the row as it ended is archived under its attempt; the worker is queued
      again for the next one with nothing left of the last; the run goes on, in the phase of the worker's kind; controls of
      the worker that wait are failed. If the launch fails the worker and the run fail again. */
  lemma RetrySays(s: CourtState, i: nat, id: string, launched: bool)
    requires IsRow(s, i, id)
    ensures var w, t := s.workers[i], RetryWorker(s, id, launched);
            && (!w.status.Failed? && !w.status.Cancelled? ==> t == s)
            && (w.status.Failed? || w.status.Cancelled? ==>
                  && t.attempts == s.attempts[(id, w.attempt) := w]
                  && t.workers == s.workers[i := Worker(id, w.kind, w.title, if launched then Queued else Failed, w.attempt + 1, "", false, false)]
                  && (launched ==> t.run == RunRecord(RunRunning, PhaseOfKind(w.kind), "", false))
                  && (!launched ==> t.run == HaltedRun(RunFailed))
                  && t.judgeIDs == s.judgeIDs && t.workflow == s.workflow && t.delegating == s.delegating)
  {
    FindRow(s, i, id);
    var w := s.workers[i];
    if w.status.Failed? || w.status.Cancelled? {
      RetryRows(s, id, launched, w);
      var t := RetryWorker(s, id, launched);
      assert t.workers[i] == Worker(id, w.kind, w.title, if launched then Queued else Failed, w.attempt + 1, "", false, false);
      assert t.workers == s.workers[i := t.workers[i]];
    }
  }

  function PhaseOfKind(kind: RoleKind): Phase {
    if kind.Clerk? then ClerkPhase else if kind.Juror? then JurorsPhase else if kind.Judge? then VerdictPhase else BlockedPhase
  }

  lemma RetryControlsSay(s: CourtState, i: nat, id: string, launched: bool)
    requires IsRow(s, i, id) && (s.workers[i].status.Failed? || s.workers[i].status.Cancelled?)
    ensures var w, t := s.workers[i], RetryWorker(s, id, launched);
            && |t.controls| == |s.controls| + 1
            && t.controls[|s.controls|] == Control(id, RetryAction, if launched then ControlCompleted else ControlFailed, w.attempt)
            && forall c :: 0 <= c < |s.controls| ==>
                 t.controls[c] == if s.controls[c].roleID == id && s.controls[c].status.Pending? then s.controls[c].(status := ControlFailed)
                                  else s.controls[c]
  {
    FindRow(s, i, id);
  }

  // Polls

  /** How many controls of the worker wait for its process before row c. */
  function WaitingBefore(cs: seq<Control>, id: string, c: nat): nat
    requires c <= |cs|
  {
    if c == 0 then 0
    else
      WaitingBefore(cs, id, c - 1)
      + if cs[c - 1].roleID == id && cs[c - 1].status.Pending? && (cs[c - 1].action.CancelAction? || cs[c - 1].action.InterruptAction?) then 1
        else 0
  }

  lemma {:induction false} PendingCount(cs: seq<Control>, id: string, c: nat)
    requires c <= |cs|
    ensures |PendingFor(cs[..c], id)| == WaitingBefore(cs, id, c)
  {
    if c > 0 {
      PendingCount(cs, id, c - 1);
      assert cs[..c][..c - 1] == cs[..c - 1];
    }
  }

  lemma {:induction false} PendingPlace(cs: seq<Control>, id: string, c: nat, n: nat)
    requires c < n <= |cs| && Deliverable(cs[c], id)
    ensures WaitingBefore(cs, id, c) < |PendingFor(cs[..n], id)| && PendingFor(cs[..n], id)[WaitingBefore(cs, id, c)].id == c
  {
    assert cs[..n][..n - 1] == cs[..n - 1];
    if c < n - 1 {
      PendingPlace(cs, id, c, n - 1);
    } else {
      PendingCount(cs, id, c);
    }
  }

  /** The controls handled have different rows. */
  ghost predicate RowsDiffer(handled: seq<SessionControls.Handling>) {
    forall j, k :: 0 <= j < k < |handled| ==> handled[j].control.id < handled[k].control.id
  }

  lemma {:induction false} MarkedByAnswer(cs: seq<Control>, handled: seq<SessionControls.Handling>, k: nat)
    requires RowsDiffer(handled) && k < |handled| && handled[k].control.id < |cs|
    ensures var c := handled[k].control.id;
            MarkHandled(cs, handled)[c] == cs[c].(status := if handled[k].accepted then ControlCompleted else ControlFailed)
  {
    var n := |handled| - 1;
    if k < n {
      MarkedByAnswer(cs, handled[..n], k);
    } else {
      UntouchedRow(cs, handled[..n], handled[k].control.id);
    }
  }

  lemma {:induction false} UntouchedRow(cs: seq<Control>, handled: seq<SessionControls.Handling>, c: nat)
    requires c < |cs| && forall k :: 0 <= k < |handled| ==> handled[k].control.id != c
    ensures MarkHandled(cs, handled)[c] == cs[c]
  {
    if handled != [] {
      UntouchedRow(cs, handled[..|handled| - 1], c);
    }
  }

  lemma HandledInOrder(cs: seq<Control>, id: string, answers: seq<bool>)
    ensures RowsDiffer(SessionControls.Handle(PendingFor(cs, id), answers))
  {
    PendingForLists(cs, id);
  }

  /** A poll does nothing but settle controls, and only while the process executes. */
  lemma PollOnlySettles(s: CourtState, i: nat, id: string, answers: seq<bool>)
    requires IsRow(s, i, id)
    ensures PollControls(s, id, answers) == s.(controls := PollControls(s, id, answers).controls)
    ensures |PollControls(s, id, answers).controls| == |s.controls|
    ensures !s.workers[i].executing ==> PollControls(s, id, answers) == s
  {
    FindRow(s, i, id);
  }

  /** What a control is settled to: completed when the runtime accepted it, which it answers in the order in which the
      worker's controls wait, and failed when it did not. */
  lemma PollSettlesByAnswer(s: CourtState, i: nat, id: string, answers: seq<bool>, c: nat)
    requires IsRow(s, i, id) && s.workers[i].executing
    requires c < |s.controls| && PollControls(s, id, answers).controls[c] != s.controls[c]
    ensures var k := WaitingBefore(s.controls, id, c);
            PollControls(s, id, answers).controls[c]
            == s.controls[c].(status := if k < |answers| && !answers[k] then ControlFailed else ControlCompleted)
  {
    FindRow(s, i, id);
    PollSettlesExactly(s, id, answers, s.workers[i], c);
    PendingPlace(s.controls, id, c, |s.controls|);
    assert s.controls[..|s.controls|] == s.controls;
    PendingForLists(s.controls, id);
    var pending := PendingFor(s.controls, id);
    PositionReached(pending, s.controls, id, WaitingBefore(s.controls, id, c), c);
    HandledInOrder(s.controls, id, answers);
    MarkedByAnswer(s.controls, SessionControls.Handle(pending, answers), WaitingBefore(s.controls, id, c));
  }
}
