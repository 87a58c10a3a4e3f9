/** One poll of the pending controls of a runtime session. */
module SessionControls {

  datatype PendingAction = StopSession | InterruptSession

  /** A queued control; `id` is its row. */
  datatype PendingControl = PendingControl(id: nat, action: PendingAction)

  /** What was done with one control: the runtime accepted the action or returned an error. */
  datatype Handling = Handling(control: PendingControl, accepted: bool)

  datatype PollResult = PollResult(cancelled: bool, errors: nat, failed: bool)

  ghost predicate IsFirstStop(controls: seq<PendingControl>, k: nat) {
    k < |controls| && controls[k].action.StopSession? && forall i :: 0 <= i < k ==> !controls[i].action.StopSession?
  }

  /** The controls one poll acts on: everything up to and including the first stop. */
  function Reached(controls: seq<PendingControl>): (r: seq<PendingControl>)
    ensures r <= controls
  {
    if controls == [] then []
    else if controls[0].action.StopSession? then [controls[0]]
    else
      assert controls == [controls[0]] + controls[1..];
      [controls[0]] + Reached(controls[1..])
  }

  /** Reached stops right after the first stop, and covers everything when there is none. */
  lemma {:induction false} ReachedStopsAtFirstStop(controls: seq<PendingControl>)
    ensures forall k: nat :: IsFirstStop(controls, k) ==> |Reached(controls)| == k + 1
    ensures (forall k :: 0 <= k < |controls| ==> !controls[k].action.StopSession?) ==> Reached(controls) == controls
  {
    if controls != [] {
      var rest := controls[1..];
      assert controls == [controls[0]] + rest;
      ReachedStopsAtFirstStop(rest);
      forall k: nat | IsFirstStop(controls, k)
        ensures |Reached(controls)| == k + 1
      {
        if k > 0 {
          assert rest[k - 1] == controls[k];
          assert forall i :: 0 <= i < k - 1 ==> rest[i] == controls[i + 1];
          assert !controls[0].action.StopSession?;
          assert IsFirstStop(rest, k - 1);
        }
      }
    }
  }

  /** The runtime's answers, in the order the actions are performed; an absent answer is a success. */
  function Answer(answers: seq<bool>, k: nat): bool {
    k >= |answers| || answers[k]
  }

  function Handle(controls: seq<PendingControl>, answers: seq<bool>): (r: seq<Handling>)
    ensures |r| == |Reached(controls)|
    ensures forall k :: 0 <= k < |r| ==> r[k] == Handling(controls[k], Answer(answers, k))
  {
    seq(|Reached(controls)|, k requires 0 <= k < |Reached(controls)| => Handling(controls[k], Answer(answers, k)))
  }

  function Errors(handled: seq<Handling>): nat {
    if handled == [] then 0
    else Errors(handled[..|handled| - 1]) + if handled[|handled| - 1].accepted then 0 else 1
  }

  /** The errors are the refusals, each counted once. */
  lemma {:induction false} ErrorsAreRefusals(handled: seq<Handling>)
    ensures Errors(handled) == |set k | 0 <= k < |handled| && !handled[k].accepted|
  {
    var now := set k | 0 <= k < |handled| && !handled[k].accepted;
    if handled != [] {
      var n := |handled| - 1;
      var before := set k | 0 <= k < n && !handled[..n][k].accepted;
      ErrorsAreRefusals(handled[..n]);
      assert now == if handled[n].accepted then before else before + {n};
    }
  }

  lemma FirstStopIsUnique(controls: seq<PendingControl>, k: nat)
    requires IsFirstStop(controls, k)
    ensures forall m: nat :: IsFirstStop(controls, m) ==> m == k
  {
  }

  lemma HandledAre(controls: seq<PendingControl>, answers: seq<bool>, handled: seq<Handling>)
    requires |handled| == |Reached(controls)|
    requires forall i :: 0 <= i < |handled| ==> handled[i] == Handling(controls[i], Answer(answers, i))
    ensures handled == Handle(controls, answers)
  {
  }

  /** The first k controls have been handled, in order. */
  ghost predicate HandledUpTo(controls: seq<PendingControl>, answers: seq<bool>, handled: seq<Handling>, k: nat) {
    && |handled| == k <= |controls|
    && forall i :: 0 <= i < k ==> handled[i] == Handling(controls[i], Answer(answers, i))
  }

  lemma StopIsLast(controls: seq<PendingControl>, answers: seq<bool>, handled: seq<Handling>, k: nat)
    requires IsFirstStop(controls, k) && HandledUpTo(controls, answers, handled, k + 1)
    ensures handled == Handle(controls, answers)
    ensures forall m: nat :: IsFirstStop(controls, m) ==> m == k
  {
    ReachedStopsAtFirstStop(controls);
    FirstStopIsUnique(controls, k);
    HandledAre(controls, answers, handled);
  }

  lemma AllAreHandled(controls: seq<PendingControl>, answers: seq<bool>, handled: seq<Handling>)
    requires HandledUpTo(controls, answers, handled, |controls|)
    requires forall i :: 0 <= i < |controls| ==> !controls[i].action.StopSession?
    ensures handled == Handle(controls, answers)
    ensures forall m: nat :: !IsFirstStop(controls, m)
  {
    ReachedStopsAtFirstStop(controls);
    HandledAre(controls, answers, handled);
  }

  /** The loop acts on the controls in order, stops at the first stop request whatever the runtime
      answers, reports a cancellation only when that stop was accepted, and collects every error. */
  method HandlePendingSessionControls(controls: seq<PendingControl>, answers: seq<bool>)
    returns (handled: seq<Handling>, result: PollResult)
    ensures handled == Handle(controls, answers)
    ensures result.cancelled <==> exists k: nat :: IsFirstStop(controls, k) && Answer(answers, k)
    ensures result.failed <==> exists k: nat :: IsFirstStop(controls, k) && !Answer(answers, k)
    ensures result.errors == Errors(handled)
  {
    handled := [];
    var errors := 0;
    for k := 0 to |controls|
      invariant HandledUpTo(controls, answers, handled, k)
      invariant forall i :: 0 <= i < k ==> !controls[i].action.StopSession?
      invariant errors == Errors(handled)
    {
      var control := controls[k];
      var accepted := Answer(answers, k);
      var before := handled;
      handled := handled + [Handling(control, accepted)];
      assert handled[..k] == before;
      match control.action {
        case StopSession =>
          assert IsFirstStop(controls, k);
          StopIsLast(controls, answers, handled, k);
          if !accepted {
            return handled, PollResult(false, errors + 1, true);
          }
          return handled, PollResult(true, errors, false);
        case InterruptSession =>
          if !accepted {
            errors := errors + 1;
          }
      }
    }
    AllAreHandled(controls, answers, handled);
    result := PollResult(false, errors, false);
  }
}
