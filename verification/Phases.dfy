/** EvaluatePhase and the participant states it is fed with. */
module Phases {
  import opened CourtTypes

  datatype Participant = Participant(
    role: RoleKind, present: bool, required: bool, promptReady: bool, attentionRequested: bool,
    blockedOnUser: bool, commandRunning: bool, unhealthy: bool)

  datatype PhaseInput = PhaseInput(
    requireClerk: bool, inlineReviewEnabled: bool, verdictEnabled: bool, verdictDisabled: bool,
    docketReady: bool, inlineReviewReady: bool, verdictReady: bool,
    correctionTargetCount: int, correctionAppliedCount: int)

  datatype PhaseResult = PhaseResult(
    phase: Phase, blocked: bool, blockedRequiredCount: nat, jurorTotalCount: nat, jurorReadyCount: nat,
    jurorRunningCount: nat, clerkPresent: bool, judgePresent: bool, canInlineReview: bool,
    canFinalizeVerdict: bool)

  predicate ReviewEligible(p: Participant) {
    p.present && !p.unhealthy && !p.blockedOnUser && !p.attentionRequested && p.promptReady
  }

  predicate PresentJuror(p: Participant) { p.present && p.role.Juror? }
  predicate ReadyJuror(p: Participant) { PresentJuror(p) && ReviewEligible(p) }
  predicate RunningJuror(p: Participant) {
    PresentJuror(p) && (p.commandRunning || (!ReviewEligible(p) && !p.blockedOnUser))
  }
  predicate PresentClerk(p: Participant) { p.present && p.role.Clerk? }
  predicate PresentJudge(p: Participant) { p.present && p.role.Judge? }
  predicate BlockedRequired(p: Participant) {
    p.present && p.required && (p.blockedOnUser || p.attentionRequested)
  }

  /** How many participants of ps satisfy p. */
  function Count(ps: seq<Participant>, p: Participant -> bool): nat {
    if ps == [] then 0 else Count(ps[..|ps| - 1], p) + if p(ps[|ps| - 1]) then 1 else 0
  }

  lemma CountSnoc(ps: seq<Participant>, q: Participant, p: Participant -> bool)
    ensures Count(ps + [q], p) == Count(ps, p) + if p(q) then 1 else 0
  {
    assert (ps + [q])[..|ps|] == ps;
  }

  /** Count is the cardinality of the set of positions that satisfy p. */
  lemma {:induction false} CountIsCardinality(ps: seq<Participant>, p: Participant -> bool)
    ensures Count(ps, p) == |set i | 0 <= i < |ps| && p(ps[i])|
  {
    var now := set i | 0 <= i < |ps| && p(ps[i]);
    if ps != [] {
      var init := ps[..|ps| - 1];
      CountIsCardinality(init, p);
      var before := set i | 0 <= i < |init| && p(init[i]);
      CountedPositions(ps, init, p, before, now);
    }
  }

  lemma CountedPositions(ps: seq<Participant>, init: seq<Participant>, p: Participant -> bool, before: set<int>, now: set<int>)
    requires ps != [] && init == ps[..|ps| - 1]
    requires before == set i | 0 <= i < |init| && p(init[i])
    requires now == set i | 0 <= i < |ps| && p(ps[i])
    ensures |now| == |before| + if p(ps[|ps| - 1]) then 1 else 0
  {
    var n := |ps| - 1;
    assert now == if p(ps[n]) then before + {n} else before;
  }

  lemma {:induction false} CountConcat(a: seq<Participant>, b: seq<Participant>, p: Participant -> bool)
    ensures Count(a + b, p) == Count(a, p) + Count(b, p)
  {
    if b == [] {
      assert a + b == a;
    } else {
      var init, last := b[..|b| - 1], b[|b| - 1];
      assert a + b == (a + init) + [last] && b == init + [last];
      CountConcat(a, init, p);
      CountSnoc(a + init, last, p);
      CountSnoc(init, last, p);
    }
  }

  /** Taking one occurrence of x out of b leaves the rest of a list that starts with x. */
  lemma RemoveOccurrence(x: Participant, rest: seq<Participant>, b: seq<Participant>) returns (pre: seq<Participant>, post: seq<Participant>)
    requires multiset([x] + rest) == multiset(b)
    ensures b == pre + [x] + post
    ensures multiset(rest) == multiset(pre + post)
  {
    assert x in multiset([x] + rest);
    assert x in b;
    var k :| 0 <= k < |b| && b[k] == x;
    pre, post := b[..k], b[k + 1..];
    assert b == pre + [x] + post;
    assert multiset([x] + rest) - multiset{x} == multiset(rest);
    assert multiset(b) - multiset{x} == multiset(pre + post);
  }

  /** Counting does not depend on the order of the participants. */
  lemma {:induction false} CountPermutation(a: seq<Participant>, b: seq<Participant>, p: Participant -> bool)
    requires multiset(a) == multiset(b)
    ensures Count(a, p) == Count(b, p)
    decreases |a|
  {
    if a == [] {
      assert |multiset(a)| == |multiset(b)|;
      assert b == [];
    } else {
      var x, rest := a[0], a[1..];
      assert a == [x] + rest;
      var pre, post := RemoveOccurrence(x, rest, b);
      CountPermutation(rest, pre + post, p);
      CountConcat([x], rest, p);
      CountConcat(pre + [x], post, p);
      CountConcat(pre, [x], p);
      CountConcat(pre, post, p);
    }
  }

  /** The input with the verdict switched on when neither flag was given. */
  function Defaulted(input: PhaseInput): PhaseInput {
    if !input.verdictEnabled && !input.verdictDisabled then input.(verdictEnabled := true) else input
  }

  /** The phase cascade, from the counts. */
  function Decide(input: PhaseInput, total: nat, running: nat, blocked: bool, inline: bool, finalize: bool): Phase {
    if blocked then BlockedPhase
    else if input.verdictReady then CompletePhase
    else if input.requireClerk && !input.docketReady then ClerkPhase
    else if input.inlineReviewEnabled && input.inlineReviewReady
            && input.correctionAppliedCount < input.correctionTargetCount then CorrectionsPhase
    else if running > 0 then
      if input.inlineReviewEnabled && input.inlineReviewReady then CorrectionsPhase else JurorsPhase
    else if input.inlineReviewEnabled && !input.inlineReviewReady && inline then InlineJudgePhase
    else if input.verdictEnabled && !input.verdictReady && finalize then VerdictPhase
    else if (!input.verdictEnabled && inline) || (input.verdictEnabled && finalize && input.verdictReady) then CompletePhase
    else if total > 0 then JurorsPhase
    else IdlePhase
  }

  /** What EvaluatePhase returns, in terms of counts of participants. */
  function Evaluate(input: PhaseInput, ps: seq<Participant>): PhaseResult {
    var i := Defaulted(input);
    var total, ready, running := Count(ps, PresentJuror), Count(ps, ReadyJuror), Count(ps, RunningJuror);
    var blockers := Count(ps, BlockedRequired);
    var inline := total > 0 && ready == total && blockers == 0;
    var finalize := i.verdictEnabled && inline && (!i.inlineReviewEnabled || i.inlineReviewReady)
                    && i.correctionAppliedCount >= i.correctionTargetCount;
    PhaseResult(
      Decide(i, total, running, blockers > 0, inline, finalize), blockers > 0, blockers, total, ready, running,
      Count(ps, PresentClerk) > 0, Count(ps, PresentJudge) > 0, inline, finalize)
  }

  /** The six counters of the scan, and when they are those of ps. */
  datatype Tally = Tally(total: nat, ready: nat, running: nat, blockers: nat, clerk: bool, judge: bool)

  ghost predicate Tallied(t: Tally, ps: seq<Participant>) {
    && t.total == Count(ps, PresentJuror) && t.ready == Count(ps, ReadyJuror)
    && t.running == Count(ps, RunningJuror) && t.blockers == Count(ps, BlockedRequired)
    && t.clerk == (Count(ps, PresentClerk) > 0) && t.judge == (Count(ps, PresentJudge) > 0)
  }

  /** One turn of the scan. */
  method CountParticipant(t: Tally, p: Participant, ghost seen: seq<Participant>) returns (r: Tally)
    requires Tallied(t, seen)
    ensures Tallied(r, seen + [p])
  {
    CountSnoc(seen, p, PresentJuror);
    CountSnoc(seen, p, ReadyJuror);
    CountSnoc(seen, p, RunningJuror);
    CountSnoc(seen, p, BlockedRequired);
    CountSnoc(seen, p, PresentClerk);
    CountSnoc(seen, p, PresentJudge);
    if !p.present {
      return t;
    }
    var total, ready, running, blockers, clerk, judge := t.total, t.ready, t.running, t.blockers, t.clerk, t.judge;
    var eligible := ReviewEligible(p);
    var isRunning := p.commandRunning || (p.present && !eligible && !p.blockedOnUser);
    if p.role == Juror {
      total := total + 1;
      if eligible {
        ready := ready + 1;
      }
      if isRunning {
        running := running + 1;
      }
    } else if p.role == Clerk {
      clerk := true;
    } else if p.role == Judge {
      judge := true;
    }
    if p.required && (p.blockedOnUser || p.attentionRequested) {
      blockers := blockers + 1;
    }
    r := Tally(total, ready, running, blockers, clerk, judge);
  }

  method EvaluatePhase(input0: PhaseInput, participants: seq<Participant>) returns (result: PhaseResult)
    ensures result == Evaluate(input0, participants)
  {
    var input := input0;
    if !input.verdictEnabled && !input.verdictDisabled {
      input := input.(verdictEnabled := true);
    }
    var t := Tally(0, 0, 0, 0, false, false);
    for k := 0 to |participants|
      invariant Tallied(t, participants[..k])
    {
      t := CountParticipant(t, participants[k], participants[..k]);
      assert participants[..k + 1] == participants[..k] + [participants[k]];
    }
    assert participants[..|participants|] == participants;
    var blocked := t.blockers > 0;
    var inline := t.total > 0 && t.ready == t.total && !blocked;
    var finalize := input.verdictEnabled && inline
                    && (!input.inlineReviewEnabled || input.inlineReviewReady)
                    && input.correctionAppliedCount >= input.correctionTargetCount;
    var phase := Decide(input, t.total, t.running, blocked, inline, finalize);
    result := PhaseResult(phase, blocked, t.blockers, t.total, t.ready, t.running, t.clerk, t.judge, inline, finalize);
  }

  /** The result does not depend on the order in which participants are listed. */
  lemma EvaluateOrderIndependent(input: PhaseInput, a: seq<Participant>, b: seq<Participant>)
    requires multiset(a) == multiset(b)
    ensures Evaluate(input, a) == Evaluate(input, b)
  {
    CountPermutation(a, b, PresentJuror);
    CountPermutation(a, b, ReadyJuror);
    CountPermutation(a, b, RunningJuror);
    CountPermutation(a, b, BlockedRequired);
    CountPermutation(a, b, PresentClerk);
    CountPermutation(a, b, PresentJudge);
  }

  // What a result says, from the participants

  predicate IsReady(p: Participant) {
    p.promptReady && !p.unhealthy && !p.blockedOnUser && !p.attentionRequested
  }

  ghost predicate SomeJuror(ps: seq<Participant>) {
    exists i :: 0 <= i < |ps| && ps[i].present && ps[i].role.Juror?
  }

  ghost predicate JurorsReady(ps: seq<Participant>) {
    forall i :: 0 <= i < |ps| && ps[i].present && ps[i].role.Juror? ==> IsReady(ps[i])
  }

  /** A juror's command is running, or the juror is neither ready nor waiting for the user. */
  ghost predicate SomeJurorRuns(ps: seq<Participant>) {
    exists i :: 0 <= i < |ps| && ps[i].present && ps[i].role.Juror?
                && (ps[i].commandRunning || (!IsReady(ps[i]) && !ps[i].blockedOnUser))
  }

  ghost predicate SomeoneBlocks(ps: seq<Participant>) {
    exists i :: 0 <= i < |ps| && ps[i].present && ps[i].required && (ps[i].blockedOnUser || ps[i].attentionRequested)
  }

  lemma CountIsZeroExactlyWhenNone(ps: seq<Participant>, p: Participant -> bool)
    ensures Count(ps, p) > 0 <==> exists i :: 0 <= i < |ps| && p(ps[i])
  {
    CountIsCardinality(ps, p);
    var s := set i | 0 <= i < |ps| && p(ps[i]);
    if |s| > 0 {
      assert s != {};
      var i :| i in s;
    } else {
      assert s == {};
      assert forall i :: 0 <= i < |ps| && p(ps[i]) ==> i in s;
    }
  }

  lemma {:induction false} CountWithin(ps: seq<Participant>, p: Participant -> bool, q: Participant -> bool)
    requires forall i :: 0 <= i < |ps| && p(ps[i]) ==> q(ps[i])
    ensures Count(ps, p) <= Count(ps, q)
    ensures Count(ps, p) == Count(ps, q) <==> forall i :: 0 <= i < |ps| && q(ps[i]) ==> p(ps[i])
  {
    if ps != [] {
      CountWithin(ps[..|ps| - 1], p, q);
      assert forall i :: 0 <= i < |ps| - 1 ==> ps[..|ps| - 1][i] == ps[i];
    }
  }

  lemma CountIs(ps: seq<Participant>, p: Participant -> bool, positions: set<int>)
    requires positions == set i | 0 <= i < |ps| && p(ps[i])
    ensures Count(ps, p) == |positions|
  {
    CountIsCardinality(ps, p);
  }

  ghost function Jurors(ps: seq<Participant>): set<int> {
    set i | 0 <= i < |ps| && ps[i].present && ps[i].role.Juror?
  }

  ghost function ReadyJurors(ps: seq<Participant>): set<int> {
    set i | i in Jurors(ps) && IsReady(ps[i])
  }

  ghost function RunningJurors(ps: seq<Participant>): set<int> {
    set i | i in Jurors(ps) && (ps[i].commandRunning || (!IsReady(ps[i]) && !ps[i].blockedOnUser))
  }

  ghost function Blockers(ps: seq<Participant>): set<int> {
    set i | 0 <= i < |ps| && ps[i].present && ps[i].required && (ps[i].blockedOnUser || ps[i].attentionRequested)
  }

  /** The counts are the numbers of participants of each sort. */
  lemma CountsSay(input: PhaseInput, ps: seq<Participant>)
    ensures var r := Evaluate(input, ps);
            && r.jurorTotalCount == |Jurors(ps)| && r.jurorReadyCount == |ReadyJurors(ps)|
            && r.jurorRunningCount == |RunningJurors(ps)| && r.blockedRequiredCount == |Blockers(ps)|
  {
    CountIs(ps, PresentJuror, Jurors(ps));
    CountIs(ps, ReadyJuror, ReadyJurors(ps));
    CountIs(ps, RunningJuror, RunningJurors(ps));
    CountIs(ps, BlockedRequired, Blockers(ps));
  }

  lemma JurorFlags(ps: seq<Participant>)
    ensures Count(ps, PresentJuror) > 0 <==> SomeJuror(ps)
    ensures Count(ps, RunningJuror) > 0 <==> SomeJurorRuns(ps)
    ensures Count(ps, BlockedRequired) > 0 <==> SomeoneBlocks(ps)
    ensures Count(ps, ReadyJuror) == Count(ps, PresentJuror) <==> JurorsReady(ps)
  {
    CountIsZeroExactlyWhenNone(ps, PresentJuror);
    CountIsZeroExactlyWhenNone(ps, RunningJuror);
    CountIsZeroExactlyWhenNone(ps, BlockedRequired);
    CountWithin(ps, ReadyJuror, PresentJuror);
  }

  /** And the flags say whether there are any, and whether the jurors have all they need. */
  lemma FlagsSay(input: PhaseInput, ps: seq<Participant>)
    ensures var r := Evaluate(input, ps);
            && (r.clerkPresent <==> exists i :: 0 <= i < |ps| && ps[i].present && ps[i].role.Clerk?)
            && (r.judgePresent <==> exists i :: 0 <= i < |ps| && ps[i].present && ps[i].role.Judge?)
            && (r.blocked <==> SomeoneBlocks(ps))
            && (r.canInlineReview <==> SomeJuror(ps) && JurorsReady(ps) && !SomeoneBlocks(ps))
            && (r.canFinalizeVerdict <==>
                  && (input.verdictEnabled || !input.verdictDisabled) && r.canInlineReview
                  && (input.inlineReviewEnabled ==> input.inlineReviewReady)
                  && input.correctionAppliedCount >= input.correctionTargetCount)
            && (r.jurorTotalCount > 0 <==> SomeJuror(ps)) && (r.jurorRunningCount > 0 <==> SomeJurorRuns(ps))
  {
    CountIsZeroExactlyWhenNone(ps, PresentClerk);
    CountIsZeroExactlyWhenNone(ps, PresentJudge);
    JurorFlags(ps);
  }

  /** Nothing settles the phase before the jurors are looked at: nobody blocks, no verdict is ready, no docket is awaited,
      and no correction is outstanding after a review. */
  ghost predicate UpToJurors(input: PhaseInput, ps: seq<Participant>) {
    && !SomeoneBlocks(ps) && !input.verdictReady && !(input.requireClerk && !input.docketReady)
    && !(input.inlineReviewEnabled && input.inlineReviewReady && input.correctionAppliedCount < input.correctionTargetCount)
  }

  /** All jurors are ready, there is at least one, and none runs. */
  ghost predicate JurorsAreDone(ps: seq<Participant>) {
    SomeJuror(ps) && JurorsReady(ps) && !SomeJurorRuns(ps)
  }

  /** When each phase is reached, for every input and every participants. */
  lemma PhaseExactlyWhen(input: PhaseInput, ps: seq<Participant>)
    ensures var phase := Evaluate(input, ps).phase;
            var verdict := input.verdictEnabled || !input.verdictDisabled;
            var reviewed := input.inlineReviewEnabled && input.inlineReviewReady;
            var unreviewed := input.inlineReviewEnabled && !input.inlineReviewReady;
            var corrected := input.correctionAppliedCount >= input.correctionTargetCount;
            && (phase == BlockedPhase <==> SomeoneBlocks(ps))
            && (phase == ClerkPhase <==>
                  !SomeoneBlocks(ps) && !input.verdictReady && input.requireClerk && !input.docketReady)
            && (phase == CorrectionsPhase <==>
                  && !SomeoneBlocks(ps) && !input.verdictReady && !(input.requireClerk && !input.docketReady)
                  && reviewed && (!corrected || SomeJurorRuns(ps)))
            && (phase == InlineJudgePhase <==> UpToJurors(input, ps) && JurorsAreDone(ps) && unreviewed)
            && (phase == VerdictPhase <==> UpToJurors(input, ps) && JurorsAreDone(ps) && !unreviewed && verdict && corrected)
            && (phase == CompletePhase <==>
                  || (!SomeoneBlocks(ps) && input.verdictReady)
                  || (UpToJurors(input, ps) && JurorsAreDone(ps) && !unreviewed && !verdict))
            && (phase == IdlePhase <==> UpToJurors(input, ps) && !SomeJuror(ps))
            && (phase == JurorsPhase <==>
                  && UpToJurors(input, ps) && SomeJuror(ps)
                  && (if SomeJurorRuns(ps) then !reviewed
                      else !JurorsReady(ps) || (!unreviewed && verdict && !corrected)))
  {
    FlagsSay(input, ps);
  }

  function ParticipantOf(w: Worker): Participant {
    Participant(w.kind, true, true, w.status.Completed?, false, false,
                w.status.Queued? || w.status.Running?, w.status.Failed?)
  }

  function ParticipantStates(workers: seq<Worker>): seq<Participant> {
    seq(|workers|, i requires 0 <= i < |workers| => ParticipantOf(workers[i]))
  }

  ghost function JurorsWith(workers: seq<Worker>, done: bool): set<nat> {
    set i | 0 <= i < |workers| && workers[i].kind.Juror? && workers[i].status.Completed? == done
  }

  lemma WorkerCount(workers: seq<Worker>, p: Participant -> bool, positions: set<nat>)
    requires positions == set i | 0 <= i < |workers| && p(ParticipantOf(workers[i]))
    ensures Count(ParticipantStates(workers), p) == |positions|
  {
    var ps := ParticipantStates(workers);
    CountIsCardinality(ps, p);
    assert (set i | 0 <= i < |ps| && p(ps[i])) == positions;
  }

  /** For participants derived from workers, ready jurors are the completed ones, running jurors all
      the others (queued, running, failed and cancelled alike), and the two add up to the total. */
  lemma WorkerCounts(input: PhaseInput, workers: seq<Worker>)
    ensures var r := Evaluate(input, ParticipantStates(workers));
            && r.jurorReadyCount == |JurorsWith(workers, true)|
            && r.jurorRunningCount == |JurorsWith(workers, false)|
            && r.jurorTotalCount == r.jurorReadyCount + r.jurorRunningCount
            && !r.blocked
  {
    var done, open := JurorsWith(workers, true), JurorsWith(workers, false);
    WorkerCount(workers, ReadyJuror, done);
    WorkerCount(workers, RunningJuror, open);
    WorkerCount(workers, PresentJuror, done + open);
    WorkerCount(workers, BlockedRequired, {});
  }

  /** The input ReconcileRun builds: no inline review, verdict or correction is ever reported. */
  predicate FromRun(input: PhaseInput) {
    && !input.inlineReviewReady && !input.verdictReady
    && input.correctionTargetCount == 0 && input.correctionAppliedCount == 0
    && input.verdictEnabled == !input.verdictDisabled
  }

  /** The phase of a run, read off its juror workers. In particular the verdict and inline-judge
      phases are reached only with at least one juror and every juror completed. */
  lemma WorkerPhase(input: PhaseInput, workers: seq<Worker>)
    requires FromRun(input)
    ensures var phase := Evaluate(input, ParticipantStates(workers)).phase;
            var waiting := input.requireClerk && !input.docketReady;
            var some := exists i :: 0 <= i < |workers| && workers[i].kind.Juror?;
            var all := forall i :: 0 <= i < |workers| && workers[i].kind.Juror? ==> workers[i].status.Completed?;
            && (phase == ClerkPhase <==> waiting)
            && (phase == JurorsPhase <==> !waiting && !all)
            && (phase == IdlePhase <==> !waiting && !some)
            && (phase == InlineJudgePhase <==> !waiting && some && all && input.inlineReviewEnabled)
            && (phase == VerdictPhase <==> !waiting && some && all && !input.inlineReviewEnabled && input.verdictEnabled)
            && (phase == CompletePhase <==> !waiting && some && all && !input.inlineReviewEnabled && !input.verdictEnabled)
  {
    WorkerCounts(input, workers);
    var done, open := JurorsWith(workers, true), JurorsWith(workers, false);
    forall i | 0 <= i < |workers| && workers[i].kind.Juror?
      ensures i in done || i in open
    {
    }
    assert open == {} <==> forall i :: 0 <= i < |workers| && workers[i].kind.Juror? ==> workers[i].status.Completed?;
    assert done + open == {} <==> !exists i :: 0 <= i < |workers| && workers[i].kind.Juror?;
  }
}
