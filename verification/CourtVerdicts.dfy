/** Whose results a verdict is made of. */
module CourtVerdicts {
  import opened Text
  import opened Lists
  import opened Places
  import opened CourtTypes
  import opened Court

  /** The titled results of the workers at these places. */
  function Titled(ws: seq<Worker>, places: seq<nat>): string
    requires forall k :: 0 <= k < |places| ==> places[k] < |ws|
  {
    if places == [] then ""
    else
      var n := |places| - 1;
      Titled(ws, places[..n]) + "## " + ws[places[n]].title + "\n\n" + ws[places[n]].result + "\n\n"
  }

  /** These are the places of the judges that have a result. */
  ghost predicate JudgesWithResult(ws: seq<Worker>, places: seq<nat>) {
    && Ascending(places)
    && (forall k :: 0 <= k < |places| ==> places[k] < |ws| && ws[places[k]].kind.Judge? && ws[places[k]].result != "")
    && (forall i :: 0 <= i < |ws| && ws[i].kind.Judge? && ws[i].result != "" ==> i in places)
  }

  ghost predicate WorkersWithResult(ws: seq<Worker>, places: seq<nat>) {
    && Ascending(places)
    && (forall k :: 0 <= k < |places| ==> places[k] < |ws| && ws[places[k]].result != "")
    && (forall i :: 0 <= i < |ws| && ws[i].result != "" ==> i in places)
  }

  lemma {:induction false} SectionsAreTitled(ws: seq<Worker>, places: seq<nat>)
    requires forall k :: 0 <= k < |places| ==> places[k] < |ws|
    ensures Sections(At(ws, places)) == Titled(ws, places)
  {
    if places != [] {
      var n := |places| - 1;
      SectionsAreTitled(ws, places[..n]);
      assert At(ws, places)[..n] == At(ws, places[..n]);
    }
  }

  /** A verdict is made of the results of the judges that have one, and of nothing else: the one result as it is, or
      all of them under their titles, in order. */
  lemma VerdictIsTheJudges(ws: seq<Worker>, places: seq<nat>)
    requires JudgesWithResult(ws, places)
    ensures |places| == 1 ==> FinalVerdict(ws) == ws[places[0]].result
    ensures |places| > 1 ==> FinalVerdict(ws) == TrimSpace("# Court Verdict\n\n" + Titled(ws, places))
  {
    FilterTakesPlaces(ws, (w: Worker) => w.kind.Judge? && w.result != "", places);
    SectionsAreTitled(ws, places);
  }

  /** Without any, it is made of every result that was reported, in order. */
  lemma VerdictWithoutJudges(ws: seq<Worker>, places: seq<nat>)
    requires JudgesWithResult(ws, []) && WorkersWithResult(ws, places)
    ensures FinalVerdict(ws) == "# Court Verdict\n\n" + Titled(ws, places)
  {
    FilterTakesPlaces(ws, (w: Worker) => w.kind.Judge? && w.result != "", []);
    FilterTakesPlaces(ws, (w: Worker) => w.result != "", places);
    SectionsAreTitled(ws, places);
  }

  /** The only judge with a result decides alone. */
  lemma OnlyJudgeSpeaks(ws: seq<Worker>, i: nat)
    requires i < |ws| && ws[i].kind.Judge? && ws[i].result != ""
    requires forall j :: 0 <= j < |ws| && ws[j].kind.Judge? && ws[j].result != "" ==> j == i
    ensures FinalVerdict(ws) == ws[i].result
  {
    VerdictIsTheJudges(ws, [i]);
  }

  lemma {:induction false} TitledAlike(ws: seq<Worker>, ws': seq<Worker>, places: seq<nat>)
    requires forall k :: 0 <= k < |places| ==> places[k] < |ws| && places[k] < |ws'| && ws'[places[k]] == ws[places[k]]
    ensures Titled(ws', places) == Titled(ws, places)
  {
    if places != [] {
      TitledAlike(ws, ws', places[..|places| - 1]);
    }
  }

  /** Once a judge has a result, the others have no say: whatever the clerks and jurors, and the judges without a
      result, are replaced by, the verdict is the same. */
  lemma OthersHaveNoSay(ws: seq<Worker>, ws': seq<Worker>, judge: nat)
    requires |ws| == |ws'| && judge < |ws| && ws[judge].kind.Judge? && ws[judge].result != ""
    requires forall i :: 0 <= i < |ws| && ws[i].kind.Judge? && ws[i].result != "" ==> ws'[i] == ws[i]
    requires forall i :: 0 <= i < |ws| && ws'[i].kind.Judge? && ws'[i].result != "" ==> ws'[i] == ws[i]
    ensures FinalVerdict(ws') == FinalVerdict(ws)
  {
    var places := PlacesOf(ws, (w: Worker) => w.kind.Judge? && w.result != "");
    assert JudgesWithResult(ws, places) && JudgesWithResult(ws', places) && judge in places;
    VerdictIsTheJudges(ws, places);
    VerdictIsTheJudges(ws', places);
    TitledAlike(ws, ws', places);
  }

  lemma WaveServesTheVerdict(s: CourtState, preset: seq<Role>, env: Surroundings)
    requires !s.run.status.RunCompleted? && NextWave(s, s.workers, preset, env).run.status.RunCompleted?
    ensures NextWave(s, s.workers, preset, env).run.verdict == FinalVerdict(s.workers)
  {
    if !HasActive(s.workers) {
      if ClerkReadyForJurors(s.workers, preset) && !HasKind(s.workers, Juror) {
        var chosen := PromoteDocket(s.delegating, preset, env.delegation);
        SpawnedRunIsOpen(s.(judgeIDs := chosen.judgeIDs, run := s.run.(phase := JurorsPhase)), chosen.jurors, env.failing);
      } else {
        var judges := JudgeRoles(s.delegating, s.judgeIDs, preset, env.catalog);
        if judges.Some? {
          SpawnedRunIsOpen(s.(run := s.run.(phase := VerdictPhase)), Missing(judges.value, s.workers), env.failing);
        }
      }
    }
  }

  lemma {:induction false} SpawnedRunIsOpen(s: CourtState, roles: seq<Role>, failing: set<string>)
    requires !s.run.status.RunCompleted?
    ensures !Spawn(s, roles, failing).run.status.RunCompleted?
    decreases |roles|
  {
    if roles != [] {
      if Find(s.workers, roles[0].id).Some? {
        SpawnedRunIsOpen(s, roles[1..], failing);
      } else {
        SpawnedRunIsOpen(s.(workers := s.workers + [NewWorker(roles[0])]), roles[1..], failing);
      }
    }
  }

  lemma CompletionServesTheVerdict(s: CourtState, env: Surroundings)
    requires !s.run.status.RunCompleted? && ReconcileRun(s, env).run.status.RunCompleted?
    ensures ReconcileRun(s, env).run.verdict == FinalVerdict(s.workers)
  {
    if !s.run.status.Terminal() && s.workers != [] && !HasFailed(s.workers) && !HasCancelled(s.workers) && env.preset.Some?
       && !JudgeCompleted(s.workers) {
      WaveServesTheVerdict(s, env.preset.value, env);
    }
  }

  /** What a reconcile that completes a run serves: the result of the only judge that has one; the results of the
      judges that have one, when there are several; and every result, when no judge has one. */
  lemma ServedVerdict(s: CourtState, env: Surroundings, judges: seq<nat>, all: seq<nat>)
    requires !s.run.status.RunCompleted? && ReconcileRun(s, env).run.status.RunCompleted?
    requires JudgesWithResult(s.workers, judges) && WorkersWithResult(s.workers, all)
    ensures var verdict := ReconcileRun(s, env).run.verdict;
            && (|judges| == 1 ==> verdict == s.workers[judges[0]].result)
            && (|judges| > 1 ==> verdict == TrimSpace("# Court Verdict\n\n" + Titled(s.workers, judges)))
            && (|judges| == 0 ==> verdict == "# Court Verdict\n\n" + Titled(s.workers, all))
  {
    CompletionServesTheVerdict(s, env);
    VerdictIsTheJudges(s.workers, judges);
    if judges == [] {
      VerdictWithoutJudges(s.workers, all);
    }
  }
}
