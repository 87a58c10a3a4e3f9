/** What a delegated docket tells its jurors, and in what order they and the judges are chosen. */
module DelegationChoices {
  import opened Text
  import opened TextProperties
  import opened Lists
  import opened Places
  import opened CourtTypes
  import Court
  import CourtWaves
  import Plans
  import opened Delegation

  // What a juror is told

  /** Every assignment is for its juror, under the juror's title, and covers the whole plan. */
  lemma AssignmentIsForItsJuror(a: Plans.Assignment, role: Role, plan: Plans.Plan, d: Decision)
    requires IsAssignmentOf(a, role, plan, d)
    ensures a.id == role.id && a.title == role.title && a.targetIDs == [role.id]
    ensures |a.planElementIDs| == |plan.elements| && forall i :: 0 <= i < |plan.elements| ==> a.planElementIDs[i] == plan.elements[i].id
  {
  }

  /** The reason of a decision, or a standing one. */
  function Reason(d: Decision): string {
    if TrimSpace(d.rationale) != "" then TrimSpace(d.rationale) else "selected by clerk delegation"
  }

  /** Without a route for the juror it gives the operator's prompt, the usual deliverable, and the reason of the
      decision. */
  lemma AssignmentWithoutRoute(a: Plans.Assignment, role: Role, plan: Plans.Plan, d: Decision)
    requires IsAssignmentOf(a, role, plan, d)
    requires forall i :: 0 <= i < |d.routes| ==> !Targets(d.routes[i], role.id)
    ensures a.instructions == plan.operatorPrompt
    ensures a.expected == Plans.DELIVERABLE
    ensures a.rationale == Reason(d)
  {
    ReasonIsGiven(d);
  }

  /** With one, the first route that targets the juror decides: what it says of the instructions, the deliverable and the
      reason is taken from it, each on its own, and what it leaves blank as without a route. */
  lemma AssignmentFromRoute(a: Plans.Assignment, role: Role, plan: Plans.Plan, d: Decision, i: nat)
    requires IsAssignmentOf(a, role, plan, d)
    requires i < |d.routes| && Targets(d.routes[i], role.id) && forall j :: 0 <= j < i ==> !Targets(d.routes[j], role.id)
    ensures var route := d.routes[i];
            && a.instructions == (if TrimSpace(route.instructions) != "" then TrimSpace(route.instructions) else TrimSpace(plan.operatorPrompt))
            && (TrimSpace(route.expected) != "" ==> a.expected == TrimSpace(route.expected))
            && (TrimSpace(route.expected) == "" ==> a.expected == Plans.DELIVERABLE)
            && (TrimSpace(route.rationale) != "" ==> a.rationale == TrimSpace(route.rationale))
            && (TrimSpace(route.rationale) == "" ==> a.rationale == Reason(d))
  {
    var route := d.routes[i];
    RoutedFields(a, role, plan, d, route);
    FirstOfTwo(route.instructions, plan.operatorPrompt);
    DeliverableIsTrimmed();
    Otherwise(route.expected, Plans.DELIVERABLE);
    ReasonIsGiven(d);
    Otherwise(route.rationale, Reason(d));
  }

  lemma Otherwise(value: string, fallback: string)
    requires TrimSpace(fallback) == fallback
    ensures FirstNonEmpty([value, fallback]) == if TrimSpace(value) != "" then TrimSpace(value) else fallback
  {
    FirstOfTwo(value, fallback);
  }

  lemma RoutedFields(a: Plans.Assignment, role: Role, plan: Plans.Plan, d: Decision, route: Route)
    requires IsAssignmentOf(a, role, plan, d) && IsFirstRoute(d.routes, role.id, Some(route))
    ensures a.instructions == FirstNonEmpty([route.instructions, plan.operatorPrompt])
    ensures a.expected == FirstNonEmpty([route.expected, Plans.DELIVERABLE])
    ensures a.rationale == FirstNonEmpty([route.rationale, Reason(d)])
  {
    ReasonIsGiven(d);
    var found :| IsFirstRoute(d.routes, role.id, found) && a == AssignmentFor(role, found, plan, d);
    assert found == Some(route);
  }

  lemma ReasonIsGiven(d: Decision)
    ensures FirstNonEmpty([d.rationale, "selected by clerk delegation"]) == Reason(d)
    ensures TrimSpace(Reason(d)) == Reason(d)
  {
    TightTrim("selected by clerk delegation");
    Otherwise(d.rationale, "selected by clerk delegation");
    TrimSpaceIdempotent(d.rationale);
  }

  lemma DeliverableIsTrimmed()
    ensures TrimSpace(Plans.DELIVERABLE) == Plans.DELIVERABLE
  {
    var head, tail := "Structured findings, ", "risks, next actions, and a direct recommendation.";
    assert Plans.DELIVERABLE == head + tail;
    assert head[0] == 'S' && tail[|tail| - 1] == '.';
    TightTrim(Plans.DELIVERABLE);
  }

  lemma TightTrim(s: string)
    requires s != "" && !IsSpace(s[0]) && !IsSpace(s[|s| - 1])
    ensures TrimSpace(s) == s
  {
  }

  // The order of the jurors

  lemma FirstInPart<T>(a: seq<T>, b: seq<T>, x: T)
    requires x in a + b
    ensures x in a <==> FirstIndex(a + b, x) < |a|
  {
    var first := FirstIndex(a + b, x);
    assert first < |a| ==> a[first] == x && a[first] in a;
    if x in a {
      var k :| 0 <= k < |a| && a[k] == x;
      assert (a + b)[k] == x;
    }
  }

  /** Removing repetitions keeps what first occurs in one part of a list before what occurs only in a later part. */
  lemma EarlierPartFirst<T(!new)>(a: seq<T>, b: seq<T>, i: nat, j: nat)
    requires i < |Dedup(a + b)| && j < |Dedup(a + b)|
    requires Dedup(a + b)[i] in a && Dedup(a + b)[j] !in a
    ensures i < j
  {
    var x, y := Dedup(a + b)[i], Dedup(a + b)[j];
    DedupMembers(a + b);
    assert x in Dedup(a + b) && y in Dedup(a + b);
    FirstInPart(a, b, x);
    FirstInPart(a, b, y);
    if j < i {
      DedupKeepsFirstOrder(a + b, j, i);
    }
  }

  lemma PutForwardInParts(catalog: Catalog, d: Decision)
    ensures Trimmed(PutForward(catalog, d))
         == Trimmed(JuryMembers(catalog, Clean(d.juryIDs))) + (Trimmed(d.jurorIDs) + Trimmed(RouteTargets(catalog, d.routes)))
  {
    var members, routes := JuryMembers(catalog, Clean(d.juryIDs)), RouteTargets(catalog, d.routes);
    TrimmedConcat(members + d.jurorIDs, routes);
    TrimmedConcat(members, d.jurorIDs);
  }

  /** The jurors of the named juries come before all others. */
  lemma JuriesComeFirst(catalog: Catalog, d: Decision, i: nat, j: nat)
    requires i < |Selected(catalog, d)| && j < |Selected(catalog, d)|
    requires Selected(catalog, d)[i] in Trimmed(JuryMembers(catalog, Clean(d.juryIDs)))
    requires Selected(catalog, d)[j] !in Trimmed(JuryMembers(catalog, Clean(d.juryIDs)))
    ensures i < j
  {
    PutForwardInParts(catalog, d);
    EarlierPartFirst(Trimmed(JuryMembers(catalog, Clean(d.juryIDs))), Trimmed(d.jurorIDs) + Trimmed(RouteTargets(catalog, d.routes)), i, j);
  }

  /** Those that are only targeted by a route come last. */
  lemma RoutesComeLast(catalog: Catalog, d: Decision, i: nat, j: nat)
    requires i < |Selected(catalog, d)| && j < |Selected(catalog, d)|
    requires Selected(catalog, d)[i] in Trimmed(JuryMembers(catalog, Clean(d.juryIDs))) + Trimmed(d.jurorIDs)
    requires Selected(catalog, d)[j] !in Trimmed(JuryMembers(catalog, Clean(d.juryIDs))) + Trimmed(d.jurorIDs)
    ensures i < j
  {
    PutForwardInParts(catalog, d);
    EarlierPartsFirst(Trimmed(PutForward(catalog, d)), Trimmed(JuryMembers(catalog, Clean(d.juryIDs))), Trimmed(d.jurorIDs),
                      Trimmed(RouteTargets(catalog, d.routes)), i, j);
  }

  lemma EarlierPartsFirst<T(!new)>(all: seq<T>, a: seq<T>, b: seq<T>, c: seq<T>, i: nat, j: nat)
    requires all == a + (b + c) && i < |Dedup(all)| && j < |Dedup(all)|
    requires Dedup(all)[i] in a + b && Dedup(all)[j] !in a + b
    ensures i < j
  {
    assert all == (a + b) + c;
    EarlierPartFirst(a + b, c, i, j);
  }

  predicate NotBlank(s: string) {
    TrimSpace(s) != ""
  }

  ghost predicate TrimsAt(results: seq<string>, values: seq<string>, places: seq<nat>) {
    |results| == |places| && forall k :: 0 <= k < |places| ==> IsTrimOf(results[k], values, places[k])
  }

  predicate IsTrimOf(result: string, values: seq<string>, place: nat) {
    place < |values| && result == TrimSpace(values[place])
  }

  lemma OneMoreTrim(results: seq<string>, values: seq<string>, places: seq<nat>, n: nat)
    requires n < |values| && TrimsAt(results, values[..n], places)
    ensures TrimsAt(results, values, places)
    ensures TrimsAt(results + [TrimSpace(values[n])], values, places + [n])
  {
    forall k | 0 <= k < |places|
      ensures IsTrimOf(results[k], values, places[k])
    {
      assert IsTrimOf(results[k], values[..n], places[k]);
    }
  }

  /** Trimming a list takes the values that are not blank, each trimmed, in order. */
  lemma {:induction false} TrimmedTakes(values: seq<string>, places: seq<nat>)
    requires Picks(values, NotBlank, places)
    ensures TrimsAt(Trimmed(values), values, places)
  {
    if values == [] {
      PicksNothing(NotBlank, places);
    } else {
      var n := |values| - 1;
      PicksInit(values, NotBlank, places);
      var init := if NotBlank(values[n]) then places[..|places| - 1] else places;
      TrimmedTakes(values[..n], init);
      OneMoreTrim(Trimmed(values[..n]), values, init, n);
      assert NotBlank(values[n]) ==> places == init + [n];
    }
  }

  /** A route targets the id it gives alone and those of its list, trimmed. */
  lemma TargetsAre(route: Route, x: string)
    ensures Targets(route, x) <==> x != "" && (TrimSpace(route.targetID) == x || exists v :: v in route.targetIDs && TrimSpace(v) == x)
  {
    var all := [route.targetID] + route.targetIDs;
    CleanMembers(all);
    TrimmedMembers(all, x);
    if exists v :: v in all && TrimSpace(v) == x {
      var v :| v in all && TrimSpace(v) == x;
      assert v == route.targetID || v in route.targetIDs;
    }
    assert route.targetID in all && forall v :: v in route.targetIDs ==> v in all;
  }

  // The judges

  lemma {:induction false} JuryJudgesAre(catalog: Catalog, juryIDs: seq<string>, x: string)
    ensures x in JuryJudges(catalog, juryIDs) <==> exists id :: id in juryIDs && id in catalog.juries && catalog.juries[id].judgeID == x
  {
    if juryIDs != [] {
      var init, last := juryIDs[..|juryIDs| - 1], juryIDs[|juryIDs| - 1];
      assert juryIDs == init + [last];
      JuryJudgesAre(catalog, init, x);
    }
  }

  lemma {:induction false} TrimmedMembers(values: seq<string>, x: string)
    ensures x in Trimmed(values) <==> x != "" && exists v :: v in values && TrimSpace(v) == x
  {
    if values != [] {
      var init, last := values[..|values| - 1], values[|values| - 1];
      assert values == init + [last];
      TrimmedMembers(init, x);
    }
  }

  /** The decision names this judge. */
  predicate NamesJudge(d: Decision, x: string) {
    x != "" && exists v :: v in d.judgeIDs && TrimSpace(v) == x
  }

  /** One of the decision's juries has this judge. */
  ghost predicate JuryHasJudge(catalog: Catalog, d: Decision, x: string) {
    x != "" && exists id :: id in Clean(d.juryIDs) && id in catalog.juries && TrimSpace(catalog.juries[id].judgeID) == x
  }

  lemma NamedMembers(d: Decision)
    ensures forall x :: x in Clean(d.judgeIDs) <==> NamesJudge(d, x)
    ensures Clean(d.judgeIDs) == [] <==> forall x :: !NamesJudge(d, x)
  {
    CleanMembers(d.judgeIDs);
    forall x
      ensures x in Clean(d.judgeIDs) <==> NamesJudge(d, x)
    {
      TrimmedMembers(d.judgeIDs, x);
    }
    assert Clean(d.judgeIDs) != [] ==> Clean(d.judgeIDs)[0] in Clean(d.judgeIDs);
  }

  lemma JuryMembersJudge(catalog: Catalog, d: Decision, x: string)
    ensures x in Clean(JuryJudges(catalog, Clean(d.juryIDs))) <==> JuryHasJudge(catalog, d, x)
  {
    var judges := JuryJudges(catalog, Clean(d.juryIDs));
    CleanMembers(judges);
    TrimmedMembers(judges, x);
    if x in Trimmed(judges) {
      var v :| v in judges && TrimSpace(v) == x;
      JuryJudgesAre(catalog, Clean(d.juryIDs), v);
    }
    if JuryHasJudge(catalog, d, x) {
      var id :| id in Clean(d.juryIDs) && id in catalog.juries && TrimSpace(catalog.juries[id].judgeID) == x;
      JuryJudgesAre(catalog, Clean(d.juryIDs), catalog.juries[id].judgeID);
      assert catalog.juries[id].judgeID in judges;
    }
  }

  /** The judges, when the decision names any, are those it names. */
  lemma NamedJudges(catalog: Catalog, preset: seq<Role>, d: Decision, some: string)
    requires NamesJudge(d, some)
    ensures forall x :: x in SelectedJudges(catalog, preset, d) <==> NamesJudge(d, x)
  {
    NamedMembers(d);
  }

  /** When its list of judges is empty, they are the judges of its juries, if these have any. */
  lemma JudgesOfJuries(catalog: Catalog, preset: seq<Role>, d: Decision, some: string)
    requires d.judgeIDs == [] && JuryHasJudge(catalog, d, some)
    ensures forall x :: x in SelectedJudges(catalog, preset, d) <==> JuryHasJudge(catalog, d, x)
  {
    forall x
      ensures x in Clean(JuryJudges(catalog, Clean(d.juryIDs))) <==> JuryHasJudge(catalog, d, x)
    {
      JuryMembersJudge(catalog, d, x);
    }
  }

  /** Otherwise it is the preset's first judge, if there is one: also when the decision's list is of blanks only, whatever
      judges its juries have. */
  lemma JudgeOfPreset(catalog: Catalog, preset: seq<Role>, d: Decision, i: nat)
    requires forall x :: !NamesJudge(d, x)
    requires d.judgeIDs == [] ==> forall x :: !JuryHasJudge(catalog, d, x)
    requires CourtWaves.FirstJudgeAt(preset, i)
    ensures SelectedJudges(catalog, preset, d)
         == if i < |preset| && TrimSpace(preset[i].id) != "" then [TrimSpace(preset[i].id)] else []
  {
    NamedMembers(d);
    var judges := Clean(JuryJudges(catalog, Clean(d.juryIDs)));
    if d.judgeIDs == [] {
      if judges != [] {
        assert judges[0] in judges;
        JuryMembersJudge(catalog, d, judges[0]);
      }
    }
    CourtWaves.PresetJudgeIsFirst(preset, i);
    if i < |preset| {
      CleanOne(preset[i].id);
    }
  }

  lemma CleanOne(id: string)
    ensures Clean([id]) == if TrimSpace(id) != "" then [TrimSpace(id)] else []
  {
    TrimmedSnoc([], id);
    assert [] + [id] == [id];
    DedupSnoc([], TrimSpace(id));
    assert [] + [TrimSpace(id)] == [TrimSpace(id)];
  }
}
