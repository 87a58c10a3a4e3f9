/** Building the docket of a clerk's delegation decision. */
module Delegation {
  import opened Text
  import opened TextProperties
  import opened Lists
  import opened CourtTypes
  import Court
  import Plans

  datatype Jury = Jury(jurorIDs: seq<string>, judgeID: string)

  datatype Route = Route(targetID: string, targetIDs: seq<string>, instructions: string, expected: string, rationale: string)

  datatype Decision = Decision(
    juryIDs: seq<string>, jurorIDs: seq<string>, judgeIDs: seq<string>, routes: seq<Route>, rationale: string)

  /** Roles and juries by id. */
  datatype Catalog = Catalog(roles: map<string, Role>, juries: map<string, Jury>)

  datatype Error =
    | UnknownJury(id: string) | NoJurors | UnknownJuror(id: string) | NotAJuror(id: string, kind: RoleKind)
    | NotAJudge(id: string, kind: RoleKind)

  datatype Docket = Docket(summary: string, juryIDs: seq<string>, judgeIDs: seq<string>, assignments: seq<Plans.Assignment>)

  datatype Result = Built(docket: Docket, jurors: seq<Role>) | Rejected(error: Error)

  /** Each role is filed under its own id. */
  predicate FiledByID(catalog: Catalog) {
    forall id :: id in catalog.roles ==> catalog.roles[id].id == id
  }

  // What a decision selects

  function Clean(values: seq<string>): seq<string> {
    Dedup(Trimmed(values))
  }

  function TargetIDs(route: Route): seq<string> {
    Clean([route.targetID] + route.targetIDs)
  }

  predicate IsJuror(catalog: Catalog, id: string) {
    id in catalog.roles && catalog.roles[id].kind.Juror?
  }

  /** The members of the named juries that are in the catalogue. */
  function JuryMembers(catalog: Catalog, juryIDs: seq<string>): seq<string> {
    if juryIDs == [] then []
    else
      var last := juryIDs[|juryIDs| - 1];
      JuryMembers(catalog, juryIDs[..|juryIDs| - 1]) + if last in catalog.juries then catalog.juries[last].jurorIDs else []
  }

  function JuryJudges(catalog: Catalog, juryIDs: seq<string>): seq<string> {
    if juryIDs == [] then []
    else
      var last := juryIDs[|juryIDs| - 1];
      JuryJudges(catalog, juryIDs[..|juryIDs| - 1]) + if last in catalog.juries then [catalog.juries[last].judgeID] else []
  }

  function JurorTargets(catalog: Catalog, ids: seq<string>): seq<string> {
    if ids == [] then []
    else
      var last := ids[|ids| - 1];
      JurorTargets(catalog, ids[..|ids| - 1]) + if IsJuror(catalog, last) then [last] else []
  }

  function RouteTargets(catalog: Catalog, routes: seq<Route>): seq<string> {
    if routes == [] then []
    else RouteTargets(catalog, routes[..|routes| - 1]) + JurorTargets(catalog, TargetIDs(routes[|routes| - 1]))
  }

  /** The ids a decision puts forward as jurors: members of its juries, then its named jurors, then the targets
      of its routes that are jurors. */
  function PutForward(catalog: Catalog, d: Decision): seq<string> {
    JuryMembers(catalog, Clean(d.juryIDs)) + d.jurorIDs + RouteTargets(catalog, d.routes)
  }

  /** Without repetitions, in order of first occurrence. */
  function Selected(catalog: Catalog, d: Decision): seq<string> {
    Clean(PutForward(catalog, d))
  }

  /** The judges: those named; or, if the decision names none at all, those of its juries; or else the preset's. */
  function SelectedJudges(catalog: Catalog, preset: seq<Role>, d: Decision): seq<string> {
    var judges := if d.judgeIDs == [] then Clean(JuryJudges(catalog, Clean(d.juryIDs))) else Clean(d.judgeIDs);
    if judges != [] then judges else PresetJudgeIDs(preset)
  }

  function PresetJudgeIDs(preset: seq<Role>): seq<string> {
    var judge := Court.PresetJudge(preset);
    if judge == [] then [] else Clean([judge[0].id])
  }

  predicate JudgeAllowed(catalog: Catalog, id: string) {
    id in catalog.roles ==> catalog.roles[id].kind.Judge?
  }

  /** When a decision is accepted. A judge that is not in the catalogue is not objected to. */
  ghost predicate Accepted(catalog: Catalog, preset: seq<Role>, d: Decision) {
    && (forall id :: id in Clean(d.juryIDs) ==> id in catalog.juries)
    && Selected(catalog, d) != []
    && (forall id :: id in Selected(catalog, d) ==> IsJuror(catalog, id))
    && (forall id :: id in SelectedJudges(catalog, preset, d) ==> JudgeAllowed(catalog, id))
  }

  /** What each reason for rejecting a decision means. */
  ghost predicate Justified(catalog: Catalog, preset: seq<Role>, d: Decision, e: Error) {
    match e
    case UnknownJury(id) => id in Clean(d.juryIDs) && id !in catalog.juries
    case NoJurors => Selected(catalog, d) == []
    case UnknownJuror(id) => id in Selected(catalog, d) && id !in catalog.roles
    case NotAJuror(id, kind) => id in Selected(catalog, d) && id in catalog.roles && catalog.roles[id].kind == kind && !kind.Juror?
    case NotAJudge(id, kind) =>
      id in SelectedJudges(catalog, preset, d) && id in catalog.roles && catalog.roles[id].kind == kind && !kind.Judge?
  }

  predicate Targets(route: Route, id: string) {
    id in TargetIDs(route)
  }

  /** The first route that targets the id, in the order of the decision. */
  predicate IsFirstRoute(routes: seq<Route>, id: string, found: Option<Route>) {
    match found
    case None => forall i :: 0 <= i < |routes| ==> !Targets(routes[i], id)
    case Some(route) =>
      exists i :: 0 <= i < |routes| && routes[i] == route && Targets(routes[i], id) && forall j :: 0 <= j < i ==> !Targets(routes[j], id)
  }

  /** The assignment of one juror, given the route that was found for it. */
  function AssignmentFor(role: Role, found: Option<Route>, plan: Plans.Plan, d: Decision): Plans.Assignment {
    var rationale := FirstNonEmpty([d.rationale, "selected by clerk delegation"]);
    Plans.Assignment(
      role.id, role.title,
      if found.Some? then FirstNonEmpty([found.value.instructions, plan.operatorPrompt]) else plan.operatorPrompt,
      [role.id], Plans.AllPlanIDs(plan.elements),
      if found.Some? then FirstNonEmpty([found.value.expected, Plans.DELIVERABLE]) else Plans.DELIVERABLE,
      if found.Some? then FirstNonEmpty([found.value.rationale, rationale]) else rationale)
  }

  ghost predicate IsAssignmentOf(a: Plans.Assignment, role: Role, plan: Plans.Plan, d: Decision) {
    exists found :: IsFirstRoute(d.routes, role.id, found) && a == AssignmentFor(role, found, plan, d)
  }

  // Properties of the selection

  lemma {:induction false} JuryMembersAreMembers(catalog: Catalog, juryIDs: seq<string>, x: string)
    ensures x in JuryMembers(catalog, juryIDs)
       <==> exists j :: j in juryIDs && j in catalog.juries && x in catalog.juries[j].jurorIDs
  {
    if juryIDs != [] {
      var init, last := juryIDs[..|juryIDs| - 1], juryIDs[|juryIDs| - 1];
      assert juryIDs == init + [last];
      JuryMembersAreMembers(catalog, init, x);
    }
  }

  lemma {:induction false} JurorTargetsAreJurors(catalog: Catalog, ids: seq<string>, x: string)
    ensures x in JurorTargets(catalog, ids) <==> x in ids && IsJuror(catalog, x)
  {
    if ids != [] {
      assert ids == ids[..|ids| - 1] + [ids[|ids| - 1]];
      JurorTargetsAreJurors(catalog, ids[..|ids| - 1], x);
    }
  }

  lemma {:induction false} RouteTargetsAreTargets(catalog: Catalog, routes: seq<Route>, x: string)
    ensures x in RouteTargets(catalog, routes) <==> exists i :: 0 <= i < |routes| && Targets(routes[i], x) && IsJuror(catalog, x)
  {
    if routes != [] {
      var init, last := routes[..|routes| - 1], routes[|routes| - 1];
      RouteTargetsAreTargets(catalog, init, x);
      JurorTargetsAreJurors(catalog, TargetIDs(last), x);
      if x in RouteTargets(catalog, init) {
        var i :| 0 <= i < |init| && Targets(init[i], x) && IsJuror(catalog, x);
        assert Targets(routes[i], x);
      }
      if x in JurorTargets(catalog, TargetIDs(last)) {
        assert Targets(routes[|routes| - 1], x);
      }
      if i :| 0 <= i < |routes| && Targets(routes[i], x) && IsJuror(catalog, x) {
        if i < |init| {
          assert Targets(init[i], x);
        }
      }
    }
  }

  /** The selected jurors are exactly the union of the named juries' members, the named jurors and the routes'
      juror targets (trimmed, blanks dropped), each once. */
  lemma SelectionIsUnion(catalog: Catalog, d: Decision, x: string)
    ensures x in Selected(catalog, d) <==>
            || x in Trimmed(JuryMembers(catalog, Clean(d.juryIDs)))
            || x in Trimmed(d.jurorIDs)
            || exists i :: 0 <= i < |d.routes| && Targets(d.routes[i], x) && IsJuror(catalog, x)
    ensures Distinct(Selected(catalog, d))
  {
    var juries, routes := JuryMembers(catalog, Clean(d.juryIDs)), RouteTargets(catalog, d.routes);
    CleanMembers(PutForward(catalog, d));
    TrimmedConcat(juries + d.jurorIDs, routes);
    TrimmedConcat(juries, d.jurorIDs);
    RouteTargetsAreTargets(catalog, d.routes, x);
    RouteTargetsAreTrimmed(catalog, d.routes);
  }

  lemma CleanMembers(values: seq<string>)
    ensures forall x :: x in Clean(values) <==> x in Trimmed(values)
    ensures forall x :: x in Clean(values) ==> x != "" && TrimSpace(x) == x
    ensures Distinct(Clean(values))
  {
    DedupMembers(Trimmed(values));
    TrimmedAreTrimmed(values);
  }

  lemma RouteTargetsAreTrimmed(catalog: Catalog, routes: seq<Route>)
    ensures Trimmed(RouteTargets(catalog, routes)) == RouteTargets(catalog, routes)
  {
    var targets := RouteTargets(catalog, routes);
    forall y | y in targets
      ensures y != "" && TrimSpace(y) == y
    {
      RouteTargetsAreTargets(catalog, routes, y);
      var i :| 0 <= i < |routes| && Targets(routes[i], y);
      CleanMembers([routes[i].targetID] + routes[i].targetIDs);
    }
    TrimmedFixed(targets);
  }

  // The operations

  method CleanStringList(values: seq<string>) returns (out: seq<string>)
    ensures out == Clean(values)
  {
    out := [];
    var seen := {};
    for i := 0 to |values|
      invariant out == Clean(values[..i])
      invariant forall x :: x in seen <==> x in out
    {
      var value := TrimSpace(values[i]);
      assert values[..i + 1] == values[..i] + [values[i]];
      TrimmedSnoc(values[..i], values[i]);
      if value == "" {
        continue;
      }
      DedupSnoc(Trimmed(values[..i]), value);
      if value in seen {
        continue;
      }
      seen := seen + {value};
      out := out + [value];
    }
    assert values[..|values|] == values;
  }

  lemma CleanSnoc(values: seq<string>, v: string)
    ensures Clean(values + [v]) ==
            if TrimSpace(v) == "" || TrimSpace(v) in Clean(values) then Clean(values) else Clean(values) + [TrimSpace(v)]
  {
    TrimmedSnoc(values, v);
    DedupSnoc(Trimmed(values), TrimSpace(v));
  }

  /** A growing list of ids with the set of those already in it. */
  class IDList {
    var out: seq<string>
    var seen: set<string>
    /** Every id offered so far. */
    ghost var offered: seq<string>

    ghost predicate Valid()
      reads this
    {
      out == Clean(offered) && forall x :: x in seen <==> x in out
    }

    constructor ()
      ensures Valid() && offered == [] && out == []
    {
      out, seen, offered := [], {}, [];
    }

    method AddUniqueID(raw: string)
      requires Valid()
      modifies this
      ensures Valid() && offered == old(offered) + [raw]
    {
      CleanSnoc(offered, raw);
      offered := offered + [raw];
      var id := TrimSpace(raw);
      if id == "" {
        return;
      }
      if id in seen {
        return;
      }
      seen := seen + {id};
      out := out + [id];
    }

    method AddAll(ids: seq<string>)
      requires Valid()
      modifies this
      ensures Valid() && offered == old(offered) + ids
    {
      for i := 0 to |ids|
        invariant Valid() && offered == old(offered) + ids[..i]
      {
        AddUniqueID(ids[i]);
      }
    }
  }

  /** Cleaning a list again, behind another id, is cleaning once. */
  lemma CleanAgain(a: seq<string>, values: seq<string>)
    ensures Clean(a + Clean(values)) == Clean(a + values)
  {
    TrimmedConcat(a, values);
    TrimmedConcat(a, Clean(values));
    CleanMembers(values);
    TrimmedFixed(Clean(values));
    DedupAfterDedup(Trimmed(a), Trimmed(values));
  }

  method RouteTargetIDs(route: Route) returns (ids: seq<string>)
    ensures ids == TargetIDs(route)
  {
    ids := CleanStringList(route.targetIDs);
    if TrimSpace(route.targetID) != "" {
      ids := [TrimSpace(route.targetID)] + ids;
    }
    ids := CleanStringList(ids);
    var head := Trimmed([route.targetID]);
    TrimmedSnoc([], route.targetID);
    assert [] + [route.targetID] == [route.targetID];
    CleanAgain(head, route.targetIDs);
    assert [] + Clean(route.targetIDs) == Clean(route.targetIDs);
    TrimmedConcat(head, route.targetIDs);
    TrimmedConcat([route.targetID], route.targetIDs);
    TrimmedAreTrimmed([route.targetID]);
    TrimmedFixed(head);
  }

  /** The route for a juror is the first that targets it. */
  method RouteForRole(routes: seq<Route>, id: string) returns (found: Option<Route>)
    ensures IsFirstRoute(routes, id, found)
  {
    for i := 0 to |routes|
      invariant forall j :: 0 <= j < i ==> !Targets(routes[j], id)
    {
      var ids := RouteTargetIDs(routes[i]);
      for k := 0 to |ids|
        invariant id !in ids[..k]
      {
        if ids[k] == id {
          assert Targets(routes[i], id);
          return Some(routes[i]);
        }
      }
      assert ids[..|ids|] == ids;
    }
    return None;
  }

  lemma JuriesSnoc(catalog: Catalog, ids: seq<string>, id: string)
    requires id in catalog.juries
    ensures JuryMembers(catalog, ids + [id]) == JuryMembers(catalog, ids) + catalog.juries[id].jurorIDs
    ensures JuryJudges(catalog, ids + [id]) == JuryJudges(catalog, ids) + [catalog.juries[id].judgeID]
  {
    assert (ids + [id])[..|ids|] == ids;
  }

  lemma JuriesStep(catalog: Catalog, ids: seq<string>, i: nat)
    requires i < |ids| && ids[i] in catalog.juries
    ensures JuryMembers(catalog, ids[..i + 1]) == JuryMembers(catalog, ids[..i]) + catalog.juries[ids[i]].jurorIDs
    ensures JuryJudges(catalog, ids[..i + 1]) == JuryJudges(catalog, ids[..i]) + [catalog.juries[ids[i]].judgeID]
  {
    JuriesSnoc(catalog, ids[..i], ids[i]);
    assert ids[..i + 1] == ids[..i] + [ids[i]];
  }

  /** Adds a jury's judge when the decision names no judges of its own. */
  method AddJuryJudge(jury: Jury, judgesNamed: bool, judges: IDList)
    requires judges.Valid()
    modifies judges
    ensures judges.Valid()
    ensures judges.offered == if judgesNamed || TrimSpace(jury.judgeID) == "" then old(judges.offered) else old(judges.offered) + [jury.judgeID]
  {
    if TrimSpace(jury.judgeID) != "" && !judgesNamed {
      judges.AddUniqueID(jury.judgeID);
    }
  }

  /** A list that has been offered these ids, up to blanks. */
  ghost predicate HasSeen(list: IDList, ids: seq<string>)
    reads list
  {
    list.Valid() && list.out == Clean(ids)
  }

  lemma CleanOfNone()
    ensures Clean([]) == []
  {
  }

  method SelectJuries(catalog: Catalog, d: Decision, jurors: IDList, judges: IDList) returns (unknown: Option<string>)
    requires jurors != judges && jurors.Valid() && judges.Valid() && jurors.offered == [] && judges.offered == []
    modifies jurors, judges
    ensures jurors.Valid() && judges.Valid()
    ensures unknown.Some? ==> unknown.value in Clean(d.juryIDs) && unknown.value !in catalog.juries
    ensures unknown.None? ==>
              && (forall id :: id in Clean(d.juryIDs) ==> id in catalog.juries)
              && jurors.offered == JuryMembers(catalog, Clean(d.juryIDs))
              && HasSeen(judges, if d.judgeIDs == [] then JuryJudges(catalog, Clean(d.juryIDs)) else [])
  {
    var ids := CleanStringList(d.juryIDs);
    ghost var want := Clean(d.juryIDs);
    assert ids == want;
    unknown := TakeJuries(catalog, ids, |d.judgeIDs| != 0, jurors, judges);
  }

  method TakeJuries(catalog: Catalog, ids: seq<string>, judgesNamed: bool, jurors: IDList, judges: IDList) returns (unknown: Option<string>)
    requires jurors != judges && jurors.Valid() && judges.Valid() && jurors.offered == [] && judges.offered == []
    modifies jurors, judges
    ensures jurors.Valid() && judges.Valid()
    ensures unknown.Some? ==> unknown.value in ids && unknown.value !in catalog.juries
    ensures unknown.None? ==>
              && (forall id :: id in ids ==> id in catalog.juries)
              && jurors.offered == JuryMembers(catalog, ids)
              && HasSeen(judges, if judgesNamed then [] else JuryJudges(catalog, ids))
  {
    CleanOfNone();
    for i := 0 to |ids|
      invariant jurors.Valid()
      invariant forall k :: 0 <= k < i ==> ids[k] in catalog.juries
      invariant jurors.offered == JuryMembers(catalog, ids[..i])
      invariant HasSeen(judges, if judgesNamed then [] else JuryJudges(catalog, ids[..i]))
    {
      if ids[i] !in catalog.juries {
        return Some(ids[i]);
      }
      JuriesStep(catalog, ids, i);
      TakeJury(catalog.juries[ids[i]], judgesNamed, jurors, judges, if judgesNamed then [] else JuryJudges(catalog, ids[..i]));
    }
    assert ids[..|ids|] == ids;
    return None;
  }

  method TakeJury(jury: Jury, judgesNamed: bool, jurors: IDList, judges: IDList, ghost seen: seq<string>)
    requires jurors != judges && jurors.Valid() && HasSeen(judges, seen)
    modifies jurors, judges
    ensures jurors.Valid() && jurors.offered == old(jurors.offered) + jury.jurorIDs
    ensures HasSeen(judges, if judgesNamed then seen else seen + [jury.judgeID])
  {
    jurors.AddAll(jury.jurorIDs);
    CleanSnoc(seen, jury.judgeID);
    CleanSnoc(judges.offered, jury.judgeID);
    AddJuryJudge(jury, judgesNamed, judges);
  }

  lemma RouteTargetsSnoc(catalog: Catalog, routes: seq<Route>, route: Route)
    ensures RouteTargets(catalog, routes + [route]) == RouteTargets(catalog, routes) + JurorTargets(catalog, TargetIDs(route))
  {
    assert (routes + [route])[..|routes|] == routes;
  }

  method SelectTargets(catalog: Catalog, routes: seq<Route>, jurors: IDList)
    requires jurors.Valid()
    modifies jurors
    ensures jurors.Valid() && jurors.offered == old(jurors.offered) + RouteTargets(catalog, routes)
  {
    ghost var start := jurors.offered;
    for i := 0 to |routes|
      invariant jurors.Valid() && jurors.offered == start + RouteTargets(catalog, routes[..i])
    {
      TakeRoute(catalog, routes, i, jurors, start);
    }
    assert routes[..|routes|] == routes;
  }

  method TakeRoute(catalog: Catalog, routes: seq<Route>, i: nat, jurors: IDList, ghost start: seq<string>)
    requires i < |routes| && jurors.Valid() && jurors.offered == start + RouteTargets(catalog, routes[..i])
    modifies jurors
    ensures jurors.Valid() && jurors.offered == start + RouteTargets(catalog, routes[..i + 1])
  {
    var ids := RouteTargetIDs(routes[i]);
    AddJurorTargets(catalog, ids, jurors);
    RouteStep(catalog, routes, i, start);
  }

  lemma RouteStep(catalog: Catalog, routes: seq<Route>, i: nat, start: seq<string>)
    requires i < |routes|
    ensures start + RouteTargets(catalog, routes[..i]) + JurorTargets(catalog, TargetIDs(routes[i]))
         == start + RouteTargets(catalog, routes[..i + 1])
  {
    RouteTargetsSnoc(catalog, routes[..i], routes[i]);
    assert routes[..i + 1] == routes[..i] + [routes[i]];
  }

  method AddJurorTargets(catalog: Catalog, ids: seq<string>, jurors: IDList)
    requires jurors.Valid()
    modifies jurors
    ensures jurors.Valid() && jurors.offered == old(jurors.offered) + JurorTargets(catalog, ids)
  {
    for k := 0 to |ids|
      invariant jurors.Valid() && jurors.offered == old(jurors.offered) + JurorTargets(catalog, ids[..k])
    {
      assert ids[..k + 1][..k] == ids[..k];
      if ids[k] in catalog.roles && catalog.roles[ids[k]].kind.Juror? {
        jurors.AddUniqueID(ids[k]);
      }
    }
    assert ids[..|ids|] == ids;
  }

  /** The jurors' ids in order; None when a jury is unknown. */
  method SelectJurors(catalog: Catalog, d: Decision, judges: IDList) returns (unknown: Option<string>, ids: seq<string>)
    requires judges.Valid() && judges.offered == []
    modifies judges
    ensures judges.Valid()
    ensures unknown.Some? ==> unknown.value in Clean(d.juryIDs) && unknown.value !in catalog.juries
    ensures unknown.None? ==>
              && (forall id :: id in Clean(d.juryIDs) ==> id in catalog.juries)
              && ids == Selected(catalog, d)
              && HasSeen(judges, if d.judgeIDs == [] then JuryJudges(catalog, Clean(d.juryIDs)) else [])
  {
    var jurors := new IDList();
    ids := [];
    unknown := SelectJuries(catalog, d, jurors, judges);
    if unknown.Some? {
      return;
    }
    var named := CleanStringList(d.jurorIDs);
    jurors.AddAll(named);
    SelectTargets(catalog, d.routes, jurors);
    ids := jurors.out;
    SelectedAfterCleaning(JuryMembers(catalog, Clean(d.juryIDs)), d.jurorIDs, RouteTargets(catalog, d.routes));
  }

  lemma SelectedAfterCleaning(a: seq<string>, b: seq<string>, c: seq<string>)
    ensures Clean(a + Clean(b) + c) == Clean(a + b + c)
  {
    CleanAgain(a, b);
    CleanConcat(a + Clean(b), c);
    CleanConcat(a + b, c);
  }

  /** What is appended to a list is cleaned against what is already there. */
  lemma {:induction false} CleanConcat(a: seq<string>, c: seq<string>)
    ensures Clean(a + c) == Clean(Clean(a) + c)
  {
    if c == [] {
      assert a + c == a && Clean(a) + c == Clean(a);
      assert [] + Clean(a) == Clean(a) && [] + a == a;
      CleanAgain([], a);
    } else {
      var init, last := c[..|c| - 1], c[|c| - 1];
      assert a + c == (a + init) + [last] && Clean(a) + c == (Clean(a) + init) + [last];
      CleanConcat(a, init);
      CleanSnoc(a + init, last);
      CleanSnoc(Clean(a) + init, last);
    }
  }

  method LookUpJurors(catalog: Catalog, ids: seq<string>) returns (error: Option<Error>, jurors: seq<Role>)
    ensures error == None ==> |jurors| == |ids| && forall i :: 0 <= i < |ids| ==> IsJuror(catalog, ids[i]) && jurors[i] == catalog.roles[ids[i]]
    ensures error.Some? ==>
              || (error.value.UnknownJuror? && error.value.id in ids && error.value.id !in catalog.roles)
              || (error.value.NotAJuror? && error.value.id in ids && error.value.id in catalog.roles
                  && catalog.roles[error.value.id].kind == error.value.kind && !error.value.kind.Juror?)
  {
    jurors := [];
    for i := 0 to |ids|
      invariant |jurors| == i
      invariant forall k :: 0 <= k < i ==> IsJuror(catalog, ids[k]) && jurors[k] == catalog.roles[ids[k]]
    {
      if ids[i] !in catalog.roles {
        return Some(UnknownJuror(ids[i])), jurors;
      }
      var role := catalog.roles[ids[i]];
      if !role.kind.Juror? {
        return Some(NotAJuror(ids[i], role.kind)), jurors;
      }
      jurors := jurors + [role];
    }
    return None, jurors;
  }

  lemma {:induction false} FirstOfKind(preset: seq<Role>, kind: RoleKind, n: nat)
    requires n <= |preset| && Court.RolesOfKind(preset[..n], kind) != []
    ensures Court.RolesOfKind(preset, kind) != [] && Court.RolesOfKind(preset, kind)[0] == Court.RolesOfKind(preset[..n], kind)[0]
  {
    if n < |preset| {
      assert preset[..|preset| - 1][..n] == preset[..n];
      FirstOfKind(preset[..|preset| - 1], kind, n);
    } else {
      assert preset[..n] == preset;
    }
  }

  method FindPresetJudge(preset: seq<Role>) returns (judge: Option<Role>)
    ensures Court.PresetJudge(preset) == if judge.Some? then [judge.value] else []
  {
    for i := 0 to |preset|
      invariant Court.RolesOfKind(preset[..i], Judge) == []
    {
      assert preset[..i + 1][..i] == preset[..i];
      if preset[i].kind.Judge? {
        FirstOfKind(preset, Judge, i + 1);
        return Some(preset[i]);
      }
    }
    assert preset[..|preset|] == preset;
    return None;
  }

  method SelectJudges(catalog: Catalog, preset: seq<Role>, d: Decision, judges: IDList)
    requires HasSeen(judges, if d.judgeIDs == [] then JuryJudges(catalog, Clean(d.juryIDs)) else [])
    modifies judges
    ensures judges.out == SelectedJudges(catalog, preset, d)
  {
    ghost var offered := judges.offered;
    var named := CleanStringList(d.judgeIDs);
    judges.AddAll(named);
    CleanConcat(offered, named);
    if d.judgeIDs == [] {
      assert Clean(offered) + named == Clean(offered);
      assert [] + Clean(offered) == Clean(offered) && [] + offered == offered;
      CleanAgain([], offered);
    } else {
      assert [] + named == named && [] + d.judgeIDs == d.judgeIDs;
      CleanAgain([], d.judgeIDs);
    }
    if |judges.out| == 0 {
      var judge := FindPresetJudge(preset);
      if judge.Some? {
        CleanConcat(judges.offered, [judge.value.id]);
        assert [] + [judge.value.id] == [judge.value.id];
        judges.AddUniqueID(judge.value.id);
      }
    }
  }

  method DraftAssignments(plan: Plans.Plan, d: Decision, jurors: seq<Role>) returns (assignments: seq<Plans.Assignment>)
    ensures |assignments| == |jurors|
    ensures forall i :: 0 <= i < |jurors| ==> IsAssignmentOf(assignments[i], jurors[i], plan, d)
  {
    assignments := [];
    for i := 0 to |jurors|
      invariant |assignments| == i
      invariant forall k :: 0 <= k < i ==> IsAssignmentOf(assignments[k], jurors[k], plan, d)
    {
      var role := jurors[i];
      var route := RouteForRole(d.routes, role.id);
      var instructions, expected := plan.operatorPrompt, Plans.DELIVERABLE;
      var rationale := FirstNonEmpty([d.rationale, "selected by clerk delegation"]);
      if route.Some? {
        instructions := FirstNonEmpty([route.value.instructions, instructions]);
        expected := FirstNonEmpty([route.value.expected, expected]);
        rationale := FirstNonEmpty([route.value.rationale, rationale]);
      }
      var a := Plans.Assignment(role.id, role.title, instructions, [role.id], Plans.AllPlanIDs(plan.elements), expected, rationale);
      assert a == AssignmentFor(role, route, plan, d);
      assignments := assignments + [a];
    }
  }

  /** A decision is turned into a docket exactly when it is Accepted, and rejected for a reason that holds. The
      docket has one assignment for each selected juror, in order, from the first route that targets the juror. */
  method BuildDelegatedDocket(plan: Plans.Plan, preset: seq<Role>, catalog: Catalog, d: Decision) returns (r: Result)
    requires FiledByID(catalog)
    ensures r.Built? <==> Accepted(catalog, preset, d)
    ensures r.Rejected? ==> Justified(catalog, preset, d, r.error)
    ensures r.Built? ==> IsDocketFor(r.docket, r.jurors, plan, preset, catalog, d)
  {
    var judges := new IDList();
    var unknown, ids := SelectJurors(catalog, d, judges);
    if unknown.Some? {
      return Rejected(UnknownJury(unknown.value));
    }
    r := FromJurors(plan, preset, catalog, d, ids, judges);
  }

  method FromJurors(plan: Plans.Plan, preset: seq<Role>, catalog: Catalog, d: Decision, ids: seq<string>, judges: IDList) returns (r: Result)
    requires FiledByID(catalog) && ids == Selected(catalog, d)
    requires forall id :: id in Clean(d.juryIDs) ==> id in catalog.juries
    requires HasSeen(judges, if d.judgeIDs == [] then JuryJudges(catalog, Clean(d.juryIDs)) else [])
    modifies judges
    ensures r.Built? <==> Accepted(catalog, preset, d)
    ensures r.Rejected? ==> Justified(catalog, preset, d, r.error)
    ensures r.Built? ==> IsDocketFor(r.docket, r.jurors, plan, preset, catalog, d)
  {
    if |ids| == 0 {
      return Rejected(NoJurors);
    }
    var error, jurors := LookUpJurors(catalog, ids);
    if error.Some? {
      return Rejected(error.value);
    }
    SelectJudges(catalog, preset, d, judges);
    error := CheckJudges(catalog, judges.out);
    if error.Some? {
      return Rejected(error.value);
    }
    var docket := Assemble(plan, d, jurors, judges.out);
    return Built(docket, jurors);
  }

  method CheckJudges(catalog: Catalog, ids: seq<string>) returns (error: Option<Error>)
    ensures error == None ==> forall id :: id in ids ==> JudgeAllowed(catalog, id)
    ensures error.Some? ==>
              && error.value.NotAJudge? && error.value.id in ids && error.value.id in catalog.roles
              && catalog.roles[error.value.id].kind == error.value.kind && !error.value.kind.Judge?
  {
    for i := 0 to |ids|
      invariant forall k :: 0 <= k < i ==> JudgeAllowed(catalog, ids[k])
    {
      if ids[i] in catalog.roles && !catalog.roles[ids[i]].kind.Judge? {
        return Some(NotAJudge(ids[i], catalog.roles[ids[i]].kind));
      }
    }
    return None;
  }

  method Assemble(plan: Plans.Plan, d: Decision, jurors: seq<Role>, judgeIDs: seq<string>) returns (docket: Docket)
    ensures |docket.assignments| == |jurors|
    ensures forall i :: 0 <= i < |jurors| ==> IsAssignmentOf(docket.assignments[i], jurors[i], plan, d)
    ensures docket.judgeIDs == judgeIDs && docket.juryIDs == Clean(d.juryIDs)
    ensures docket.summary == if TrimSpace(d.rationale) != "" then TrimSpace(d.rationale) else TrimSpace(plan.summary)
  {
    FirstOfTwo(d.rationale, plan.summary);
    var assignments := DraftAssignments(plan, d, jurors);
    var juryIDs := CleanStringList(d.juryIDs);
    docket := Docket(FirstNonEmpty([d.rationale, plan.summary]), juryIDs, judgeIDs, assignments);
  }

  ghost predicate IsDocketFor(docket: Docket, jurors: seq<Role>, plan: Plans.Plan, preset: seq<Role>, catalog: Catalog, d: Decision) {
    var selected := Selected(catalog, d);
    && |jurors| == |docket.assignments| == |selected|
    && (forall i :: 0 <= i < |jurors| ==> IsJuror(catalog, selected[i]) && jurors[i] == catalog.roles[selected[i]])
    && (forall i :: 0 <= i < |jurors| ==> IsAssignmentOf(docket.assignments[i], jurors[i], plan, d))
    && docket.judgeIDs == SelectedJudges(catalog, preset, d) && docket.juryIDs == Clean(d.juryIDs)
    && docket.summary == (if TrimSpace(d.rationale) != "" then TrimSpace(d.rationale) else TrimSpace(plan.summary))
  }

  /** A docket that is built is a delegation the engine may use: at least one juror, jurors only, each once; and
      each assignment is for its own juror alone. */
  method DelegateJurors(plan: Plans.Plan, preset: seq<Role>, catalog: Catalog, d: Decision) returns (delegation: Option<Court.Delegation>)
    requires FiledByID(catalog)
    ensures delegation.Some? <==> Accepted(catalog, preset, d)
    ensures delegation.Some? ==>
              && delegation.value.judgeIDs == SelectedJudges(catalog, preset, d)
              && |delegation.value.jurors| == |Selected(catalog, d)|
              && (forall i :: 0 <= i < |delegation.value.jurors| ==> delegation.value.jurors[i].id == Selected(catalog, d)[i])
              && (forall i, j :: 0 <= i < j < |delegation.value.jurors| ==> delegation.value.jurors[i].id != delegation.value.jurors[j].id)
  {
    var r := BuildDelegatedDocket(plan, preset, catalog, d);
    if r.Rejected? {
      return None;
    }
    var selected := Selected(catalog, d);
    assert forall i :: 0 <= i < |selected| ==> selected[i] in selected;
    SelectionIsUnion(catalog, d, selected[0]);
    return Some(Court.DelegatedRoles(r.jurors, r.docket.judgeIDs));
  }
}
