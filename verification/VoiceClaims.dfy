/** What a claim, a release and a synchronisation come to, field by field. */
module VoiceClaims {
  import opened Text
  import opened TextProperties
  import opened Lists
  import opened Voice

  // Claims

  /** Who a request speaks for: the agent it names, or the first that its metadata names, or else its session. */
  lemma ClaimantIs(req: ClaimRequest)
    ensures Claimant(req).project == req.project
    ensures Claimant(req).agentID ==
            if TrimSpace(req.agentID) != "" then TrimSpace(req.agentID)
            else if FirstNonEmpty(req.metadata) != "" then FirstNonEmpty(req.metadata)
            else TrimSpace(req.sessionID)
  {
    FirstOfThree(req.agentID, FirstNonEmpty(req.metadata), req.sessionID);
    TrimSpaceIdempotent(req.agentID);
    TrimSpaceIdempotent(req.sessionID);
    FirstIsTrimmed(req.metadata);
  }

  lemma {:induction false} FirstIsTrimmed(values: seq<string>)
    ensures TrimSpace(FirstNonEmpty(values)) == FirstNonEmpty(values)
  {
    if values != [] {
      TrimSpaceIdempotent(values[0]);
      FirstIsTrimmed(values[1..]);
    }
  }

  predicate Offered(voices: seq<string>, voice: string) {
    exists i :: 0 <= i < |voices| && TrimSpace(voices[i]) == voice
  }

  lemma {:induction false} PickIsOffered(live: Live, voices: seq<string>, agent: Agent, sessionID: string, pick: string)
    requires MayPick(live, voices, agent, sessionID, pick) && pick != ""
    ensures Offered(voices, pick)
  {
    if TrimSpace(voices[0]) != pick {
      PickIsOffered(live, voices[1..], agent, sessionID, pick);
      var i :| 0 <= i < |voices| - 1 && TrimSpace(voices[1..][i]) == pick;
      assert TrimSpace(voices[i + 1]) == pick;
    }
  }

  /** Which voice a claim that succeeds binds, and on what ground: the agent's assigned voice, whatever it asked for; or
      the voice it asked for; or else one of those offered. (No assignment is to the voice "" unless it was stored so.) */
  lemma VoiceOfClaim(s: State, req: ClaimRequest, voices: seq<string>, now: int, r: Result<Binding>, s': State)
    requires MayClaim(s, req, voices, now, r, s') && r.Ok?
    ensures var who, b := Claimant(req), r.value;
            && b.voice != ""
            && (b.pinned <==> who in s.assignments)
            && (who in s.assignments && s.assignments[who].voice != "" ==> b.voice == s.assignments[who].voice)
            && (who in s.assignments && s.assignments[who].voice == "" ==> Offered(voices, b.voice))
            && (who !in s.assignments && TrimSpace(req.voice) != "" ==> b.voice == TrimSpace(req.voice))
            && (who !in s.assignments && TrimSpace(req.voice) == "" ==> Offered(voices, b.voice))
            && (b.source.Assigned? <==> who in s.assignments)
            && (b.source.Auto? <==> who !in s.assignments && TrimSpace(req.voice) == "")
  {
    var voice :| MayChoose(s, req, voices, voice) && Concludes(s, req, voice, now, r, s');
    if Wanted(s, req) == "" {
      PickIsOffered(s.live, voices, Claimant(req), req.sessionID, voice);
    }
  }

  /** What a claim that succeeds writes: one binding, under its session or else under its agent, and the assignment when
      it is to last. Everything else stays. */
  lemma ClaimWrites(s: State, req: ClaimRequest, voices: seq<string>, now: int, r: Result<Binding>, s': State)
    requires MayClaim(s, req, voices, now, r, s') && r.Ok?
    ensures var who, b := Claimant(req), r.value;
            var key := if TrimSpace(req.sessionID) != "" then SessionKey(TrimSpace(req.sessionID)) else AgentKey(who);
            && b.agent == who && b.sessionID == TrimSpace(req.sessionID) && b.runtime == TrimSpace(req.runtime) && b.updatedAt == now
            && key in s'.live && s'.live[key] == b
            && (forall k :: k != key ==> (k in s'.live <==> k in s.live) && (k in s.live ==> s'.live[k] == s.live[k]))
            && (req.persistent ==> s'.assignments == s.assignments[who := Assignment(b.voice, now)])
            && (!req.persistent ==> s'.assignments == s.assignments)
  {
    var voice :| MayChoose(s, req, voices, voice) && Concludes(s, req, voice, now, r, s');
  }

  /** An assignment holds for every later claim of the agent, until the next one: whatever voice it asks for, it gets the
      assigned one or none. Other agents' assignments stay. */
  lemma AssignmentHolds(s: State, agent: Agent, assignment: Assignment, t: State, req: ClaimRequest, voices: seq<string>, now: int,
                        r: Result<Binding>, t': State)
    requires Next(s, Step.Assign(agent, assignment), t) && Claimant(req) == agent && assignment.voice != ""
    requires MayClaim(t, req, voices, now, r, t')
    ensures r.Ok? ==> r.value.voice == assignment.voice && r.value.pinned
    ensures t.live == s.live
    ensures forall a :: a != agent ==> (a in t.assignments <==> a in s.assignments)
    ensures forall a :: a != agent && a in s.assignments ==> t.assignments[a] == s.assignments[a]
  {
    if r.Ok? {
      VoiceOfClaim(t, req, voices, now, r, t');
    }
  }

  /** A claim that fails changes nothing, and says why. */
  lemma ClaimRefused(s: State, req: ClaimRequest, voices: seq<string>, now: int, r: Result<Binding>, s': State)
    requires MayClaim(s, req, voices, now, r, s')
    ensures r.Err? ==> s' == s && !r.error.VoiceRequired?
    ensures r == Err(ProjectRequired) <==> req.project == ""
    ensures r == Err(AgentRequired) <==> req.project != "" && Claimant(req).agentID == ""
    ensures r.Err? && r.error.Reserved? ==>
              exists k :: k in s.live && s.live[k].agent == r.error.agent != Claimant(req)
                          && (Claimant(req) in s.assignments ==> s.live[k].voice == s.assignments[Claimant(req)].voice || s.assignments[Claimant(req)].voice == "")
  {
    if req.project != "" && Claimant(req).agentID != "" {
      var voice :| MayChoose(s, req, voices, voice) && Concludes(s, req, voice, now, r, s');
      if voice != "" {
        var answer :| MayAnswer(s.live, voice, Claimant(req), req.sessionID, answer) && Settles(s, req, voice, now, answer, r, s');
      }
    }
  }

  /** When the voices are held exclusively, the scan of the offered list settles on the first free one. */
  lemma {:induction false} PickIsFirstFree(owner: string -> Agent, live: Live, voices: seq<string>, agent: Agent, sessionID: string, pick: string)
    requires Inv(owner, live) && Presents(owner, sessionID, agent)
    requires MayPick(live, voices, agent, sessionID, pick) && pick != ""
    ensures exists i :: 0 <= i < |voices| && IsFirstFree(live, voices, agent, i) && TrimSpace(voices[i]) == pick
  {
    var v := TrimSpace(voices[0]);
    NoneMeansFree(owner, live, v, agent, sessionID);
    if v != "" && !HeldByAnother(live, v, agent) {
      NotHeldIsFree(live, v, agent, sessionID);
      assert IsFirstFree(live, voices, agent, 0);
    } else {
      if v != "" {
        HeldIsNotFree(owner, live, v, agent, sessionID);
      }
      PickIsFirstFree(owner, live, voices[1..], agent, sessionID, pick);
      var i :| 0 <= i < |voices| - 1 && IsFirstFree(live, voices[1..], agent, i) && TrimSpace(voices[1..][i]) == pick;
      assert forall j :: 0 < j < |voices| ==> voices[j] == voices[1..][j - 1];
      assert IsFirstFree(live, voices, agent, i + 1);
    }
  }

  ghost predicate HeldByAnother(live: Live, voice: string, agent: Agent) {
    exists k :: k in live && live[k].voice == voice && live[k].agent != agent
  }

  ghost predicate IsFirstFree(live: Live, voices: seq<string>, agent: Agent, i: nat)
    requires i < |voices|
  {
    && TrimSpace(voices[i]) != "" && !HeldByAnother(live, TrimSpace(voices[i]), agent)
    && forall j :: 0 <= j < i && TrimSpace(voices[j]) != "" ==> HeldByAnother(live, TrimSpace(voices[j]), agent)
  }

  lemma NotHeldIsFree(live: Live, voice: string, agent: Agent, sessionID: string)
    requires !HeldByAnother(live, voice, agent)
    ensures Free(live, voice, agent, sessionID)
  {
  }

  lemma HeldIsNotFree(owner: string -> Agent, live: Live, voice: string, agent: Agent, sessionID: string)
    requires Inv(owner, live) && Presents(owner, sessionID, agent) && HeldByAnother(live, voice, agent)
    ensures !Free(live, voice, agent, sessionID)
  {
    NoneMeansFree(owner, live, voice, agent, sessionID);
  }

  // Releases

  /** The filters of a request, one at a time. */
  const ANY := ReleaseRequest("", "", "", "")

  /** A release by session takes exactly the bindings of that session; likewise by project, by agent and by voice; and an
      empty request takes them all. */
  lemma ReleaseByOne(live: Live, value: string, k: LiveKey)
    requires k in live && TrimSpace(value) == value != ""
    ensures k in Released(live, ANY.(sessionID := value)) <==> live[k].sessionID != value
    ensures k in Released(live, ANY.(project := value)) <==> live[k].agent.project != value
    ensures k in Released(live, ANY.(agentID := value)) <==> live[k].agent.agentID != value
    ensures k in Released(live, ANY.(voice := value)) <==> live[k].voice != value
    ensures k !in Released(live, ANY)
  {
    assert TrimSpace("") == "";
  }

  /** A release with several filters takes exactly what a release with each of them alone would take. */
  lemma ReleaseIsIntersection(live: Live, req: ReleaseRequest, k: LiveKey)
    requires k in live
    ensures k in Released(live, req) <==>
            || k in Released(live, ANY.(sessionID := req.sessionID)) || k in Released(live, ANY.(project := req.project))
            || k in Released(live, ANY.(agentID := req.agentID)) || k in Released(live, ANY.(voice := req.voice))
    ensures k in Released(live, req) ==> Released(live, req)[k] == live[k]
  {
    assert TrimSpace("") == "";
  }

  // Synchronisations

  /** The session is under way and its agent has an assigned voice that no other agent holds. */
  ghost predicate Takes(assignments: Assignments, live: Live, session: Session) {
    && session.sessionID != "" && !session.status.Stopped? && !session.status.Errored? && !session.status.Interrupted?
    && session.agent.agentID != "" && session.agent in assignments
    && !HeldByAnother(live, assignments[session.agent].voice, session.agent)
  }

  /** One session's turn in a synchronisation: it is bound to its agent's assigned voice exactly when it takes it. */
  lemma SessionTakesItsVoice(owner: string -> Agent, assignments: Assignments, session: Session, now: int, live: Live, live': Live)
    requires Inv(owner, live) && Presents(owner, session.sessionID, session.agent)
    requires MayRebind(assignments, session, now, live, live')
    ensures live' == if Takes(assignments, live, session) then
                       live[SessionKey(session.sessionID) :=
                         Binding(session.agent, session.sessionID, session.runtime, assignments[session.agent].voice, true, Assigned, now)]
                     else live
  {
    if session.agent in assignments {
      var voice := assignments[session.agent].voice;
      NoneMeansFree(owner, live, voice, session.agent, session.sessionID);
      if HeldByAnother(live, voice, session.agent) {
        HeldIsNotFree(owner, live, voice, session.agent, session.sessionID);
      } else {
        NotHeldIsFree(live, voice, session.agent, session.sessionID);
      }
    }
  }

  /** The bindings that a synchronisation with one session starts from: those without a session, and those of that
      session while it is under way. */
  function Kept(live: Live, session: Session): Live {
    map k | k in live && (live[k].sessionID == ""
                          || (live[k].sessionID == session.sessionID
                              && !session.status.Stopped? && !session.status.Errored? && !session.status.Interrupted?)) :: live[k]
  }

  /** A synchronisation with one session drops the bindings of all others and then gives it its turn. */
  lemma SyncWithOne(owner: string -> Agent, s: State, session: Session, now: int, s': State)
    requires Inv(owner, s.live) && Presents(owner, session.sessionID, session.agent) && MaySync(s, [session], now, s')
    ensures s'.assignments == s.assignments
    ensures var kept := Kept(s.live, session);
            s'.live == if Takes(s.assignments, kept, session) then
                         kept[SessionKey(session.sessionID) :=
                           Binding(session.agent, session.sessionID, session.runtime, s.assignments[session.agent].voice, true, Assigned, now)]
                       else kept
  {
    var kept := Kept(s.live, session);
    ListedSnoc([], session);
    assert [] + [session] == [session] && [session][..0] == [];
    assert Pruned(s.live, [session]) == kept;
    var mid :| MayRebindAll(s.assignments, [], now, kept, mid) && MayRebind(s.assignments, session, now, mid, s'.live);
    assert mid == kept && Inv(owner, kept);
    SessionTakesItsVoice(owner, s.assignments, session, now, kept, s'.live);
  }
}
