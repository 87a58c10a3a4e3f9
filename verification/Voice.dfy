/** The voice manager: at most one agent holds a voice at a time. Go iterates maps in an unspecified order,
    so a scan that stops at the first match is modelled as a relation between the map and any answer some
    order could give. */
module Voice {
  import opened Text
  import opened Lists

  datatype Agent = Agent(project: string, agentID: string)

  /** A binding is keyed by its session when it has one, and by its agent otherwise. */
  datatype LiveKey = SessionKey(id: string) | AgentKey(agent: Agent)

  datatype Source = Auto | Assigned | Requested

  datatype Binding = Binding(
    agent: Agent, sessionID: string, runtime: string, voice: string, pinned: bool, source: Source, updatedAt: int)

  datatype Assignment = Assignment(voice: string, updatedAt: int)

  type Assignments = map<Agent, Assignment>
  type Live = map<LiveKey, Binding>

  datatype State = State(assignments: Assignments, live: Live)

  function KeyOf(b: Binding): LiveKey {
    if b.sessionID != "" then SessionKey(b.sessionID) else AgentKey(b.agent)
  }

  // The conflict scan

  /** A binding of the voice that does not stand in the way of this agent and session. */
  predicate Exempt(b: Binding, agent: Agent, sessionID: string) {
    b.agent == agent || (sessionID != "" && b.sessionID == sessionID)
  }

  predicate Binds(live: Live, k: LiveKey, voice: string) {
    k in live && live[k].voice == voice
  }

  /** The scan is decided by the first binding of the voice it meets, whichever that is. */
  ghost predicate MayAnswer(live: Live, voice: string, agent: Agent, sessionID: string, answer: Option<Binding>) {
    || (answer == None && forall k :: !Binds(live, k, voice))
    || exists k :: Binds(live, k, voice) && Decides(live[k], agent, sessionID, answer)
  }

  predicate Decides(b: Binding, agent: Agent, sessionID: string, answer: Option<Binding>) {
    answer == if Exempt(b, agent, sessionID) then None else Some(b)
  }

  /** No binding of the voice stands in the way. */
  ghost predicate Free(live: Live, voice: string, agent: Agent, sessionID: string) {
    forall k :: Binds(live, k, voice) ==> Exempt(live[k], agent, sessionID)
  }

  /** The voice the scan of the offered list may settle on: the first that is found free, or "". */
  ghost predicate MayPick(live: Live, voices: seq<string>, agent: Agent, sessionID: string, pick: string) {
    if voices == [] then pick == ""
    else
      var v := TrimSpace(voices[0]);
      || (v != "" && pick == v && MayAnswer(live, v, agent, sessionID, None))
      || ((v == "" || Refused(live, v, agent, sessionID)) && MayPick(live, voices[1..], agent, sessionID, pick))
  }

  ghost predicate Refused(live: Live, voice: string, agent: Agent, sessionID: string) {
    exists b :: MayAnswer(live, voice, agent, sessionID, Some(b))
  }

  // Operations

  datatype Error = ProjectRequired | AgentRequired | VoiceRequired | NoVoice | Reserved(agent: Agent)
  datatype Result<+T> = Ok(value: T) | Err(error: Error)

  /** metadata holds what the request's metadata says under the names that may name the agent, in the order in
      which they are tried. */
  datatype ClaimRequest = ClaimRequest(
    project: string, agentID: string, metadata: seq<string>, sessionID: string, runtime: string, voice: string,
    persistent: bool)

  /** A filter that is empty matches everything. */
  datatype ReleaseRequest = ReleaseRequest(sessionID: string, project: string, agentID: string, voice: string)

  datatype SessionStatus = Starting | Idle | Running | WaitingApproval | WaitingUserInput | Interrupted | Stopped | Errored

  datatype Session = Session(sessionID: string, status: SessionStatus, agent: Agent, runtime: string)

  predicate IsTerminal(status: SessionStatus) {
    status.Stopped? || status.Errored? || status.Interrupted?
  }

  predicate Listed(sessions: seq<Session>, id: string) {
    exists i :: 0 <= i < |sessions| && sessions[i].sessionID == id && !IsTerminal(sessions[i].status)
  }

  /** The agent is named by the request, or else by its metadata, or else after its session. */
  function Claimant(req: ClaimRequest): Agent {
    Agent(req.project, TrimSpace(FirstNonEmpty([req.agentID, FirstNonEmpty(req.metadata), req.sessionID])))
  }

  /** The voice that is not up to the scan: the agent's assignment, or else the one asked for. */
  function Wanted(s: State, req: ClaimRequest): string {
    var who := Claimant(req);
    if who in s.assignments then s.assignments[who].voice else TrimSpace(req.voice)
  }

  function Bound(s: State, req: ClaimRequest, voice: string, now: int): Binding {
    var who := Claimant(req);
    Binding(who, TrimSpace(req.sessionID), TrimSpace(req.runtime), voice, who in s.assignments,
            if who in s.assignments then Assigned else if TrimSpace(req.voice) != "" then Requested else Auto, now)
  }

  function Claimed(s: State, b: Binding, persistent: bool): State {
    State(if persistent then s.assignments[b.agent := Assignment(b.voice, b.updatedAt)] else s.assignments,
          s.live[KeyOf(b) := b])
  }

  ghost predicate MayChoose(s: State, req: ClaimRequest, voices: seq<string>, voice: string) {
    if Wanted(s, req) != "" then voice == Wanted(s, req)
    else MayPick(s.live, voices, Claimant(req), req.sessionID, voice)
  }

  /** What a claim that settled on a voice and got this answer from the conflict scan does. */
  predicate Settles(s: State, req: ClaimRequest, voice: string, now: int, answer: Option<Binding>, r: Result<Binding>, s': State) {
    if answer.Some? then r == Err(Reserved(answer.value.agent)) && s' == s
    else r == Ok(Bound(s, req, voice, now)) && s' == Claimed(s, Bound(s, req, voice, now), req.persistent)
  }

  ghost predicate Concludes(s: State, req: ClaimRequest, voice: string, now: int, r: Result<Binding>, s': State) {
    if voice == "" then r == Err(NoVoice) && s' == s
    else exists answer :: MayAnswer(s.live, voice, Claimant(req), req.sessionID, answer) && Settles(s, req, voice, now, answer, r, s')
  }

  ghost predicate MayClaim(s: State, req: ClaimRequest, voices: seq<string>, now: int, r: Result<Binding>, s': State) {
    if req.project == "" then r == Err(ProjectRequired) && s' == s
    else if Claimant(req).agentID == "" then r == Err(AgentRequired) && s' == s
    else exists voice :: MayChoose(s, req, voices, voice) && Concludes(s, req, voice, now, r, s')
  }

  predicate Matches(b: Binding, req: ReleaseRequest) {
    && (TrimSpace(req.sessionID) != "" ==> b.sessionID == TrimSpace(req.sessionID))
    && (req.project != "" ==> b.agent.project == req.project)
    && (TrimSpace(req.agentID) != "" ==> b.agent.agentID == TrimSpace(req.agentID))
    && (TrimSpace(req.voice) != "" ==> b.voice == TrimSpace(req.voice))
  }

  function Released(live: Live, req: ReleaseRequest): Live {
    map k | k in live && !Matches(live[k], req) :: live[k]
  }

  /** Bindings whose session is gone are dropped; bindings without a session stay. */
  function Pruned(live: Live, sessions: seq<Session>): Live {
    map k | k in live && (live[k].sessionID == "" || Listed(sessions, live[k].sessionID)) :: live[k]
  }

  function Rebound(session: Session, voice: string, now: int): Binding {
    Binding(session.agent, session.sessionID, session.runtime, voice, true, Assigned, now)
  }

  predicate Rebinds(assignments: Assignments, session: Session) {
    session.sessionID != "" && !IsTerminal(session.status) && session.agent.agentID != "" && session.agent in assignments
  }

  /** One session of a synchronisation: bound to its agent's assigned voice unless the scan objects. */
  ghost predicate MayRebind(assignments: Assignments, session: Session, now: int, live: Live, live': Live) {
    if !Rebinds(assignments, session) then live' == live
    else
      var voice := assignments[session.agent].voice;
      || (live' == live[SessionKey(session.sessionID) := Rebound(session, voice, now)]
          && MayAnswer(live, voice, session.agent, session.sessionID, None))
      || (live' == live && Refused(live, voice, session.agent, session.sessionID))
  }

  ghost predicate MayRebindAll(assignments: Assignments, sessions: seq<Session>, now: int, live: Live, live': Live) {
    if sessions == [] then live' == live
    else
      var init, last := sessions[..|sessions| - 1], sessions[|sessions| - 1];
      exists mid :: MayRebindAll(assignments, init, now, live, mid) && MayRebind(assignments, last, now, mid, live')
  }

  lemma MayRebindAllSnoc(
    assignments: Assignments, sessions: seq<Session>, session: Session, now: int, live: Live, mid: Live, live': Live)
    requires MayRebindAll(assignments, sessions, now, live, mid) && MayRebind(assignments, session, now, mid, live')
    ensures MayRebindAll(assignments, sessions + [session], now, live, live')
  {
    assert (sessions + [session])[..|sessions|] == sessions;
  }

  ghost predicate MaySync(s: State, sessions: seq<Session>, now: int, s': State) {
    s'.assignments == s.assignments && MayRebindAll(s.assignments, sessions, now, Pruned(s.live, sessions), s'.live)
  }

  // Runs

  datatype Step =
    | Assign(agent: Agent, assignment: Assignment)
    | Claim(req: ClaimRequest, voices: seq<string>, now: int)
    | Release(release: ReleaseRequest)
    | Sync(sessions: seq<Session>, syncedAt: int)

  ghost predicate Next(s: State, step: Step, s': State) {
    match step
    case Assign(agent, assignment) => s' == s.(assignments := s.assignments[agent := assignment])
    case Claim(req, voices, now) => exists r :: MayClaim(s, req, voices, now, r, s')
    case Release(req) => s' == s.(live := Released(s.live, req))
    case Sync(sessions, now) => MaySync(s, sessions, now, s')
  }

  /** The session, as given and trimmed, belongs to the agent. */
  predicate Presents(owner: string -> Agent, sessionID: string, agent: Agent) {
    && (sessionID != "" ==> owner(sessionID) == agent)
    && (TrimSpace(sessionID) != "" ==> owner(TrimSpace(sessionID)) == agent)
  }

  /** Every session named by the step is presented with the one agent it belongs to. */
  predicate Consistent(owner: string -> Agent, step: Step) {
    match step
    case Claim(req, _, _) => Presents(owner, req.sessionID, Claimant(req))
    case Sync(sessions, _) => forall i :: 0 <= i < |sessions| ==> Presents(owner, sessions[i].sessionID, sessions[i].agent)
    case _ => true
  }

  // Exclusivity

  /** All bindings of a voice belong to one agent. */
  ghost predicate Exclusive(live: Live) {
    forall j, k :: j in live && k in live && live[j].voice == live[k].voice ==> live[j].agent == live[k].agent
  }

  ghost predicate Owned(owner: string -> Agent, live: Live) {
    forall k :: k in live ==> k == KeyOf(live[k]) && (live[k].sessionID != "" ==> owner(live[k].sessionID) == live[k].agent)
  }

  ghost predicate Inv(owner: string -> Agent, live: Live) {
    Exclusive(live) && Owned(owner, live)
  }

  /** When the voices are held exclusively, an answer of None means the voice is free, whatever the order. */
  lemma NoneMeansFree(owner: string -> Agent, live: Live, voice: string, agent: Agent, sessionID: string)
    requires Inv(owner, live) && Presents(owner, sessionID, agent)
    ensures MayAnswer(live, voice, agent, sessionID, None) <==> Free(live, voice, agent, sessionID)
    ensures Refused(live, voice, agent, sessionID) <==> !Free(live, voice, agent, sessionID)
    ensures Free(live, voice, agent, sessionID) ==> forall k :: Binds(live, k, voice) ==> live[k].agent == agent
  {
    if !Free(live, voice, agent, sessionID) {
      var k :| Binds(live, k, voice) && !Exempt(live[k], agent, sessionID);
      assert Decides(live[k], agent, sessionID, Some(live[k]));
      assert MayAnswer(live, voice, agent, sessionID, Some(live[k]));
      forall j | Binds(live, j, voice)
        ensures !Exempt(live[j], agent, sessionID)
      {
        assert live[j].agent == live[k].agent;
      }
    } else if exists k :: Binds(live, k, voice) {
      var k :| Binds(live, k, voice);
      assert Decides(live[k], agent, sessionID, None);
    }
  }

  /** The scan's answer does not depend on the order of iteration: every order gives None, or every order
      names the same agent. */
  lemma AnswerIsOrderIndependent(
    owner: string -> Agent, live: Live, voice: string, agent: Agent, sessionID: string, a: Option<Binding>, b: Option<Binding>)
    requires Inv(owner, live) && Presents(owner, sessionID, agent)
    requires MayAnswer(live, voice, agent, sessionID, a) && MayAnswer(live, voice, agent, sessionID, b)
    ensures a.None? <==> b.None?
    ensures a.Some? ==> a.value.agent == b.value.agent
  {
    NoneMeansFree(owner, live, voice, agent, sessionID);
  }

  /** The exclusivity is not only enough for that but also needed: if two agents hold one voice, one of them
      may be told the voice is free, or that it is taken. */
  lemma SharedVoiceIsOrderDependent(owner: string -> Agent, live: Live)
    requires Owned(owner, live)
    ensures Exclusive(live) <==>
            forall voice, agent, sessionID | Presents(owner, sessionID, agent) ::
              MayAnswer(live, voice, agent, sessionID, None) ==> !Refused(live, voice, agent, sessionID)
  {
    if Exclusive(live) {
      forall voice, agent, sessionID | Presents(owner, sessionID, agent) && MayAnswer(live, voice, agent, sessionID, None)
        ensures !Refused(live, voice, agent, sessionID)
      {
        NoneMeansFree(owner, live, voice, agent, sessionID);
      }
    } else {
      var j, k :| j in live && k in live && live[j].voice == live[k].voice && live[j].agent != live[k].agent;
      var voice, agent := live[j].voice, live[j].agent;
      assert Binds(live, j, voice) && Decides(live[j], agent, "", None);
      assert Binds(live, k, voice) && Decides(live[k], agent, "", Some(live[k]));
      assert MayAnswer(live, voice, agent, "", None) && MayAnswer(live, voice, agent, "", Some(live[k]));
      assert TrimSpace("") == "";
      assert Presents(owner, "", agent);
    }
  }

  lemma PickIsUnique(owner: string -> Agent, live: Live, voices: seq<string>, agent: Agent, sessionID: string, p: string, q: string)
    requires Inv(owner, live) && Presents(owner, sessionID, agent)
    requires MayPick(live, voices, agent, sessionID, p) && MayPick(live, voices, agent, sessionID, q)
    ensures p == q
    ensures p != "" ==> Free(live, p, agent, sessionID)
    ensures p == "" ==> forall i :: 0 <= i < |voices| && TrimSpace(voices[i]) != "" ==> !Free(live, TrimSpace(voices[i]), agent, sessionID)
  {
    if voices != [] {
      NoneMeansFree(owner, live, TrimSpace(voices[0]), agent, sessionID);
      if !(TrimSpace(voices[0]) != "" && Free(live, TrimSpace(voices[0]), agent, sessionID)) {
        PickIsUnique(owner, live, voices[1..], agent, sessionID, p, q);
        assert forall i :: 0 < i < |voices| ==> voices[i] == voices[1..][i - 1];
      }
    }
  }

  /** A claim has one outcome, whatever the orders of iteration in its scans. */
  lemma ClaimIsDeterministic(
    owner: string -> Agent, s: State, req: ClaimRequest, voices: seq<string>, now: int,
    r: Result<Binding>, s': State, q: Result<Binding>, t': State)
    requires Inv(owner, s.live) && Presents(owner, req.sessionID, Claimant(req))
    requires MayClaim(s, req, voices, now, r, s') && MayClaim(s, req, voices, now, q, t')
    ensures r == q && s' == t'
  {
    if req.project != "" && Claimant(req).agentID != "" {
      var v :| MayChoose(s, req, voices, v) && Concludes(s, req, v, now, r, s');
      var w :| MayChoose(s, req, voices, w) && Concludes(s, req, w, now, q, t');
      if Wanted(s, req) == "" {
        PickIsUnique(owner, s.live, voices, Claimant(req), req.sessionID, v, w);
      }
      if v != "" {
        var a :| MayAnswer(s.live, v, Claimant(req), req.sessionID, a) && Settles(s, req, v, now, a, r, s');
        var b :| MayAnswer(s.live, v, Claimant(req), req.sessionID, b) && Settles(s, req, v, now, b, q, t');
        AnswerIsOrderIndependent(owner, s.live, v, Claimant(req), req.sessionID, a, b);
      }
    }
  }

  /** When an agent may choose any offered voice, it is turned away only if each is held by someone else. */
  lemma TurnedAwayOnlyWhenAllTaken(
    owner: string -> Agent, s: State, req: ClaimRequest, voices: seq<string>, now: int, r: Result<Binding>, s': State)
    requires Inv(owner, s.live) && Presents(owner, req.sessionID, Claimant(req))
    requires MayClaim(s, req, voices, now, r, s') && Wanted(s, req) == ""
    requires req.project != "" && Claimant(req).agentID != ""
    ensures r.Ok? || r == Err(NoVoice)
    ensures r.Err? ==>
              forall i :: 0 <= i < |voices| && TrimSpace(voices[i]) != "" ==>
                exists k :: Binds(s.live, k, TrimSpace(voices[i])) && s.live[k].agent != Claimant(req)
  {
    var who := Claimant(req);
    var v :| MayChoose(s, req, voices, v) && Concludes(s, req, v, now, r, s');
    PickIsUnique(owner, s.live, voices, who, req.sessionID, v, v);
    if v != "" {
      var a :| MayAnswer(s.live, v, who, req.sessionID, a) && Settles(s, req, v, now, a, r, s');
      NoneMeansFree(owner, s.live, v, who, req.sessionID);
    } else {
      forall i | 0 <= i < |voices| && TrimSpace(voices[i]) != ""
        ensures exists k :: Binds(s.live, k, TrimSpace(voices[i])) && s.live[k].agent != who
      {
        assert !Free(s.live, TrimSpace(voices[i]), who, req.sessionID);
      }
    }
  }

  /** Binding a voice that is free keeps it exclusive. */
  lemma BindKeeps(owner: string -> Agent, live: Live, b: Binding, sessionID: string)
    requires Inv(owner, live) && Presents(owner, sessionID, b.agent)
    requires b.sessionID == sessionID || b.sessionID == TrimSpace(sessionID)
    requires MayAnswer(live, b.voice, b.agent, sessionID, None)
    ensures Inv(owner, live[KeyOf(b) := b])
  {
    NoneMeansFree(owner, live, b.voice, b.agent, sessionID);
    assert forall k :: k in live && live[k].voice == b.voice ==> Binds(live, k, b.voice);
  }

  lemma ClaimKeeps(owner: string -> Agent, s: State, req: ClaimRequest, voices: seq<string>, now: int, r: Result<Binding>, s': State)
    requires Inv(owner, s.live) && Presents(owner, req.sessionID, Claimant(req))
    requires MayClaim(s, req, voices, now, r, s')
    ensures Inv(owner, s'.live)
  {
    if req.project != "" && Claimant(req).agentID != "" {
      var v :| MayChoose(s, req, voices, v) && Concludes(s, req, v, now, r, s');
      if v != "" {
        var a :| MayAnswer(s.live, v, Claimant(req), req.sessionID, a) && Settles(s, req, v, now, a, r, s');
        if a.None? {
          BindKeeps(owner, s.live, Bound(s, req, v, now), req.sessionID);
        }
      }
    }
  }

  lemma RebindAllKeeps(owner: string -> Agent, assignments: Assignments, sessions: seq<Session>, now: int, live: Live, live': Live)
    requires Inv(owner, live) && MayRebindAll(assignments, sessions, now, live, live')
    requires forall i :: 0 <= i < |sessions| ==> Presents(owner, sessions[i].sessionID, sessions[i].agent)
    ensures Inv(owner, live')
  {
    if sessions != [] {
      var init, last := sessions[..|sessions| - 1], sessions[|sessions| - 1];
      var mid :| MayRebindAll(assignments, init, now, live, mid) && MayRebind(assignments, last, now, mid, live');
      RebindAllKeeps(owner, assignments, init, now, live, mid);
      if live' != mid {
        BindKeeps(owner, mid, Rebound(last, assignments[last.agent].voice, now), last.sessionID);
      }
    }
  }

  lemma StepKeeps(owner: string -> Agent, s: State, step: Step, s': State)
    requires Inv(owner, s.live) && Consistent(owner, step) && Next(s, step, s')
    ensures Inv(owner, s'.live)
  {
    match step {
      case Claim(req, voices, now) =>
        var r :| MayClaim(s, req, voices, now, r, s');
        ClaimKeeps(owner, s, req, voices, now, r, s');
      case Sync(sessions, now) =>
        RebindAllKeeps(owner, s.assignments, sessions, now, Pruned(s.live, sessions), s'.live);
      case _ =>
    }
  }

  /** The states a manager may go through. */
  ghost predicate IsRun(states: seq<State>, steps: seq<Step>) {
    && |states| == |steps| + 1
    && states[0].live == map[]
    && forall i :: 0 <= i < |steps| ==> Next(states[i], steps[i], states[i + 1])
  }

  /** Exclusivity over whole runs: as long as each session is always presented with one agent, all bindings of a
      voice belong to one agent, after any sequence of operations and any orders of iteration. */
  lemma VoicesStayExclusive(owner: string -> Agent, states: seq<State>, steps: seq<Step>, n: nat)
    requires IsRun(states, steps) && n <= |steps|
    requires forall i :: 0 <= i < |steps| ==> Consistent(owner, steps[i])
    ensures Inv(owner, states[n].live)
  {
    if n > 0 {
      VoicesStayExclusive(owner, states, steps, n - 1);
      StepKeeps(owner, states[n - 1], steps[n - 1], states[n]);
    }
  }

  // Synchronisation

  ghost predicate SessionsListed(live: Live, sessions: seq<Session>) {
    forall k :: k in live && live[k].sessionID != "" ==> Listed(sessions, live[k].sessionID)
  }

  lemma RebindAllListed(assignments: Assignments, sessions: seq<Session>, n: nat, now: int, live: Live, live': Live)
    requires n <= |sessions| && SessionsListed(live, sessions)
    requires MayRebindAll(assignments, sessions[..n], now, live, live')
    ensures SessionsListed(live', sessions)
    ensures forall k :: k in live ==> k in live'
    ensures forall k: LiveKey :: k.AgentKey? && k in live' ==> k in live && live'[k] == live[k]
  {
    if n > 0 {
      assert sessions[..n][..n - 1] == sessions[..n - 1];
      var mid :| MayRebindAll(assignments, sessions[..n - 1], now, live, mid) && MayRebind(assignments, sessions[n - 1], now, mid, live');
      RebindAllListed(assignments, sessions, n - 1, now, live, mid);
      assert live' != mid ==> Listed(sessions, sessions[n - 1].sessionID);
    }
  }

  /** After a synchronisation every binding that has a session names a listed session that is not over.
      No binding of such a session, and none without a session, is lost. */
  lemma SyncLeavesListedSessions(s: State, sessions: seq<Session>, now: int, s': State)
    requires MaySync(s, sessions, now, s')
    ensures SessionsListed(s'.live, sessions)
    ensures forall k :: k in s.live && (s.live[k].sessionID == "" || Listed(sessions, s.live[k].sessionID)) ==> k in s'.live
    ensures forall k: LiveKey :: k.AgentKey? && k in s'.live ==> k in s.live && s'.live[k] == s.live[k]
  {
    assert sessions[..|sessions|] == sessions;
    RebindAllListed(s.assignments, sessions, |sessions|, now, Pruned(s.live, sessions), s'.live);
  }

  // Why the hypothesis is needed

  /** Binding a voice leaves the voices exclusive if and only if the only binding of it by another agent, if
      there is one, is the binding that is replaced. */
  lemma BindKeepsExactlyWhen(live: Live, b: Binding)
    requires Exclusive(live)
    ensures Exclusive(live[KeyOf(b) := b]) <==> OthersAreReplaced(live, b)
  {
    var live' := live[KeyOf(b) := b];
    if OthersAreReplaced(live, b) {
      forall j, k | j in live' && k in live' && live'[j].voice == live'[k].voice
        ensures live'[j].agent == live'[k].agent
      {
        assert j != KeyOf(b) && live[j].voice == b.voice ==> Binds(live, j, b.voice);
        assert k != KeyOf(b) && live[k].voice == b.voice ==> Binds(live, k, b.voice);
      }
    } else {
      var j :| Binds(live, j, b.voice) && live[j].agent != b.agent && j != KeyOf(b);
      assert live'[j].voice == live'[KeyOf(b)].voice;
    }
  }

  ghost predicate OthersAreReplaced(live: Live, b: Binding) {
    forall j :: Binds(live, j, b.voice) && live[j].agent != b.agent ==> j == KeyOf(b)
  }

  /** One claim, with no hypothesis on who presents which session: the voices stay exclusive if and only if the
      claim fails or every binding of its voice by another agent is the one it replaces. */
  lemma ClaimKeepsExactlyWhen(s: State, req: ClaimRequest, voices: seq<string>, now: int, r: Result<Binding>, s': State)
    requires Exclusive(s.live) && MayClaim(s, req, voices, now, r, s')
    ensures Exclusive(s'.live) <==> r.Err? || OthersAreReplaced(s.live, r.value)
  {
    if r.Ok? {
      BindKeepsExactlyWhen(s.live, r.value);
    }
  }

  /** Presenting one session with two agents can leave both on one voice: the session's own binding exempts
      the second agent, while the first keeps a binding without a session. */
  lemma SharedSessionBreaksExclusivity(voice: string, a: Agent, b: Agent)
    requires voice != "" && TrimSpace(voice) == voice && a != b
    requires a.project != "" && b.project != "" && a.agentID != "" && b.agentID != ""
    requires TrimSpace(a.agentID) == a.agentID && TrimSpace(b.agentID) == b.agentID
    ensures exists states: seq<State>, steps: seq<Step> :: IsRun(states, steps) && |steps| == 3 && !Exclusive(states[3].live)
  {
    var plain := ClaimRequest(a.project, a.agentID, [], "", "", voice, false);
    var first := plain.(sessionID := "s");
    var second := ClaimRequest(b.project, b.agentID, [], "s", "", voice, false);
    assert TrimSpace("s") == "s" && TrimSpace("") == "";
    var s0 := State(map[], map[]);
    var s1 := Claimed(s0, Bound(s0, first, voice, 0), false);
    var s2 := Claimed(s1, Bound(s1, plain, voice, 0), false);
    var s3 := Claimed(s2, Bound(s2, second, voice, 0), false);
    FirstClaim(s0, first, voice);
    SecondClaim(s0, s1, first, plain, voice, a);
    ThirdClaim(s1, s2, plain, second, voice, a, b);
    var states, steps := [s0, s1, s2, s3], [Claim(first, [], 0), Claim(plain, [], 0), Claim(second, [], 0)];
    assert IsRun(states, steps) && !Exclusive(states[3].live);
  }

  lemma FirstClaim(s: State, req: ClaimRequest, voice: string)
    requires s == State(map[], map[]) && req.project != "" && Claimant(req).agentID != "" && !req.persistent
    requires TrimSpace(req.voice) == voice && voice != ""
    ensures Next(s, Claim(req, [], 0), Claimed(s, Bound(s, req, voice, 0), false))
  {
    Grants(s, req, voice);
  }

  /** The agent's claim without a session is granted beside its claim with one. */
  lemma SecondClaim(s0: State, s1: State, first: ClaimRequest, plain: ClaimRequest, voice: string, a: Agent)
    requires s0 == State(map[], map[]) && s1 == Claimed(s0, Bound(s0, first, voice, 0), false)
    requires a.project != "" && a.agentID != "" && Claimant(first) == a == Claimant(plain) && TrimSpace(plain.voice) == voice && voice != ""
    requires !plain.persistent && plain.sessionID == "" && plain.project == a.project
    ensures Next(s1, Claim(plain, [], 0), Claimed(s1, Bound(s1, plain, voice, 0), false))
  {
    var key := KeyOf(Bound(s0, first, voice, 0));
    assert Binds(s1.live, key, voice) && Decides(s1.live[key], a, "", None);
    Grants(s1, plain, voice);
  }

  /** The other agent is granted the voice on the strength of the session, which it takes over. */
  lemma ThirdClaim(s1: State, s2: State, plain: ClaimRequest, second: ClaimRequest, voice: string, a: Agent, b: Agent)
    requires s2 == Claimed(s1, Bound(s1, plain, voice, 0), false) && s1.assignments == map[]
    requires SessionKey("s") in s1.live && s1.live[SessionKey("s")].voice == voice && s1.live[SessionKey("s")].sessionID == "s"
    requires Claimant(plain) == a && plain.sessionID == "" && Claimant(second) == b && second.sessionID == "s" && a != b
    requires b.project != "" && b.agentID != "" && second.project == b.project && !second.persistent
    requires TrimSpace(second.voice) == voice && voice != "" && TrimSpace("s") == "s" && TrimSpace("") == ""
    ensures var s3 := Claimed(s2, Bound(s2, second, voice, 0), false);
            Next(s2, Claim(second, [], 0), s3) && !Exclusive(s3.live)
  {
    var key, other := SessionKey("s"), AgentKey(a);
    assert Binds(s2.live, key, voice) && Decides(s2.live[key], b, "s", None);
    Grants(s2, second, voice);
    var s3 := Claimed(s2, Bound(s2, second, voice, 0), false);
    assert s3.live[key].agent == b && s3.live[other].agent == a && s3.live[key].voice == s3.live[other].voice;
  }

  lemma Grants(s: State, req: ClaimRequest, voice: string)
    requires req.project != "" && Claimant(req).agentID != "" && !req.persistent
    requires Claimant(req) !in s.assignments && TrimSpace(req.voice) == voice && voice != ""
    requires MayAnswer(s.live, voice, Claimant(req), req.sessionID, None)
    ensures Next(s, Claim(req, [], 0), Claimed(s, Bound(s, req, voice, 0), false))
  {
    var s' := Claimed(s, Bound(s, req, voice, 0), false);
    var r := Ok(Bound(s, req, voice, 0));
    assert Settles(s, req, voice, 0, None, r, s');
    assert MayChoose(s, req, [], voice) && Concludes(s, req, voice, 0, r, s');
    assert MayClaim(s, req, [], 0, r, s');
  }

  // The manager

  class VoiceManager {
    var assignments: Assignments
    var live: Live

    /** The assignments are those loaded from the state file. */
    constructor (saved: Assignments)
      ensures Contents() == State(saved, map[])
    {
      assignments, live := saved, map[];
    }

    ghost function Contents(): State
      reads this
    {
      State(assignments, live)
    }

    method Assign(project: string, agentID: string, voice: string, now: int) returns (r: Result<Assignment>)
      modifies this
      ensures r == if project == "" then Err(ProjectRequired)
                   else if TrimSpace(agentID) == "" then Err(AgentRequired)
                   else if TrimSpace(voice) == "" then Err(VoiceRequired)
                   else Ok(Assignment(TrimSpace(voice), now))
      ensures if r.Ok? then Next(old(Contents()), Step.Assign(Agent(project, TrimSpace(agentID)), r.value), Contents())
              else Contents() == old(Contents())
    {
      var agent, v := Agent(project, TrimSpace(agentID)), TrimSpace(voice);
      if project == "" {
        return Err(ProjectRequired);
      }
      if agent.agentID == "" {
        return Err(AgentRequired);
      }
      if v == "" {
        return Err(VoiceRequired);
      }
      var assignment := Assignment(v, now);
      assignments := assignments[agent := assignment];
      return Ok(assignment);
    }

    /** The scan over the live bindings, in any order. */
    method VoiceConflict(voice: string, agent: Agent, sessionID: string) returns (answer: Option<Binding>)
      ensures MayAnswer(live, voice, agent, sessionID, answer)
    {
      var rest := live.Keys;
      while rest != {}
        invariant rest <= live.Keys
        invariant forall k :: k in live && k !in rest ==> !Binds(live, k, voice)
        decreases |rest|
      {
        var k :| k in rest;
        rest := rest - {k};
        var b := live[k];
        if b.voice == voice {
          answer := if b.agent == agent || (sessionID != "" && b.sessionID == sessionID) then None else Some(b);
          assert Binds(live, k, voice) && Decides(live[k], agent, sessionID, answer);
          return;
        }
      }
      return None;
    }

    method FirstAvailable(voices: seq<string>, agent: Agent, sessionID: string) returns (pick: string)
      ensures MayPick(live, voices, agent, sessionID, pick)
    {
      var i := 0;
      while i < |voices|
        invariant 0 <= i <= |voices|
        invariant forall p :: MayPick(live, voices[i..], agent, sessionID, p) ==> MayPick(live, voices, agent, sessionID, p)
      {
        var voice := TrimSpace(voices[i]);
        assert voices[i..][1..] == voices[i + 1..];
        if voice != "" {
          var conflict := VoiceConflict(voice, agent, sessionID);
          if conflict.None? {
            assert MayPick(live, voices[i..], agent, sessionID, voice);
            return voice;
          }
          assert conflict == Some(conflict.value);
          assert Refused(live, voice, agent, sessionID);
        }
        i := i + 1;
      }
      assert voices[i..] == [];
      return "";
    }

    method Claim(req: ClaimRequest, voices: seq<string>, now: int) returns (r: Result<Binding>)
      modifies this
      ensures MayClaim(old(Contents()), req, voices, now, r, Contents())
    {
      ghost var s := Contents();
      var named := FirstNonEmpty(req.metadata);
      var who := Agent(req.project, TrimSpace(FirstNonEmpty([req.agentID, named, req.sessionID])));
      if req.project == "" {
        return Err(ProjectRequired);
      }
      if who.agentID == "" {
        return Err(AgentRequired);
      }
      var pinned, source, voice := false, Auto, TrimSpace(req.voice);
      if who in assignments {
        voice, pinned, source := assignments[who].voice, true, Assigned;
      } else if voice != "" {
        source := Requested;
      }
      if voice == "" {
        voice := FirstAvailable(voices, who, req.sessionID);
      }
      assert MayChoose(s, req, voices, voice);
      if voice == "" {
        assert Concludes(s, req, voice, now, Err(NoVoice), s);
        return Err(NoVoice);
      }
      var conflict := VoiceConflict(voice, who, req.sessionID);
      if conflict.Some? {
        r := Err(Reserved(conflict.value.agent));
        assert Settles(s, req, voice, now, conflict, r, s);
        assert Concludes(s, req, voice, now, r, s);
        return;
      }
      var binding := Binding(who, TrimSpace(req.sessionID), TrimSpace(req.runtime), voice, pinned, source, now);
      live := live[KeyOf(binding) := binding];
      if req.persistent {
        assignments := assignments[who := Assignment(voice, now)];
      }
      r := Ok(binding);
      assert binding == Bound(s, req, voice, now);
      assert Settles(s, req, voice, now, conflict, r, Contents());
      assert Concludes(s, req, voice, now, r, Contents());
    }

    method Release(req: ReleaseRequest)
      modifies this
      ensures Contents() == old(Contents()).(live := Released(old(live), req))
    {
      var sessionID, agentID, voice := TrimSpace(req.sessionID), TrimSpace(req.agentID), TrimSpace(req.voice);
      var rest := live.Keys;
      while rest != {}
        invariant assignments == old(assignments)
        invariant rest <= live.Keys <= old(live).Keys
        invariant forall k :: k in old(live) ==> (k in live <==> k in rest || !Matches(old(live)[k], req))
        invariant forall k :: k in live ==> live[k] == old(live)[k]
        decreases |rest|
      {
        var k :| k in rest;
        rest := rest - {k};
        var b := live[k];
        if sessionID != "" && b.sessionID != sessionID {
          continue;
        }
        if req.project != "" && b.agent.project != req.project {
          continue;
        }
        if agentID != "" && b.agent.agentID != agentID {
          continue;
        }
        if voice != "" && b.voice != voice {
          continue;
        }
        live := live - {k};
      }
    }

    method SyncSessions(sessions: seq<Session>, now: int)
      modifies this
      ensures MaySync(old(Contents()), sessions, now, Contents())
    {
      var liveSessions := {};
      for i := 0 to |sessions|
        invariant unchanged(this)
        invariant forall id :: id in liveSessions <==> id != "" && Listed(sessions[..i], id)
      {
        assert sessions[..i + 1] == sessions[..i] + [sessions[i]];
        ListedSnoc(sessions[..i], sessions[i]);
        if sessions[i].sessionID != "" && !IsTerminal(sessions[i].status) {
          liveSessions := liveSessions + {sessions[i].sessionID};
        }
      }
      assert sessions[..|sessions|] == sessions;
      Prune(liveSessions);
      assert live == Pruned(old(live), sessions);
      for i := 0 to |sessions|
        invariant assignments == old(assignments)
        invariant MayRebindAll(assignments, sessions[..i], now, Pruned(old(live), sessions), live)
      {
        ghost var mid := live;
        Rebind(sessions[i], now);
        MayRebindAllSnoc(assignments, sessions[..i], sessions[i], now, Pruned(old(live), sessions), mid, live);
        assert sessions[..i + 1] == sessions[..i] + [sessions[i]];
      }
    }

    method Prune(liveSessions: set<string>)
      modifies this
      ensures assignments == old(assignments)
      ensures live == map k | k in old(live) && (old(live)[k].sessionID == "" || old(live)[k].sessionID in liveSessions) :: old(live)[k]
    {
      var rest := live.Keys;
      while rest != {}
        invariant assignments == old(assignments)
        invariant rest <= live.Keys <= old(live).Keys
        invariant forall k :: k in old(live) ==>
                    (k in live <==> k in rest || old(live)[k].sessionID == "" || old(live)[k].sessionID in liveSessions)
        invariant forall k :: k in live ==> live[k] == old(live)[k]
        decreases |rest|
      {
        var k :| k in rest;
        rest := rest - {k};
        if live[k].sessionID != "" && live[k].sessionID !in liveSessions {
          live := live - {k};
        }
      }
    }

    method Rebind(session: Session, now: int)
      modifies this
      ensures assignments == old(assignments)
      ensures MayRebind(assignments, session, now, old(live), live)
    {
      if session.sessionID == "" || IsTerminal(session.status) || session.agent.agentID == "" || session.agent !in assignments {
        return;
      }
      var voice := assignments[session.agent].voice;
      var conflict := VoiceConflict(voice, session.agent, session.sessionID);
      if conflict.Some? {
        assert conflict == Some(conflict.value);
        assert Refused(live, voice, session.agent, session.sessionID);
        return;
      }
      var binding := Binding(session.agent, session.sessionID, session.runtime, voice, true, Assigned, now);
      live := live[KeyOf(binding) := binding];
    }
  }

  lemma ListedSnoc(sessions: seq<Session>, session: Session)
    ensures forall id :: Listed(sessions + [session], id) <==>
              Listed(sessions, id) || (session.sessionID == id && !IsTerminal(session.status))
  {
    var all := sessions + [session];
    forall id
      ensures Listed(all, id) <==> Listed(sessions, id) || (session.sessionID == id && !IsTerminal(session.status))
    {
      if Listed(sessions, id) {
        var i :| 0 <= i < |sessions| && sessions[i].sessionID == id && !IsTerminal(sessions[i].status);
        assert all[i] == sessions[i];
      }
      assert all[|sessions|] == session;
    }
  }
}
