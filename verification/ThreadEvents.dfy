/** Which turn an event of a thread belongs to: its own turn id, or a synthetic one numbered as the events of
    its scope are read. */
module ThreadEvents {
  import opened Text
  import opened TextProperties
  import opened Lists
  import opened Segments

  datatype EventType =
    | TurnStarted | TurnCompleted | TurnErrored | SessionErrored | TurnInterrupted
    | MessageDelta | ThoughtDelta | ToolCompleted | ToolErrored | OtherType

  datatype PartKind = TextPart | ReasoningPart | OtherPart

  datatype Part = Part(kind: PartKind, text: string)

  /** A stored event: its own columns, the runtime event it wraps (kind and session ids), and what is extracted
      from that event's payload. */
  datatype ThreadEvent = ThreadEvent(
    threadID: string, recordedAt: int, eventType: EventType, summary: string, turnID: string, requestID: string,
    innerType: EventType, sessionID: string, providerID: string,
    delta: string, finalText: string, errorText: string, inputText: string, inputParts: seq<Part>,
    tools: seq<string>, toolText: string, toolCallID: string, toolName: string)

  function OwnID(e: ThreadEvent): string {
    TrimSpace(e.turnID)
  }

  function ScopeOf(e: ThreadEvent): string {
    FirstNonEmpty([e.threadID, e.sessionID, e.providerID])
  }

  predicate Starts(e: ThreadEvent) {
    e.eventType.TurnStarted?
  }

  /** contract.IsTerminalTurnEvent looks at the wrapped event, the interruption test at the stored column. */
  predicate Ends(e: ThreadEvent) {
    e.innerType.TurnCompleted? || e.innerType.TurnErrored? || e.innerType.SessionErrored? || e.eventType.TurnInterrupted?
  }

  /** An event without a turn id of its own takes a number in its scope. */
  function MarkOf(e: ThreadEvent): Mark {
    Mark(if OwnID(e) != "" then "" else ScopeOf(e), Starts(e), Ends(e))
  }

  function Marks(events: seq<ThreadEvent>): seq<Mark> {
    seq(|events|, i requires 0 <= i < |events| => MarkOf(events[i]))
  }

  lemma MarksAt(events: seq<ThreadEvent>, n: nat)
    requires n <= |events|
    ensures Marks(events)[..n] == Marks(events[..n])
  {
  }

  function Synthetic(scope: string, n: nat): string {
    scope + ":synthetic-turn-" + Decimal(n)
  }

  /** The turn of the event read in a given state; "" when it has none. */
  function LabelIn(st: Numbering, e: ThreadEvent): string {
    if OwnID(e) != "" then OwnID(e)
    else if ScopeOf(e) == "" then ""
    else Synthetic(ScopeOf(e), NumberOf(st, MarkOf(e)))
  }

  function LabelAt(events: seq<ThreadEvent>, i: nat): string
    requires i < |events|
  {
    LabelIn(After(Marks(events[..i])), events[i])
  }

  lemma SyntheticInjective(s: string, t: string, m: nat, n: nat)
    ensures Synthetic(s, m) == Synthetic(t, n) <==> s == t && m == n
  {
    if Synthetic(s, m) == Synthetic(t, n) {
      SyntheticParts(s, t, m, n);
    }
  }

  lemma SyntheticParts(s: string, t: string, m: nat, n: nat)
    requires Synthetic(s, m) == Synthetic(t, n)
    ensures s == t && m == n
  {
    var a, b := s + ":synthetic-turn", t + ":synthetic-turn";
    assert Synthetic(s, m) == a + ['-'] + Decimal(m) && Synthetic(t, n) == b + ['-'] + Decimal(n);
    NumberedSuffix(a, b, '-', m, n);
    assert s == a[..|s|] && t == b[..|t|];
  }

  /** Events without an id share a turn exactly when they are in one segment of one scope. So within a scope each
      synthetic turn is a contiguous run of those events, with a start only at its head and nothing after its
      end, and different scopes never share one. */
  lemma SyntheticTurnsAreSegments(events: seq<ThreadEvent>, i: nat, j: nat)
    requires i < j < |events|
    requires MarkOf(events[i]).scope != "" && MarkOf(events[j]).scope != ""
    ensures |Marks(events)| == |events|
    ensures LabelAt(events, i) == LabelAt(events, j) <==> SameSegment(Marks(events), i, j)
  {
    LabelIsNumber(events, i);
    LabelIsNumber(events, j);
    LabelsMarkSegments(Marks(events), i, j);
  }

  lemma LabelsMarkSegments(marks: seq<Mark>, i: nat, j: nat)
    requires i < j < |marks| && marks[i].scope != "" && marks[j].scope != ""
    ensures Synthetic(marks[i].scope, NumberAt(marks, i)) == Synthetic(marks[j].scope, NumberAt(marks, j)) <==> SameSegment(marks, i, j)
  {
    NumbersMarkSegments(marks, i, j);
    SyntheticInjective(marks[i].scope, marks[j].scope, NumberAt(marks, i), NumberAt(marks, j));
  }

  lemma LabelIsNumber(events: seq<ThreadEvent>, i: nat)
    requires i < |events| && MarkOf(events[i]).scope != ""
    ensures |Marks(events)| == |events| && Marks(events)[i] == MarkOf(events[i])
    ensures LabelAt(events, i) == Synthetic(Marks(events)[i].scope, NumberAt(Marks(events), i))
  {
    MarksAt(events, i);
  }

  /** No event names a synthetic turn as its own. */
  ghost predicate OwnIDsAreReal(events: seq<ThreadEvent>) {
    forall i, scope, n: nat :: 0 <= i < |events| && OwnID(events[i]) != "" ==> OwnID(events[i]) != Synthetic(scope, n)
  }

  /** Then an event with an id shares a turn only with events of that id. */
  lemma RealTurnsAreByID(events: seq<ThreadEvent>, i: nat, j: nat)
    requires i < |events| && j < |events| && OwnIDsAreReal(events) && OwnID(events[i]) != "" && LabelAt(events, j) != ""
    ensures LabelAt(events, i) == LabelAt(events, j) <==> OwnID(events[j]) == OwnID(events[i])
  {
    if OwnID(events[j]) == "" {
      LabelIsNumber(events, j);
      assert LabelAt(events, j) == Synthetic(Marks(events)[j].scope, NumberAt(Marks(events), j));
    }
  }

  // From the events

  /** The events that are numbered: those without a turn id that name a thread or a session. */
  predicate IsUnnamed(e: ThreadEvent) {
    TrimSpace(e.turnID) == "" && (TrimSpace(e.threadID) != "" || TrimSpace(e.sessionID) != "" || TrimSpace(e.providerID) != "")
  }

  /** The thread of an event, or else its session, or else its provider's session. */
  function Place(e: ThreadEvent): string {
    if TrimSpace(e.threadID) != "" then TrimSpace(e.threadID)
    else if TrimSpace(e.sessionID) != "" then TrimSpace(e.sessionID)
    else TrimSpace(e.providerID)
  }

  lemma MarkIs(e: ThreadEvent)
    ensures MarkOf(e).scope != "" <==> IsUnnamed(e)
    ensures IsUnnamed(e) ==> MarkOf(e).scope == Place(e)
    ensures MarkOf(e).starts <==> e.eventType.TurnStarted?
    ensures MarkOf(e).ends <==> e.innerType.TurnCompleted? || e.innerType.TurnErrored? || e.innerType.SessionErrored? || e.eventType.TurnInterrupted?
  {
    FirstOfThree(e.threadID, e.sessionID, e.providerID);
  }

  /** Event k is one of those without a turn id at this place. */
  predicate IsAt(events: seq<ThreadEvent>, k: nat, place: string)
    requires k < |events|
  {
    IsUnnamed(events[k]) && Place(events[k]) == place
  }

  predicate Begins(e: ThreadEvent) {
    e.eventType.TurnStarted?
  }

  predicate Finishes(e: ThreadEvent) {
    e.innerType.TurnCompleted? || e.innerType.TurnErrored? || e.innerType.SessionErrored? || e.eventType.TurnInterrupted?
  }

  /** Two events without a turn id are of one turn exactly when they are at one place, and there no such event after the
      first, up to the second, begins a turn, and none from the first on, before the second, finishes one. */
  lemma UnnamedEventsShareATurn(events: seq<ThreadEvent>, i: nat, j: nat)
    requires i < j < |events| && IsUnnamed(events[i]) && IsUnnamed(events[j])
    ensures LabelAt(events, i) == LabelAt(events, j) <==>
            && Place(events[i]) == Place(events[j])
            && (forall k :: i < k <= j && IsAt(events, k, Place(events[i])) ==> !Begins(events[k]))
            && (forall k :: i <= k < j && IsAt(events, k, Place(events[i])) ==> !Finishes(events[k]))
  {
    var marks := Marks(events);
    forall k | 0 <= k < |events|
      ensures marks[k].scope == marks[i].scope <==> IsAt(events, k, Place(events[i]))
      ensures marks[k].starts <==> Begins(events[k])
      ensures marks[k].ends <==> Finishes(events[k])
    {
      MarkIs(events[k]);
      MarkIs(events[i]);
    }
    MarkIs(events[i]);
    MarkIs(events[j]);
    SyntheticTurnsAreSegments(events, i, j);
  }
}
