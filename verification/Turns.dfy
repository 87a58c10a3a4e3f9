/** Deriving the turns of a thread from its event log. */
module Turns {
  import opened Text
  import opened Lists
  import opened Segments
  import opened ThreadEvents
  import Demux

  datatype Role = UserRole | AssistantRole | ToolRole

  datatype Message = Message(role: Role, parts: seq<Part>, toolCalls: seq<string>, toolCallID: string, name: string)

  datatype Status = TurnRunning | TurnDone | TurnFailed | TurnStopped

  datatype Turn = Turn(
    id: string, status: Status, summary: string, assistantText: string, reasoningText: string, messages: seq<Message>,
    startedAt: int, completedAt: int, eventCount: nat, requestIDs: seq<string>)

  function NewTurn(id: string, at: int): Turn {
    Turn(id, TurnRunning, "", "", "", [], at, 0, 0, [])
  }

  // Messages

  predicate HasRole(messages: seq<Message>, role: Role) {
    exists i :: 0 <= i < |messages| && messages[i].role == role
  }

  predicate HasAssistantParts(messages: seq<Message>) {
    exists i :: 0 <= i < |messages| && messages[i].role.AssistantRole? && messages[i].parts != []
  }

  function AssistantMessage(): Message {
    Message(AssistantRole, [], [], "", "")
  }

  /** A text joins the last part of the last message when that message is the assistant's and the part is of the
      same kind. The text is trimmed first. */
  function WithPart(messages: seq<Message>, kind: PartKind, raw: string): seq<Message> {
    var text := TrimSpace(raw);
    if text == "" then messages
    else if messages == [] || !messages[|messages| - 1].role.AssistantRole? then
      messages + [AssistantMessage().(parts := [Part(kind, text)])]
    else
      var n := |messages| - 1;
      messages[n := messages[n].(parts := Joined(messages[n].parts, kind, text))]
  }

  function Joined(parts: seq<Part>, kind: PartKind, text: string): seq<Part> {
    if parts != [] && parts[|parts| - 1].kind == kind then
      parts[|parts| - 1 := Part(kind, parts[|parts| - 1].text + text)]
    else parts + [Part(kind, text)]
  }

  /** The place of the last message of a role, or -1. */
  function LastOfRole(messages: seq<Message>, role: Role): (i: int)
    ensures -1 <= i < |messages|
    ensures i >= 0 ==> messages[i].role == role
    ensures forall k :: i < k < |messages| ==> messages[k].role != role
  {
    if messages == [] then -1
    else if messages[|messages| - 1].role == role then |messages| - 1
    else LastOfRole(messages[..|messages| - 1], role)
  }

  function WithToolCalls(messages: seq<Message>, tools: seq<string>): seq<Message> {
    if tools == [] then messages
    else
      var i := LastOfRole(messages, AssistantRole);
      if i < 0 then messages + [AssistantMessage().(toolCalls := tools)]
      else messages[i := messages[i].(toolCalls := messages[i].toolCalls + tools)]
  }

  function TrimStarted(summary: string): string {
    if "Started turn: " <= summary then summary[14..] else summary
  }

  /** What the user said, as far as the start of the turn tells. */
  function PromptParts(e: ThreadEvent): seq<Part> {
    var parts := (if e.inputText != "" then [Part(TextPart, e.inputText)] else []) + e.inputParts;
    if parts != [] then parts
    else if TrimSpace(TrimStarted(e.summary)) != "" then [Part(TextPart, TrimSpace(TrimStarted(e.summary)))]
    else []
  }

  // One event of a turn, in the order in which its effects are made

  function Counted(t: Turn, e: ThreadEvent): Turn {
    t.(eventCount := t.eventCount + 1,
       requestIDs := if e.requestID != "" && e.requestID !in t.requestIDs then t.requestIDs + [e.requestID] else t.requestIDs)
  }

  function Prompted(t: Turn, e: ThreadEvent): Turn {
    if e.eventType.TurnStarted? && PromptParts(e) != [] && !HasRole(t.messages, UserRole) then
      t.(messages := t.messages + [Message(UserRole, PromptParts(e), [], "", "")])
    else t
  }

  predicate HasDelta(e: ThreadEvent) {
    (e.innerType.MessageDelta? || e.innerType.ThoughtDelta?) && e.delta != ""
  }

  function Spoken(t: Turn, e: ThreadEvent): Turn {
    if !HasDelta(e) then t
    else if e.eventType.ThoughtDelta? then
      t.(reasoningText := t.reasoningText + e.delta, messages := WithPart(t.messages, ReasoningPart, e.delta))
    else
      t.(assistantText := t.assistantText + e.delta, messages := WithPart(t.messages, TextPart, e.delta))
  }

  function Concluded(t: Turn, e: ThreadEvent): Turn {
    if e.finalText == "" then t
    else
      t.(assistantText := e.finalText,
         messages := if HasAssistantParts(t.messages) then t.messages else WithPart(t.messages, TextPart, e.finalText))
  }

  function Tooled(t: Turn, e: ThreadEvent): Turn {
    var calls := if e.eventType.TurnCompleted? then WithToolCalls(t.messages, e.tools) else t.messages;
    t.(messages :=
         if (e.eventType.ToolCompleted? || e.eventType.ToolErrored?) && e.toolText != "" then
           calls + [Message(ToolRole, [Part(TextPart, e.toolText)], [], e.toolCallID, e.toolName)]
         else calls)
  }

  /** The status an event gives to its turn, if any. */
  function Verdict(e: ThreadEvent): Option<Status> {
    match e.eventType
    case TurnCompleted => Some(TurnDone)
    case TurnErrored | SessionErrored => Some(TurnFailed)
    case TurnInterrupted => Some(TurnStopped)
    case _ => None
  }

  function Closed(t: Turn, e: ThreadEvent): Turn {
    if Verdict(e).None? then t
    else
      t.(status := Verdict(e).value, completedAt := e.recordedAt,
         summary := FirstNonEmpty(if Verdict(e).value.TurnFailed? then [e.errorText, e.summary, t.summary] else [e.summary, t.summary]))
  }

  function Updated(t: Turn, e: ThreadEvent): Turn {
    Closed(Tooled(Concluded(Spoken(Prompted(Counted(t, e), e), e), e), e), e)
  }

  /** An event's effect on its turn, which the first event begins. */
  function Absorb(id: string, t: Option<Turn>, e: ThreadEvent): Turn {
    Updated(if t.Some? then t.value else NewTurn(id, e.recordedAt), e)
  }

  /** A turn made of its own events alone. */
  function TurnOf(id: string, own: seq<ThreadEvent>): Turn
    requires own != []
  {
    if |own| == 1 then Updated(NewTurn(id, own[0].recordedAt), own[0])
    else Updated(TurnOf(id, own[..|own| - 1]), own[|own| - 1])
  }

  /** What is added when a turn is put out: the prompt, if the turn only has a summary; and the texts, if no
      assistant message holds them. */
  function Presented(t: Turn): Turn {
    var prompted :=
      if !HasRole(t.messages, UserRole) && t.summary != "" then
        [Message(UserRole, [Part(TextPart, TrimStarted(t.summary))], [], "", "")] + t.messages
      else t.messages;
    t.(messages :=
         if HasRole(prompted, AssistantRole) then prompted
         else
           var reasoned := if t.reasoningText != "" then WithPart(prompted, ReasoningPart, t.reasoningText) else prompted;
           if t.assistantText != "" then WithPart(reasoned, TextPart, t.assistantText) else reasoned)
  }

  // Properties of a turn, from its own events

  function StatusOf(own: seq<ThreadEvent>): Status {
    if own == [] then TurnRunning
    else
      var last := own[|own| - 1];
      if Verdict(last).Some? then Verdict(last).value else StatusOf(own[..|own| - 1])
  }

  /** The last final text, followed by the message deltas after it. */
  function TextOf(own: seq<ThreadEvent>): string {
    if own == [] then ""
    else
      var last := own[|own| - 1];
      if last.finalText != "" then last.finalText
      else TextOf(own[..|own| - 1]) + if HasDelta(last) && !last.eventType.ThoughtDelta? then last.delta else ""
  }

  function RequestsOf(own: seq<ThreadEvent>): seq<string> {
    if own == [] then []
    else RequestsOf(own[..|own| - 1]) + if own[|own| - 1].requestID != "" then [own[|own| - 1].requestID] else []
  }

  lemma UpdatedFields(t: Turn, e: ThreadEvent)
    ensures Updated(t, e).eventCount == t.eventCount + 1 && Updated(t, e).id == t.id && Updated(t, e).startedAt == t.startedAt
    ensures Updated(t, e).status == if Verdict(e).Some? then Verdict(e).value else t.status
    ensures Updated(t, e).assistantText ==
            if e.finalText != "" then e.finalText
            else t.assistantText + if HasDelta(e) && !e.eventType.ThoughtDelta? then e.delta else ""
    ensures Updated(t, e).requestIDs == Counted(t, e).requestIDs
  {
  }

  /** A turn's count, status, text and request ids are what its own events say: how many there are, how the last
      closing one ended, the last final text with what was said since, and the ids without repetitions. */
  lemma {:induction false} TurnShowsItsEvents(id: string, own: seq<ThreadEvent>)
    requires own != []
    ensures TurnOf(id, own).eventCount == |own|
    ensures TurnOf(id, own).id == id && TurnOf(id, own).startedAt == own[0].recordedAt
    ensures TurnOf(id, own).status == StatusOf(own)
    ensures TurnOf(id, own).assistantText == TextOf(own)
    ensures TurnOf(id, own).requestIDs == Dedup(RequestsOf(own))
  {
    var init, last := own[..|own| - 1], own[|own| - 1];
    DedupSnoc(RequestsOf(init), last.requestID);
    assert RequestsOf(init) + [] == RequestsOf(init);
    if init == [] {
      UpdatedFields(NewTurn(id, last.recordedAt), last);
      assert "" + last.delta == last.delta;
    } else {
      TurnShowsItsEvents(id, init);
      UpdatedFields(TurnOf(id, init), last);
    }
  }

  function UserMessages(messages: seq<Message>): nat {
    if messages == [] then 0
    else UserMessages(messages[..|messages| - 1]) + if messages[|messages| - 1].role.UserRole? then 1 else 0
  }

  lemma UserMessagesSnoc(messages: seq<Message>, m: Message)
    ensures UserMessages(messages + [m]) == UserMessages(messages) + if m.role.UserRole? then 1 else 0
  {
    assert (messages + [m])[..|messages|] == messages;
  }

  lemma {:induction false} UserMessagesCount(messages: seq<Message>)
    ensures UserMessages(messages) > 0 <==> HasRole(messages, UserRole)
  {
    if messages != [] {
      var init := messages[..|messages| - 1];
      UserMessagesCount(init);
      if HasRole(init, UserRole) {
        var i :| 0 <= i < |init| && init[i].role == UserRole;
        assert messages[i].role == UserRole;
      }
    }
  }

  lemma {:induction false} UserMessagesUpdate(messages: seq<Message>, i: nat, m: Message)
    requires i < |messages| && messages[i].role == m.role
    ensures UserMessages(messages[i := m]) == UserMessages(messages)
  {
    var n := |messages| - 1;
    if i < n {
      assert messages[i := m][..n] == messages[..n][i := m];
      UserMessagesUpdate(messages[..n], i, m);
    } else {
      assert messages[i := m][..n] == messages[..n];
    }
  }

  lemma WithPartKeepsUsers(messages: seq<Message>, kind: PartKind, raw: string)
    ensures UserMessages(WithPart(messages, kind, raw)) == UserMessages(messages)
  {
    var text := TrimSpace(raw);
    if text != "" {
      if messages == [] || !messages[|messages| - 1].role.AssistantRole? {
        UserMessagesSnoc(messages, AssistantMessage().(parts := [Part(kind, text)]));
      } else {
        var n := |messages| - 1;
        UserMessagesUpdate(messages, n, messages[n].(parts := Joined(messages[n].parts, kind, text)));
      }
    }
  }

  lemma WithToolCallsKeepsUsers(messages: seq<Message>, tools: seq<string>)
    ensures UserMessages(WithToolCalls(messages, tools)) == UserMessages(messages)
  {
    if tools != [] {
      var i := LastOfRole(messages, AssistantRole);
      if i < 0 {
        UserMessagesSnoc(messages, AssistantMessage().(toolCalls := tools));
      } else {
        UserMessagesUpdate(messages, i, messages[i].(toolCalls := messages[i].toolCalls + tools));
      }
    }
  }

  lemma PromptedUsers(t: Turn, e: ThreadEvent)
    requires UserMessages(t.messages) <= 1
    ensures UserMessages(Prompted(t, e).messages) <= 1
  {
    UserMessagesCount(t.messages);
    UserMessagesSnoc(t.messages, Message(UserRole, PromptParts(e), [], "", ""));
  }

  lemma SpokenUsers(t: Turn, e: ThreadEvent)
    ensures UserMessages(Spoken(t, e).messages) == UserMessages(t.messages)
  {
    WithPartKeepsUsers(t.messages, ReasoningPart, e.delta);
    WithPartKeepsUsers(t.messages, TextPart, e.delta);
  }

  lemma ConcludedUsers(t: Turn, e: ThreadEvent)
    ensures UserMessages(Concluded(t, e).messages) == UserMessages(t.messages)
  {
    WithPartKeepsUsers(t.messages, TextPart, e.finalText);
  }

  lemma TooledUsers(t: Turn, e: ThreadEvent)
    ensures UserMessages(Tooled(t, e).messages) == UserMessages(t.messages)
  {
    WithToolCallsKeepsUsers(t.messages, e.tools);
    var calls := if e.eventType.TurnCompleted? then WithToolCalls(t.messages, e.tools) else t.messages;
    UserMessagesSnoc(calls, Message(ToolRole, [Part(TextPart, e.toolText)], [], e.toolCallID, e.toolName));
  }

  lemma UpdatedUsers(t: Turn, e: ThreadEvent)
    requires UserMessages(t.messages) <= 1
    ensures UserMessages(Updated(t, e).messages) <= 1
  {
    var counted := Counted(t, e);
    PromptedUsers(counted, e);
    var prompted := Prompted(counted, e);
    SpokenUsers(prompted, e);
    var spoken := Spoken(prompted, e);
    ConcludedUsers(spoken, e);
    TooledUsers(Concluded(spoken, e), e);
  }

  /** However many starts a turn's events hold, it gets at most one user message. */
  lemma {:induction false} OneUserMessage(id: string, own: seq<ThreadEvent>)
    requires own != []
    ensures UserMessages(TurnOf(id, own).messages) <= 1
  {
    var init, last := own[..|own| - 1], own[|own| - 1];
    if init == [] {
      UpdatedUsers(NewTurn(id, last.recordedAt), last);
    } else {
      OneUserMessage(id, init);
      UpdatedUsers(TurnOf(id, init), last);
    }
  }

  lemma {:induction false} UserMessagesCons(m: Message, messages: seq<Message>)
    ensures UserMessages([m] + messages) == UserMessages(messages) + if m.role.UserRole? then 1 else 0
  {
    if messages == [] {
      assert [m] + messages == [] + [m];
      UserMessagesSnoc([], m);
    } else {
      var n := |messages| - 1;
      UserMessagesCons(m, messages[..n]);
      assert [m] + messages == ([m] + messages[..n]) + [messages[n]];
      UserMessagesSnoc([m] + messages[..n], messages[n]);
    }
  }

  /** And when it is put out it has exactly one, if its start gave a prompt or its end a summary. */
  lemma PresentedUsers(t: Turn)
    requires UserMessages(t.messages) <= 1
    ensures UserMessages(Presented(t).messages) == if UserMessages(t.messages) == 1 || t.summary != "" then 1 else 0
  {
    UserMessagesCount(t.messages);
    UserMessagesCons(Message(UserRole, [Part(TextPart, TrimStarted(t.summary))], [], "", ""), t.messages);
    var prompted :=
      if !HasRole(t.messages, UserRole) && t.summary != "" then
        [Message(UserRole, [Part(TextPart, TrimStarted(t.summary))], [], "", "")] + t.messages
      else t.messages;
    WithPartKeepsUsers(prompted, ReasoningPart, t.reasoningText);
    var reasoned := if t.reasoningText != "" then WithPart(prompted, ReasoningPart, t.reasoningText) else prompted;
    WithPartKeepsUsers(reasoned, TextPart, t.assistantText);
  }

  // The demultiplexer

  /** The turn ids of the events, in order; "" for an event that belongs to no turn. */
  function Labels(events: seq<ThreadEvent>): seq<string> {
    seq(|events|, i requires 0 <= i < |events| => LabelAt(events, i))
  }

  /** The events of one turn, in order. */
  function OwnEvents(events: seq<ThreadEvent>, id: string): seq<ThreadEvent> {
    Demux.Own(Labels(events), events, id)
  }

  /** The turns of a log, built while reading the events of all of them mixed together. */
  function TurnsOf(events: seq<ThreadEvent>): map<string, Turn> {
    Demux.Table(Absorb, Labels(events), events)
  }

  function Order(events: seq<ThreadEvent>): seq<string> {
    Demux.Order(Labels(events))
  }

  lemma {:induction false} FoldIsTurn(id: string, own: seq<ThreadEvent>)
    ensures Demux.Fold(Absorb, id, own) == if own == [] then None else Some(TurnOf(id, own))
  {
    if own != [] {
      FoldIsTurn(id, own[..|own| - 1]);
      assert |own| == 1 ==> own[..|own| - 1] == [];
    }
  }

  /** The derivation is a demultiplexer: the turn it builds under an id is the fold of that turn's own events
      alone, in order; and there is one exactly for the ids that have events. */
  lemma TurnsAreFoldsOfOwnEvents(events: seq<ThreadEvent>, id: string)
    requires id != ""
    ensures id in TurnsOf(events) <==> OwnEvents(events, id) != []
    ensures id in TurnsOf(events) ==> TurnsOf(events)[id] == TurnOf(id, OwnEvents(events, id))
  {
    Demux.TableIsFolds(Absorb, Labels(events), events, id);
    FoldIsTurn(id, OwnEvents(events, id));
  }

  /** Turns are listed once each, in the order in which they first occur. */
  lemma TurnsAreListedOnce(events: seq<ThreadEvent>)
    ensures Order(events) == Dedup(Demux.NonEmpty(Labels(events)))
    ensures Distinct(Order(events)) && "" !in Order(events)
    ensures forall id :: id in Order(events) <==> id in TurnsOf(events)
  {
    Demux.OrderIsDedup(Labels(events));
    Demux.OrderIsOnce(Labels(events));
    Demux.OrderIsOfTable(Absorb, Labels(events), events);
  }

  function CountSum(order: seq<string>, turns: map<string, Turn>): int
    requires forall id :: id in order ==> id in turns
  {
    if order == [] then 0
    else
      assert order == order[..|order| - 1] + [order[|order| - 1]];
      CountSum(order[..|order| - 1], turns) + turns[order[|order| - 1]].eventCount
  }

  lemma {:induction false} CountSumIsOwnSum(order: seq<string>, events: seq<ThreadEvent>)
    requires forall id :: id in order ==> id != "" && id in TurnsOf(events)
    ensures CountSum(order, TurnsOf(events)) == Demux.OwnSum(order, Labels(events), events)
  {
    if order != [] {
      var n := |order| - 1;
      assert order == order[..n] + [order[n]];
      assert forall id :: id in order[..n] ==> id in order;
      CountSumIsOwnSum(order[..n], events);
      assert order[n] in order;
      OwnCount(events, order[n]);
    }
  }

  lemma OwnCount(events: seq<ThreadEvent>, id: string)
    requires id != "" && id in TurnsOf(events)
    ensures TurnsOf(events)[id].eventCount == |Demux.Own(Labels(events), events, id)|
  {
    TurnsAreFoldsOfOwnEvents(events, id);
    TurnShowsItsEvents(id, OwnEvents(events, id));
  }

  /** The event counts of the turns add up to the number of events that belong to a turn. */
  lemma EventsAddUp(events: seq<ThreadEvent>)
    ensures forall id :: id in Order(events) ==> id in TurnsOf(events)
    ensures CountSum(Order(events), TurnsOf(events)) == |Demux.NonEmpty(Labels(events))|
  {
    TurnsAreListedOnce(events);
    CountSumIsOwnSum(Order(events), events);
    Demux.ItemsAddUp(Labels(events), events);
  }

  // The derivation

  /** A turn being built: the fields are updated in place, event by event. */
  class ThreadTurn {
    var id: string
    var status: Status
    var summary: string
    var assistantText: string
    var reasoningText: string
    var messages: seq<Message>
    var startedAt: int
    var completedAt: int
    var eventCount: nat
    var requestIDs: seq<string>

    ghost function Value(): Turn
      reads this
    {
      Turn(id, status, summary, assistantText, reasoningText, messages, startedAt, completedAt, eventCount, requestIDs)
    }

    constructor (turnID: string, at: int)
      ensures Value() == NewTurn(turnID, at)
    {
      id, status, summary, assistantText, reasoningText := turnID, TurnRunning, "", "", "";
      messages, startedAt, completedAt, eventCount, requestIDs := [], at, 0, 0, [];
    }

    method AppendAssistantPart(kind: PartKind, raw: string)
      modifies this`messages
      ensures messages == WithPart(old(messages), kind, raw)
    {
      var text := TrimSpace(raw);
      if text == "" {
        return;
      }
      if |messages| == 0 || !messages[|messages| - 1].role.AssistantRole? {
        messages := messages + [AssistantMessage()];
      }
      var n := |messages| - 1;
      var parts := messages[n].parts;
      if |parts| > 0 && parts[|parts| - 1].kind == kind {
        var last := parts[|parts| - 1];
        parts := parts[|parts| - 1 := last.(text := last.text + text)];
      } else {
        parts := parts + [Part(kind, text)];
      }
      assert [] + [Part(kind, text)] == [Part(kind, text)];
      assert parts == Joined(messages[n].parts, kind, text);
      ghost var before := messages;
      messages := messages[n := messages[n].(parts := parts)];
      assert before == old(messages) + [AssistantMessage()] ==>
          messages == old(messages) + [AssistantMessage().(parts := [Part(kind, text)])];
    }

    method AppendToolCalls(tools: seq<string>)
      modifies this`messages
      ensures messages == WithToolCalls(old(messages), tools)
    {
      if |tools| == 0 {
        return;
      }
      var i := LastOfRole(messages, AssistantRole);
      if i < 0 {
        messages := messages + [AssistantMessage()];
        i := |messages| - 1;
      }
      ghost var before := messages;
      messages := messages[i := messages[i].(toolCalls := messages[i].toolCalls + tools)];
      assert [] + tools == tools;
      assert before == old(messages) + [AssistantMessage()] ==>
          messages == old(messages) + [AssistantMessage().(toolCalls := tools)];
    }

    method Count(e: ThreadEvent)
      modifies this`eventCount, this`requestIDs
      ensures Value() == Counted(old(Value()), e)
    {
      eventCount := eventCount + 1;
      if e.requestID != "" && e.requestID !in requestIDs {
        requestIDs := requestIDs + [e.requestID];
      }
    }

    method Hear(e: ThreadEvent)
      modifies this`messages, this`reasoningText, this`assistantText
      ensures Value() == Concluded(Spoken(Prompted(old(Value()), e), e), e)
    {
      if e.eventType.TurnStarted? {
        var parts := PromptParts(e);
        if parts != [] && !HasRole(messages, UserRole) {
          messages := messages + [Message(UserRole, parts, [], "", "")];
        }
      }
      assert Value() == Prompted(old(Value()), e);
      if (e.innerType.MessageDelta? || e.innerType.ThoughtDelta?) && e.delta != "" {
        if e.eventType.ThoughtDelta? {
          reasoningText := reasoningText + e.delta;
          AppendAssistantPart(ReasoningPart, e.delta);
        } else {
          assistantText := assistantText + e.delta;
          AppendAssistantPart(TextPart, e.delta);
        }
      }
      assert Value() == Spoken(Prompted(old(Value()), e), e);
      if e.finalText != "" {
        assistantText := e.finalText;
        if !HasAssistantParts(messages) {
          AppendAssistantPart(TextPart, e.finalText);
        }
      }
    }

    method UseTools(e: ThreadEvent)
      modifies this`messages
      ensures Value() == Tooled(old(Value()), e)
    {
      if e.eventType.TurnCompleted? {
        AppendToolCalls(e.tools);
      }
      if (e.eventType.ToolCompleted? || e.eventType.ToolErrored?) && e.toolText != "" {
        messages := messages + [Message(ToolRole, [Part(TextPart, e.toolText)], [], e.toolCallID, e.toolName)];
      }
    }

    method Close(e: ThreadEvent)
      modifies this`status, this`completedAt, this`summary
      ensures Value() == Closed(old(Value()), e)
    {
      match e.eventType {
        case TurnCompleted =>
          status, completedAt, summary := TurnDone, e.recordedAt, FirstNonEmpty([e.summary, summary]);
        case TurnErrored =>
          status, completedAt, summary := TurnFailed, e.recordedAt, FirstNonEmpty([e.errorText, e.summary, summary]);
        case SessionErrored =>
          status, completedAt, summary := TurnFailed, e.recordedAt, FirstNonEmpty([e.errorText, e.summary, summary]);
        case TurnInterrupted =>
          status, completedAt, summary := TurnStopped, e.recordedAt, FirstNonEmpty([e.summary, summary]);
        case _ =>
      }
    }

    method Update(e: ThreadEvent)
      modifies this
      ensures Value() == Updated(old(Value()), e)
    {
      Count(e);
      Hear(e);
      UseTools(e);
      Close(e);
    }

    /** The finishing touches before the turn is put out. */
    method Present() returns (t: Turn)
      modifies this`messages
      ensures t == Value() == Presented(old(Value()))
    {
      if !HasRole(messages, UserRole) && summary != "" {
        messages := [Message(UserRole, [Part(TextPart, TrimStarted(summary))], [], "", "")] + messages;
      }
      if !HasRole(messages, AssistantRole) {
        if reasoningText != "" {
          AppendAssistantPart(ReasoningPart, reasoningText);
        }
        if assistantText != "" {
          AppendAssistantPart(TextPart, assistantText);
        }
      }
      t := Turn(id, status, summary, assistantText, reasoningText, messages, startedAt, completedAt, eventCount, requestIDs);
    }
  }

  // The synthetic turns that are open, by scope

  ghost predicate Spells(active: map<string, string>, st: Numbering) {
    active.Keys == st.active.Keys && forall s :: s in active ==> active[s] == Synthetic(s, st.active[s])
  }

  method ResolveTurnID(e: ThreadEvent, active: map<string, string>, issued: nat, ghost st: Numbering)
    returns (turnID: string, scope: string, active': map<string, string>, issued': nat)
    requires Spells(active, st) && issued == st.issued
    ensures turnID == LabelIn(st, e) && scope == MarkOf(e).scope
    ensures scope == "" ==> active' == active && issued' == issued
    ensures scope != "" ==>
              && issued' == Next(st, MarkOf(e)).issued
              && active'.Keys == active.Keys + {scope} && active'[scope] == turnID
              && forall s :: s in active && s != scope ==> active'[s] == active[s]
    ensures TrimSpace(e.turnID) != "" ==> turnID == TrimSpace(e.turnID) && scope == ""
    ensures scope != "" && (e.eventType.TurnStarted? || scope !in active) ==>
              issued' == issued + 1 && turnID == scope + ":synthetic-turn-" + Decimal(issued')
    ensures scope != "" && !e.eventType.TurnStarted? && scope in active ==> issued' == issued && turnID == active[scope]
  {
    active', issued' := active, issued;
    turnID, scope := TrimSpace(e.turnID), "";
    if turnID != "" {
      return;
    }
    scope := FirstNonEmpty([e.threadID, e.sessionID, e.providerID]);
    if scope == "" {
      return;
    }
    if e.eventType.TurnStarted? || scope !in active {
      issued' := issued' + 1;
      active' := active'[scope := scope + ":synthetic-turn-" + Decimal(issued')];
    }
    turnID := active'[scope];
  }

  lemma SpellsNext(st: Numbering, m: Mark, active: map<string, string>, active': map<string, string>)
    requires Spells(active, st) && m.scope != ""
    requires active'.Keys == active.Keys + {m.scope} && active'[m.scope] == Synthetic(m.scope, NumberOf(st, m))
    requires forall s :: s in active && s != m.scope ==> active'[s] == active[s]
    ensures Spells(if m.ends then active' - {m.scope} else active', Next(st, m))
  {
  }

  /** The turns under construction, by value, each in an object of its own. */
  ghost predicate Mirrors(turns: map<string, ThreadTurn>, want: map<string, Turn>)
    reads turns.Values
  {
    && turns.Keys == want.Keys
    && (forall id :: id in turns ==> turns[id].Value() == want[id])
    && (forall a, b :: a in turns && b in turns && a != b ==> turns[a] != turns[b])
  }

  method TakeEvent(turns0: map<string, ThreadTurn>, turnID: string, e: ThreadEvent, ghost want: map<string, Turn>)
    returns (turns: map<string, ThreadTurn>, created: bool)
    requires Mirrors(turns0, want)
    modifies turns0.Values
    ensures Mirrors(turns, want[turnID := Absorb(turnID, Demux.Find(want, turnID), e)])
    ensures created <==> turnID !in turns0
    ensures fresh(turns.Values - turns0.Values)
  {
    turns, created := turns0, turnID !in turns0;
    if created {
      var turn := new ThreadTurn(turnID, e.recordedAt);
      turns := turns[turnID := turn];
    }
    ghost var next := Absorb(turnID, Demux.Find(want, turnID), e);
    turns[turnID].Update(e);
    assert turns[turnID].Value() == next;
    assert forall id :: id in turns && id != turnID ==> turns[id] != turns[turnID];
  }

  ghost predicate Shows(t: Turn, built: Turn) {
    t == Presented(built)
  }

  method PresentAll(turns: map<string, ThreadTurn>, order: seq<string>, ghost want: map<string, Turn>) returns (out: seq<Turn>)
    requires Mirrors(turns, want) && Distinct(order)
    requires forall i :: 0 <= i < |order| ==> order[i] in want
    modifies turns.Values
    ensures |out| == |order| && forall i :: 0 <= i < |out| ==> Shows(out[i], want[order[i]])
  {
    out := [];
    for i := 0 to |order|
      invariant |out| == i
      invariant forall k :: 0 <= k < i ==> Shows(out[k], want[order[k]])
      invariant forall k :: i <= k < |order| ==> turns[order[k]].Value() == want[order[k]]
    {
      assert forall k :: i < k < |order| ==> turns[order[k]] != turns[order[i]];
      var t := turns[order[i]].Present();
      assert Shows(t, want[order[i]]);
      out := out + [t];
    }
  }

  method ReadEvent(turns0: map<string, ThreadTurn>, order0: seq<string>, active0: map<string, string>, issued0: nat, e: ThreadEvent,
                   ghost st: Numbering, ghost want: map<string, Turn>, ghost id: string, ghost next: map<string, Turn>)
    returns (turns: map<string, ThreadTurn>, order: seq<string>, active: map<string, string>, issued: nat)
    requires Spells(active0, st) && issued0 == st.issued && Mirrors(turns0, want)
    requires forall x :: x in order0 <==> x in want
    requires id == LabelIn(st, e) && next == (if id == "" then want else want[id := Absorb(id, Demux.Find(want, id), e)])
    modifies turns0.Values
    ensures Spells(active, Next(st, MarkOf(e))) && issued == Next(st, MarkOf(e)).issued
    ensures Mirrors(turns, next) && order == Demux.NextOrder(order0, id)
    ensures fresh(turns.Values - turns0.Values)
  {
    turns, order := turns0, order0;
    var turnID, scope;
    turnID, scope, active, issued := ResolveTurnID(e, active0, issued0, st);
    if turnID == "" {
      return;
    }
    var created;
    turns, created := TakeEvent(turns, turnID, e, want);
    if created {
      order := order + [turnID];
    }
    if scope != "" {
      SpellsNext(st, MarkOf(e), active0, active);
      if Ends(e) {
        active := active - {scope};
      }
    }
  }

  /** The turns of a log, each the fold of its own events alone, in the order in which they first occur. */
  method DeriveThreadTurns(events: seq<ThreadEvent>) returns (out: seq<Turn>)
    ensures |out| == |Order(events)|
    ensures forall i :: 0 <= i < |out| ==>
              Order(events)[i] in TurnsOf(events) && Shows(out[i], TurnsOf(events)[Order(events)[i]])
  {
    var turns: map<string, ThreadTurn> := map[];
    var order: seq<string> := [];
    var active: map<string, string> := map[];
    var issued: nat := 0;
    ghost var labels, st, want := Labels(events), NONE_OPEN, map[];
    NothingRead(events);
    for i := 0 to |events|
      invariant st == After(Marks(events[..i])) && want == Demux.Table(Absorb, labels[..i], events[..i])
      invariant order == Demux.Order(labels[..i])
      invariant Spells(active, st) && issued == st.issued
      invariant Mirrors(turns, want)
      invariant forall id :: id in turns ==> fresh(turns[id])
    {
      ghost var next := Demux.Table(Absorb, labels[..i + 1], events[..i + 1]);
      ReadNext(events, i);
      turns, order, active, issued := ReadEvent(turns, order, active, issued, events[i], st, want, labels[i], next);
      st, want := Next(st, MarkOf(events[i])), next;
    }
    assert events[..|events|] == events && labels[..|events|] == labels;
    TurnsAreListedOnce(events);
    assert forall i :: 0 <= i < |order| ==> order[i] in order;
    out := PresentAll(turns, order, want);
  }

  lemma NothingRead(events: seq<ThreadEvent>)
    ensures After(Marks(events[..0])) == NONE_OPEN
    ensures Demux.Table(Absorb, Labels(events)[..0], events[..0]) == map[] && Demux.Order(Labels(events)[..0]) == []
  {
    assert events[..0] == [] && Marks([]) == [];
  }

  /** What reading event i does to the specification's state. */
  lemma ReadNext(events: seq<ThreadEvent>, i: nat)
    requires i < |events|
    ensures var labels, id, st := Labels(events), LabelAt(events, i), After(Marks(events[..i]));
            var table := Demux.Table(Absorb, labels[..i], events[..i]);
            && labels[i] == id == LabelIn(st, events[i])
            && After(Marks(events[..i + 1])) == Next(st, MarkOf(events[i]))
            && Demux.Order(labels[..i + 1]) == Demux.NextOrder(Demux.Order(labels[..i]), id)
            && Demux.Table(Absorb, labels[..i + 1], events[..i + 1])
               == (if id == "" then table else table[id := Absorb(id, Demux.Find(table, id), events[i])])
            && forall x :: x in Demux.Order(labels[..i]) <==> x in table
  {
    TableNext(Labels(events), events, i);
    MarksNext(events, i);
  }

  lemma TableNext(labels: seq<string>, events: seq<ThreadEvent>, i: nat)
    requires |labels| == |events| && i < |events|
    ensures var table := Demux.Table(Absorb, labels[..i], events[..i]);
            && Demux.Order(labels[..i + 1]) == Demux.NextOrder(Demux.Order(labels[..i]), labels[i])
            && Demux.Table(Absorb, labels[..i + 1], events[..i + 1])
               == (if labels[i] == "" then table else table[labels[i] := Absorb(labels[i], Demux.Find(table, labels[i]), events[i])])
            && forall x :: x in Demux.Order(labels[..i]) <==> x in table
  {
    Demux.TableSnoc(Absorb, labels, events, i);
    Demux.OrderIsOfTable(Absorb, labels[..i], events[..i]);
  }

  lemma MarksNext(events: seq<ThreadEvent>, i: nat)
    requires i < |events|
    ensures After(Marks(events[..i + 1])) == Next(After(Marks(events[..i])), MarkOf(events[i]))
  {
    MarksSnoc(events[..i], events[i]);
    assert events[..i + 1] == events[..i] + [events[i]];
  }

  lemma MarksSnoc(events: seq<ThreadEvent>, e: ThreadEvent)
    ensures After(Marks(events + [e])) == Next(After(Marks(events)), MarkOf(e))
  {
    assert Marks(events + [e]) == Marks(events) + [MarkOf(e)];
    assert (Marks(events) + [MarkOf(e)])[..|events|] == Marks(events);
  }
}
