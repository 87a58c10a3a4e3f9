/** What else a turn's messages hold, in what order, and how a turn ends and is put out. */
module TurnMessages {
  import opened Text
  import opened TextProperties
  import opened Lists
  import opened ThreadEvents
  import opened Turns
  import opened TurnTexts

  // Tool calls, tool results and the prompt

  function Calls(messages: seq<Message>): seq<string> {
    if messages == [] then []
    else
      var last := messages[|messages| - 1];
      Calls(messages[..|messages| - 1]) + if last.role.AssistantRole? then last.toolCalls else []
  }

  function OfRole(messages: seq<Message>, role: Role): seq<Message> {
    if messages == [] then []
    else
      var last := messages[|messages| - 1];
      OfRole(messages[..|messages| - 1], role) + if last.role == role then [last] else []
  }

  lemma CallsSnoc(messages: seq<Message>, m: Message)
    ensures Calls(messages + [m]) == Calls(messages) + if m.role.AssistantRole? then m.toolCalls else []
  {
    assert (messages + [m])[..|messages|] == messages;
  }

  lemma OfRoleSnoc(messages: seq<Message>, m: Message, role: Role)
    ensures OfRole(messages + [m], role) == OfRole(messages, role) + if m.role == role then [m] else []
  {
    assert (messages + [m])[..|messages|] == messages;
  }

  lemma {:induction false} OfRoleUpdate(messages: seq<Message>, i: nat, m: Message, role: Role)
    requires i < |messages| && messages[i].role == m.role != role
    ensures OfRole(messages[i := m], role) == OfRole(messages, role)
  {
    var n := |messages| - 1;
    if i < n {
      assert messages[i := m][..n] == messages[..n][i := m];
      OfRoleUpdate(messages[..n], i, m, role);
    } else {
      assert messages[i := m][..n] == messages[..n];
    }
  }

  /** Calls added to the last message of the assistant come after all calls made so far. */
  lemma {:induction false} CallsUpdate(messages: seq<Message>, i: nat, tools: seq<string>)
    requires i < |messages| && messages[i].role.AssistantRole?
    requires forall k :: i < k < |messages| ==> !messages[k].role.AssistantRole?
    ensures Calls(messages[i := messages[i].(toolCalls := messages[i].toolCalls + tools)]) == Calls(messages) + tools
  {
    var n := |messages| - 1;
    var m := messages[i].(toolCalls := messages[i].toolCalls + tools);
    if i < n {
      assert messages[i := m][..n] == messages[..n][i := m];
      CallsUpdate(messages[..n], i, tools);
    } else {
      assert messages[i := m][..n] == messages[..n];
    }
  }

  lemma {:induction false} CallsKept(messages: seq<Message>, i: nat, m: Message)
    requires i < |messages| && m.role == messages[i].role && m.toolCalls == messages[i].toolCalls
    ensures Calls(messages[i := m]) == Calls(messages)
  {
    var n := |messages| - 1;
    if i < n {
      assert messages[i := m][..n] == messages[..n][i := m];
      CallsKept(messages[..n], i, m);
    } else {
      assert messages[i := m][..n] == messages[..n];
    }
  }

  lemma ToolCallsAreAdded(messages: seq<Message>, tools: seq<string>)
    ensures Calls(WithToolCalls(messages, tools)) == Calls(messages) + tools
  {
    if tools != [] {
      var i := LastOfRole(messages, AssistantRole);
      if i < 0 {
        CallsSnoc(messages, AssistantMessage().(toolCalls := tools));
      } else {
        CallsUpdate(messages, i, tools);
      }
    }
  }

  lemma ToolCallsTouchAssistant(messages: seq<Message>, tools: seq<string>, role: Role)
    requires !role.AssistantRole?
    ensures OfRole(WithToolCalls(messages, tools), role) == OfRole(messages, role)
  {
    if tools != [] {
      var i := LastOfRole(messages, AssistantRole);
      if i < 0 {
        OfRoleSnoc(messages, AssistantMessage().(toolCalls := tools), role);
      } else {
        OfRoleUpdate(messages, i, messages[i].(toolCalls := messages[i].toolCalls + tools), role);
      }
    }
  }

  lemma PartTouchesAssistant(messages: seq<Message>, kind: PartKind, raw: string, role: Role)
    requires !role.AssistantRole?
    ensures OfRole(WithPart(messages, kind, raw), role) == OfRole(messages, role)
    ensures Calls(WithPart(messages, kind, raw)) == Calls(messages)
  {
    var text := TrimSpace(raw);
    if text != "" {
      if messages == [] || !messages[|messages| - 1].role.AssistantRole? {
        OfRoleSnoc(messages, AssistantMessage().(parts := [Part(kind, text)]), role);
        CallsSnoc(messages, AssistantMessage().(parts := [Part(kind, text)]));
      } else {
        var n := |messages| - 1;
        OfRoleUpdate(messages, n, messages[n].(parts := Joined(messages[n].parts, kind, text)), role);
        CallsKept(messages, n, messages[n].(parts := Joined(messages[n].parts, kind, text)));
      }
    }
  }

  lemma {:induction false} SomeOfRole(messages: seq<Message>, role: Role)
    ensures HasRole(messages, role) <==> OfRole(messages, role) != []
  {
    if messages != [] {
      var n := |messages| - 1;
      SomeOfRole(messages[..n], role);
      if HasRole(messages[..n], role) {
        var i :| 0 <= i < n && messages[..n][i].role == role;
        assert messages[i].role == role;
      }
    }
  }

  /** The calls that the completions of a turn report, in order. */
  function CallsOf(own: seq<ThreadEvent>): seq<string> {
    if own == [] then []
    else CallsOf(own[..|own| - 1]) + if own[|own| - 1].eventType.TurnCompleted? then own[|own| - 1].tools else []
  }

  /** A message for each tool that ended, with or without an error, and had something to say. */
  function ToolResultsOf(own: seq<ThreadEvent>): seq<Message> {
    if own == [] then []
    else
      var last := own[|own| - 1];
      ToolResultsOf(own[..|own| - 1])
      + if (last.eventType.ToolCompleted? || last.eventType.ToolErrored?) && last.toolText != "" then
          [Message(ToolRole, [Part(TextPart, last.toolText)], [], last.toolCallID, last.toolName)]
        else []
  }

  /** The prompt of the first start that has one. */
  function PromptOf(own: seq<ThreadEvent>): seq<Message> {
    if own == [] then []
    else
      var before, last := PromptOf(own[..|own| - 1]), own[|own| - 1];
      if before != [] then before
      else if last.eventType.TurnStarted? && PromptParts(last) != [] then [Message(UserRole, PromptParts(last), [], "", "")]
      else []
  }

  predicate Holds(messages: seq<Message>, calls: seq<string>, results: seq<Message>, prompt: seq<Message>) {
    Calls(messages) == calls && OfRole(messages, ToolRole) == results && OfRole(messages, UserRole) == prompt
  }

  lemma PromptHeld(t: Turn, e: ThreadEvent, calls: seq<string>, results: seq<Message>, prompt: seq<Message>)
    requires Holds(t.messages, calls, results, prompt)
    ensures Holds(Prompted(Counted(t, e), e).messages, calls, results,
                  if prompt != [] then prompt
                  else if e.eventType.TurnStarted? && PromptParts(e) != [] then [Message(UserRole, PromptParts(e), [], "", "")]
                  else [])
  {
    var m := Message(UserRole, PromptParts(e), [], "", "");
    SomeOfRole(t.messages, UserRole);
    OfRoleSnoc(t.messages, m, UserRole);
    OfRoleSnoc(t.messages, m, ToolRole);
    CallsSnoc(t.messages, m);
  }

  lemma PartHeld(messages: seq<Message>, kind: PartKind, raw: string, calls: seq<string>, results: seq<Message>, prompt: seq<Message>)
    requires Holds(messages, calls, results, prompt)
    ensures Holds(WithPart(messages, kind, raw), calls, results, prompt)
  {
    PartTouchesAssistant(messages, kind, raw, UserRole);
    PartTouchesAssistant(messages, kind, raw, ToolRole);
  }

  lemma WordsHeld(t: Turn, e: ThreadEvent, calls: seq<string>, results: seq<Message>, prompt: seq<Message>)
    requires Holds(t.messages, calls, results, prompt)
    ensures Holds(Concluded(Spoken(t, e), e).messages, calls, results, prompt)
  {
    PartHeld(t.messages, ReasoningPart, e.delta, calls, results, prompt);
    PartHeld(t.messages, TextPart, e.delta, calls, results, prompt);
    PartHeld(Spoken(t, e).messages, TextPart, e.finalText, calls, results, prompt);
  }

  lemma ToolsHeld(t: Turn, e: ThreadEvent, calls: seq<string>, results: seq<Message>, prompt: seq<Message>)
    requires Holds(t.messages, calls, results, prompt)
    ensures Holds(Closed(Tooled(t, e), e).messages,
                  calls + (if e.eventType.TurnCompleted? then e.tools else []),
                  results + (if (e.eventType.ToolCompleted? || e.eventType.ToolErrored?) && e.toolText != "" then
                               [Message(ToolRole, [Part(TextPart, e.toolText)], [], e.toolCallID, e.toolName)]
                             else []),
                  prompt)
  {
    ToolCallsAreAdded(t.messages, e.tools);
    ToolCallsTouchAssistant(t.messages, e.tools, UserRole);
    ToolCallsTouchAssistant(t.messages, e.tools, ToolRole);
    var called := if e.eventType.TurnCompleted? then WithToolCalls(t.messages, e.tools) else t.messages;
    var m := Message(ToolRole, [Part(TextPart, e.toolText)], [], e.toolCallID, e.toolName);
    OfRoleSnoc(called, m, UserRole);
    OfRoleSnoc(called, m, ToolRole);
    CallsSnoc(called, m);
  }

  ghost predicate HoldsEvents(t: Turn, own: seq<ThreadEvent>) {
    Holds(t.messages, CallsOf(own), ToolResultsOf(own), PromptOf(own))
  }

  lemma NextIsHeld(t: Turn, own: seq<ThreadEvent>)
    requires own != [] && HoldsEvents(t, own[..|own| - 1])
    ensures HoldsEvents(Updated(t, own[|own| - 1]), own)
  {
    var init, e := own[..|own| - 1], own[|own| - 1];
    PromptHeld(t, e, CallsOf(init), ToolResultsOf(init), PromptOf(init));
    var prompted := Prompted(Counted(t, e), e);
    WordsHeld(prompted, e, CallsOf(init), ToolResultsOf(init), PromptOf(own));
    ToolsHeld(Concluded(Spoken(prompted, e), e), e, CallsOf(init), ToolResultsOf(init), PromptOf(own));
  }

  /** Besides what the assistant says, a turn's messages hold the calls its completions report, a result for each tool
      that ended, and the prompt of its first start: all of them, once each, in order, and nothing else. */
  lemma {:induction false} MessagesHold(id: string, own: seq<ThreadEvent>)
    requires own != []
    ensures Calls(TurnOf(id, own).messages) == CallsOf(own)
    ensures OfRole(TurnOf(id, own).messages, ToolRole) == ToolResultsOf(own)
    ensures OfRole(TurnOf(id, own).messages, UserRole) == PromptOf(own)
  {
    if |own| == 1 {
      assert own[..0] == [];
      NextIsHeld(NewTurn(id, own[0].recordedAt), own);
    } else {
      MessagesHold(id, own[..|own| - 1]);
      NextIsHeld(TurnOf(id, own[..|own| - 1]), own);
    }
  }

  // Order

  /** Messages are only ever added at the end; an earlier message keeps its place and its role, and any but the last one
      all its parts. */
  ghost predicate Extends(messages: seq<Message>, messages': seq<Message>) {
    && |messages| <= |messages'|
    && forall i :: 0 <= i < |messages| ==>
         && messages'[i].role == messages[i].role && messages'[i].name == messages[i].name
         && messages'[i].toolCallID == messages[i].toolCallID
         && (i < |messages| - 1 || !messages[i].role.AssistantRole? ==> messages'[i].parts == messages[i].parts)
  }

  lemma PartExtends(messages: seq<Message>, kind: PartKind, raw: string)
    ensures Extends(messages, WithPart(messages, kind, raw))
  {
  }

  lemma ToolCallsExtend(messages: seq<Message>, tools: seq<string>)
    ensures Extends(messages, WithToolCalls(messages, tools))
    ensures tools != [] && HasRole(messages, AssistantRole) ==> |WithToolCalls(messages, tools)| == |messages|
  {
  }

  lemma ExtendsAgain(a: seq<Message>, b: seq<Message>, c: seq<Message>)
    requires Extends(a, b) && Extends(b, c)
    ensures Extends(a, c)
  {
    forall i | 0 <= i < |a|
      ensures c[i].role == a[i].role && c[i].name == a[i].name && c[i].toolCallID == a[i].toolCallID
      ensures i < |a| - 1 || !a[i].role.AssistantRole? ==> c[i].parts == a[i].parts
    {
      assert b[i].role == a[i].role;
    }
  }

  lemma WordsExtend(t: Turn, e: ThreadEvent)
    ensures Extends(t.messages, Concluded(Spoken(t, e), e).messages)
  {
    PartExtends(t.messages, ReasoningPart, e.delta);
    PartExtends(t.messages, TextPart, e.delta);
    PartExtends(Spoken(t, e).messages, TextPart, e.finalText);
    ExtendsAgain(t.messages, Spoken(t, e).messages, Concluded(Spoken(t, e), e).messages);
  }

  lemma ToolsExtend(t: Turn, e: ThreadEvent)
    ensures Extends(t.messages, Closed(Tooled(t, e), e).messages)
  {
    ToolCallsExtend(t.messages, e.tools);
  }

  /** An event moves and removes no message. */
  lemma MessagesAreAddedAtTheEnd(t: Turn, e: ThreadEvent)
    ensures Extends(t.messages, Updated(t, e).messages)
  {
    var prompted := Prompted(Counted(t, e), e);
    var concluded := Concluded(Spoken(prompted, e), e);
    assert Extends(t.messages, prompted.messages);
    WordsExtend(prompted, e);
    ExtendsAgain(t.messages, prompted.messages, concluded.messages);
    ToolsExtend(concluded, e);
    ExtendsAgain(t.messages, concluded.messages, Updated(t, e).messages);
  }

  // How a turn ends

  predicate Closes(e: ThreadEvent) {
    e.eventType.TurnCompleted? || e.eventType.TurnErrored? || e.eventType.SessionErrored? || e.eventType.TurnInterrupted?
  }

  /** The time of the last event that closed the turn, 0 when none has. */
  function ClosedAt(own: seq<ThreadEvent>): int {
    if own == [] then 0
    else if Closes(own[|own| - 1]) then own[|own| - 1].recordedAt
    else ClosedAt(own[..|own| - 1])
  }

  /** The last thing said about the turn by an event that closed it: an error comes before a summary. */
  function SummaryOf(own: seq<ThreadEvent>): string {
    if own == [] then ""
    else
      var e, before := own[|own| - 1], SummaryOf(own[..|own| - 1]);
      if !Closes(e) then before
      else if (e.eventType.TurnErrored? || e.eventType.SessionErrored?) && TrimSpace(e.errorText) != "" then TrimSpace(e.errorText)
      else if TrimSpace(e.summary) != "" then TrimSpace(e.summary)
      else TrimSpace(before)
  }

  predicate EndsLike(t: Turn, own: seq<ThreadEvent>) {
    t.reasoningText == Heard(own, true) && t.completedAt == ClosedAt(own) && t.summary == SummaryOf(own)
  }

  lemma UpdatedEnd(t: Turn, e: ThreadEvent)
    ensures Updated(t, e).reasoningText == t.reasoningText + DeltaOf(e, true)
    ensures Updated(t, e).completedAt == if Closes(e) then e.recordedAt else t.completedAt
    ensures Updated(t, e).summary ==
            if !Closes(e) then t.summary
            else FirstNonEmpty(if e.eventType.TurnErrored? || e.eventType.SessionErrored? then [e.errorText, e.summary, t.summary]
                               else [e.summary, t.summary])
  {
  }

  lemma NextEnd(t: Turn, own: seq<ThreadEvent>)
    requires own != [] && EndsLike(t, own[..|own| - 1])
    ensures EndsLike(Updated(t, own[|own| - 1]), own)
  {
    var e := own[|own| - 1];
    UpdatedEnd(t, e);
    FirstOfTwo(e.summary, t.summary);
    FirstOfThree(e.errorText, e.summary, t.summary);
  }

  /** A turn's thoughts are the pieces of them as they came; its end and its summary are those of the last closing
      events that have them. */
  lemma {:induction false} TurnEndsLikeItsEvents(id: string, own: seq<ThreadEvent>)
    requires own != []
    ensures TurnOf(id, own).reasoningText == Heard(own, true)
    ensures TurnOf(id, own).completedAt == ClosedAt(own)
    ensures TurnOf(id, own).summary == SummaryOf(own)
  {
    if |own| == 1 {
      assert own[..0] == [];
      NextEnd(NewTurn(id, own[0].recordedAt), own);
    } else {
      TurnEndsLikeItsEvents(id, own[..|own| - 1]);
      NextEnd(TurnOf(id, own[..|own| - 1]), own);
    }
  }

  // The prompt and the presentation

  const STARTED := "Started turn: "

  /** What a user message says: the text of the input and its parts, or else the summary of the start, without the words
      that announce it. */
  lemma PromptSays(e: ThreadEvent, rest: string)
    ensures e.inputText != "" ==> PromptParts(e) == [Part(TextPart, e.inputText)] + e.inputParts
    ensures e.inputText == "" && e.inputParts != [] ==> PromptParts(e) == e.inputParts
    ensures e.inputText == "" && e.inputParts == [] && e.summary == STARTED + rest ==>
              PromptParts(e) == if TrimSpace(rest) == "" then [] else [Part(TextPart, TrimSpace(rest))]
    ensures e.inputText == "" && e.inputParts == [] && !(STARTED <= e.summary) ==>
              PromptParts(e) == if TrimSpace(e.summary) == "" then [] else [Part(TextPart, TrimSpace(e.summary))]
  {
    assert (STARTED + rest)[14..] == rest;
    assert [] + e.inputParts == e.inputParts;
  }

  lemma {:induction false} FlatCons(m: Message, messages: seq<Message>, k: PartKind)
    requires !m.role.AssistantRole?
    ensures Flat([m] + messages, k) == Flat(messages, k)
  {
    if messages == [] {
      assert [m] + messages == [] + [m];
      FlatSnoc([], m, k);
    } else {
      var n := |messages| - 1;
      FlatCons(m, messages[..n], k);
      assert [m] + messages == ([m] + messages[..n]) + [messages[n]];
      FlatSnoc([m] + messages[..n], messages[n], k);
    }
  }

  lemma {:induction false} NoAssistantSaysNothing(messages: seq<Message>, k: PartKind)
    requires !HasRole(messages, AssistantRole)
    ensures Flat(messages, k) == ""
  {
    if messages != [] {
      assert messages[|messages| - 1].role != AssistantRole;
      NoAssistantSaysNothing(messages[..|messages| - 1], k);
    }
  }

  /** What the presentation puts in front: the summary as the prompt, when there is no prompt. */
  function Front(t: Turn): seq<Message> {
    if HasRole(t.messages, UserRole) || t.summary == "" then []
    else [Message(UserRole, [Part(TextPart, if STARTED <= t.summary then t.summary[|STARTED|..] else t.summary)], [], "", "")]
  }

  lemma FrontIsNoAssistant(t: Turn)
    ensures HasRole(Front(t) + t.messages, AssistantRole) <==> HasRole(t.messages, AssistantRole)
    ensures !HasRole(t.messages, AssistantRole) ==> forall k :: Flat(Front(t) + t.messages, k) == ""
  {
    var all := Front(t) + t.messages;
    if HasRole(t.messages, AssistantRole) {
      var i :| 0 <= i < |t.messages| && t.messages[i].role == AssistantRole;
      assert all[|Front(t)| + i].role == AssistantRole;
    } else {
      assert forall i :: |Front(t)| <= i < |all| ==> all[i] == t.messages[i - |Front(t)|];
      forall k
        ensures Flat(all, k) == ""
      {
        NoAssistantSaysNothing(all, k);
      }
    }
  }

  /** A part put after messages of others is a message of its own, at the end. */
  lemma PartStandsAtTheEnd(messages: seq<Message>, kind: PartKind, raw: string)
    requires !HasRole(messages, AssistantRole)
    ensures messages <= WithPart(messages, kind, raw)
    ensures TrimSpace(raw) != "" ==> |WithPart(messages, kind, raw)| == |messages| + 1
  {
    assert messages != [] ==> messages[|messages| - 1].role != AssistantRole;
  }

  lemma SecondPartStandsAtTheEnd(front: seq<Message>, messages: seq<Message>, kind: PartKind, raw: string)
    requires front < messages
    ensures front <= WithPart(messages, kind, raw)
  {
  }

  lemma TextsStandAtTheEnd(all: seq<Message>, thought: string, text: string)
    requires !HasRole(all, AssistantRole) && (forall k :: Flat(all, k) == "")
    ensures var said := WithPart(WithPart(all, ReasoningPart, thought), TextPart, text);
            all <= said && Flat(said, TextPart) == TrimSpace(text) && Flat(said, ReasoningPart) == TrimSpace(thought)
  {
    var reasoned := WithPart(all, ReasoningPart, thought);
    PartAdds(all, ReasoningPart, thought, ReasoningPart);
    PartAdds(all, ReasoningPart, thought, TextPart);
    PartAdds(reasoned, TextPart, text, ReasoningPart);
    PartAdds(reasoned, TextPart, text, TextPart);
    PartStandsAtTheEnd(all, ReasoningPart, thought);
    if TrimSpace(thought) != "" {
      SecondPartStandsAtTheEnd(all, reasoned, TextPart, text);
    } else {
      PartStandsAtTheEnd(all, TextPart, text);
    }
  }

  /** A turn is put out with its messages as they are when the assistant has one; otherwise the assistant says, at the
      end, what the turn's two texts say, trimmed. Nothing else about the turn changes. */
  lemma PresentedSays(t: Turn)
    ensures var p := Presented(t);
            && p == t.(messages := p.messages)
            && Front(t) + t.messages <= p.messages
            && (HasRole(t.messages, AssistantRole) ==> p.messages == Front(t) + t.messages)
            && (!HasRole(t.messages, AssistantRole) ==>
                  Flat(p.messages, TextPart) == TrimSpace(t.assistantText) && Flat(p.messages, ReasoningPart) == TrimSpace(t.reasoningText))
  {
    var all := Front(t) + t.messages;
    FrontIsNoAssistant(t);
    PresentedIsSaid(t, all);
    if !HasRole(t.messages, AssistantRole) {
      TextsStandAtTheEnd(all, t.reasoningText, t.assistantText);
    }
  }

  lemma BlankAddsNothing(messages: seq<Message>, kind: PartKind)
    ensures WithPart(messages, kind, "") == messages
  {
  }

  lemma PresentedIsSaid(t: Turn, all: seq<Message>)
    requires all == Front(t) + t.messages
    ensures Presented(t) ==
            t.(messages := if HasRole(all, AssistantRole) then all
                           else WithPart(WithPart(all, ReasoningPart, t.reasoningText), TextPart, t.assistantText))
  {
    assert [] + t.messages == t.messages;
    BlankAddsNothing(all, ReasoningPart);
    BlankAddsNothing(WithPart(all, ReasoningPart, t.reasoningText), TextPart);
  }
}
