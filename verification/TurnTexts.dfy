/** What a turn shows of its own events: what was said, by whom, in what order, and how it ended. */
module TurnTexts {
  import opened Text
  import opened Lists
  import opened ThreadEvents
  import opened Turns

  // What the assistant says

  function PartsText(parts: seq<Part>, kind: PartKind): string {
    if parts == [] then ""
    else PartsText(parts[..|parts| - 1], kind) + if parts[|parts| - 1].kind == kind then parts[|parts| - 1].text else ""
  }

  /** The texts of one kind that the assistant's messages hold, in order. */
  function Flat(messages: seq<Message>, kind: PartKind): string {
    if messages == [] then ""
    else
      var last := messages[|messages| - 1];
      Flat(messages[..|messages| - 1], kind) + if last.role.AssistantRole? then PartsText(last.parts, kind) else ""
  }

  lemma PartsTextSnoc(parts: seq<Part>, p: Part, kind: PartKind)
    ensures PartsText(parts + [p], kind) == PartsText(parts, kind) + if p.kind == kind then p.text else ""
  {
    assert (parts + [p])[..|parts|] == parts;
  }

  lemma FlatSnoc(messages: seq<Message>, m: Message, kind: PartKind)
    ensures Flat(messages + [m], kind) == Flat(messages, kind) + if m.role.AssistantRole? then PartsText(m.parts, kind) else ""
  {
    assert (messages + [m])[..|messages|] == messages;
  }

  lemma JoinedAdds(parts: seq<Part>, kind: PartKind, text: string, k: PartKind)
    ensures PartsText(Joined(parts, kind, text), k) == PartsText(parts, k) + if k == kind then text else ""
  {
    if parts != [] && parts[|parts| - 1].kind == kind {
      var init, last := parts[..|parts| - 1], parts[|parts| - 1];
      assert parts == init + [last] && Joined(parts, kind, text) == init + [Part(kind, last.text + text)];
      PartsTextSnoc(init, last, k);
      PartsTextSnoc(init, Part(kind, last.text + text), k);
    } else {
      PartsTextSnoc(parts, Part(kind, text), k);
    }
  }

  lemma LastMessageAdds(init: seq<Message>, last: Message, kind: PartKind, text: string, k: PartKind)
    requires last.role.AssistantRole?
    ensures Flat(init + [last.(parts := Joined(last.parts, kind, text))], k)
         == Flat(init + [last], k) + if k == kind then text else ""
  {
    FlatSnoc(init, last, k);
    FlatSnoc(init, last.(parts := Joined(last.parts, kind, text)), k);
    JoinedAdds(last.parts, kind, text, k);
  }

  lemma NewMessageAdds(messages: seq<Message>, kind: PartKind, text: string, k: PartKind)
    ensures Flat(messages + [AssistantMessage().(parts := [Part(kind, text)])], k)
         == Flat(messages, k) + if k == kind then text else ""
  {
    FlatSnoc(messages, AssistantMessage().(parts := [Part(kind, text)]), k);
    PartsTextSnoc([], Part(kind, text), k);
    assert [] + [Part(kind, text)] == [Part(kind, text)];
  }

  /** A part that is added comes after what the assistant has said in that kind, trimmed, and changes no other kind. */
  lemma PartAdds(messages: seq<Message>, kind: PartKind, raw: string, k: PartKind)
    ensures Flat(WithPart(messages, kind, raw), k) == Flat(messages, k) + if k == kind then TrimSpace(raw) else ""
  {
    var text := TrimSpace(raw);
    if text != "" {
      if messages == [] || !messages[|messages| - 1].role.AssistantRole? {
        NewMessageAdds(messages, kind, text, k);
      } else {
        var n := |messages| - 1;
        LastMessageAdds(messages[..n], messages[n], kind, text, k);
        assert messages == messages[..n] + [messages[n]];
        assert WithPart(messages, kind, raw) == messages[..n] + [messages[n].(parts := Joined(messages[n].parts, kind, text))];
      }
    }
  }

  lemma {:induction false} FlatUpdate(messages: seq<Message>, i: nat, m: Message, k: PartKind)
    requires i < |messages| && m.role == messages[i].role && m.parts == messages[i].parts
    ensures Flat(messages[i := m], k) == Flat(messages, k)
  {
    var n := |messages| - 1;
    if i < n {
      assert messages[i := m][..n] == messages[..n][i := m];
      FlatUpdate(messages[..n], i, m, k);
    } else {
      assert messages[i := m][..n] == messages[..n];
    }
  }

  lemma ToolCallsSayNothing(messages: seq<Message>, tools: seq<string>, k: PartKind)
    ensures Flat(WithToolCalls(messages, tools), k) == Flat(messages, k)
  {
    if tools != [] {
      var i := LastOfRole(messages, AssistantRole);
      if i < 0 {
        FlatSnoc(messages, AssistantMessage().(toolCalls := tools), k);
      } else {
        FlatUpdate(messages, i, messages[i].(toolCalls := messages[i].toolCalls + tools), k);
      }
    }
  }

  /** What the assistant said, by thinking or aloud, in the events of a turn, as it was said. */
  function Heard(own: seq<ThreadEvent>, thought: bool): string {
    if own == [] then "" else Heard(own[..|own| - 1], thought) + DeltaOf(own[|own| - 1], thought)
  }

  function DeltaOf(e: ThreadEvent, thought: bool): string {
    if (e.innerType.MessageDelta? || e.innerType.ThoughtDelta?) && e.eventType.ThoughtDelta? == thought then e.delta else ""
  }

  /** The same with each piece trimmed. */
  function HeardTrimmed(own: seq<ThreadEvent>, thought: bool): string {
    if own == [] then "" else HeardTrimmed(own[..|own| - 1], thought) + TrimSpace(DeltaOf(own[|own| - 1], thought))
  }

  /** What was said aloud, each piece trimmed; a final text is taken only while nothing has been said or thought. */
  function Shown(own: seq<ThreadEvent>): string {
    if own == [] then ""
    else
      var said := Shown(own[..|own| - 1]) + TrimSpace(DeltaOf(own[|own| - 1], false));
      if said == "" && HeardTrimmed(own, true) == "" then TrimSpace(own[|own| - 1].finalText) else said
  }

  /** Every part of the assistant's is a text or a thought, and not empty. */
  predicate PartsSpeak(messages: seq<Message>) {
    forall i :: 0 <= i < |messages| ==> MessageSpeaks(messages[i])
  }

  predicate MessageSpeaks(m: Message) {
    m.role.AssistantRole? ==> AllSpeak(m.parts)
  }

  predicate AllSpeak(parts: seq<Part>) {
    forall k :: 0 <= k < |parts| ==> (parts[k].kind.TextPart? || parts[k].kind.ReasoningPart?) && parts[k].text != ""
  }

  lemma SomethingSaid(parts: seq<Part>)
    requires AllSpeak(parts)
    ensures PartsText(parts, TextPart) == "" && PartsText(parts, ReasoningPart) == "" <==> parts == []
  {
  }

  predicate HasParts(m: Message) {
    m.role.AssistantRole? && m.parts != []
  }

  lemma AssistantPartsSnoc(messages: seq<Message>, m: Message)
    ensures HasAssistantParts(messages + [m]) <==> HasAssistantParts(messages) || HasParts(m)
  {
    var all := messages + [m];
    assert all[|messages|] == m;
    if HasAssistantParts(messages) {
      var i :| 0 <= i < |messages| && messages[i].role.AssistantRole? && messages[i].parts != [];
      assert all[i] == messages[i];
    }
  }

  /** There are parts exactly when something has been said. */
  lemma {:induction false} PartsAreSaid(messages: seq<Message>)
    requires PartsSpeak(messages)
    ensures HasAssistantParts(messages) <==> Flat(messages, TextPart) != "" || Flat(messages, ReasoningPart) != ""
  {
    if messages != [] {
      var init, last := messages[..|messages| - 1], messages[|messages| - 1];
      assert messages == init + [last] && MessageSpeaks(last);
      PartsAreSaid(init);
      AssistantPartsSnoc(init, last);
      if last.role.AssistantRole? {
        SomethingSaid(last.parts);
      }
    }
  }

  lemma PartKeepsSpeaking(messages: seq<Message>, kind: PartKind, raw: string)
    requires PartsSpeak(messages) && (kind.TextPart? || kind.ReasoningPart?)
    ensures PartsSpeak(WithPart(messages, kind, raw))
  {
  }

  lemma SnocKeepsSpeaking(messages: seq<Message>, m: Message)
    requires PartsSpeak(messages) && (m.role.AssistantRole? ==> m.parts == [])
    ensures PartsSpeak(messages + [m])
  {
  }

  lemma ToolCallsKeepSpeaking(messages: seq<Message>, tools: seq<string>)
    requires PartsSpeak(messages)
    ensures PartsSpeak(WithToolCalls(messages, tools))
  {
  }

  // One event after another

  /** The turn shows these texts. */
  predicate Says(t: Turn, text: string, thought: string) {
    PartsSpeak(t.messages) && Flat(t.messages, TextPart) == text && Flat(t.messages, ReasoningPart) == thought
  }

  lemma PromptSaysNothing(t: Turn, e: ThreadEvent, text: string, thought: string)
    requires Says(t, text, thought)
    ensures Says(Prompted(Counted(t, e), e), text, thought)
  {
    var m := Message(UserRole, PromptParts(e), [], "", "");
    SnocKeepsSpeaking(t.messages, m);
    FlatSnoc(t.messages, m, TextPart);
    FlatSnoc(t.messages, m, ReasoningPart);
  }

  lemma DeltaIsSaid(t: Turn, e: ThreadEvent, text: string, thought: string)
    requires Says(t, text, thought)
    ensures Says(Spoken(t, e), text + TrimSpace(DeltaOf(e, false)), thought + TrimSpace(DeltaOf(e, true)))
  {
    assert TrimSpace("") == "";
    PartKeepsSpeaking(t.messages, ReasoningPart, e.delta);
    PartKeepsSpeaking(t.messages, TextPart, e.delta);
    PartAdds(t.messages, ReasoningPart, e.delta, ReasoningPart);
    PartAdds(t.messages, ReasoningPart, e.delta, TextPart);
    PartAdds(t.messages, TextPart, e.delta, ReasoningPart);
    PartAdds(t.messages, TextPart, e.delta, TextPart);
  }

  lemma FinalIsSaid(t: Turn, e: ThreadEvent, text: string, thought: string)
    requires Says(t, text, thought)
    ensures Says(Concluded(t, e), if text == "" && thought == "" then TrimSpace(e.finalText) else text, thought)
  {
    assert TrimSpace("") == "";
    PartsAreSaid(t.messages);
    PartKeepsSpeaking(t.messages, TextPart, e.finalText);
    PartAdds(t.messages, TextPart, e.finalText, ReasoningPart);
    PartAdds(t.messages, TextPart, e.finalText, TextPart);
  }

  lemma ToolsSayNothing(t: Turn, e: ThreadEvent, text: string, thought: string)
    requires Says(t, text, thought)
    ensures Says(Closed(Tooled(t, e), e), text, thought)
  {
    ToolCallsKeepSpeaking(t.messages, e.tools);
    ToolCallsSayNothing(t.messages, e.tools, TextPart);
    ToolCallsSayNothing(t.messages, e.tools, ReasoningPart);
    var calls := if e.eventType.TurnCompleted? then WithToolCalls(t.messages, e.tools) else t.messages;
    var m := Message(ToolRole, [Part(TextPart, e.toolText)], [], e.toolCallID, e.toolName);
    SnocKeepsSpeaking(calls, m);
    FlatSnoc(calls, m, TextPart);
    FlatSnoc(calls, m, ReasoningPart);
  }

  lemma EventIsSaid(t: Turn, e: ThreadEvent, text: string, thought: string)
    requires Says(t, text, thought)
    ensures var said, thinking := text + TrimSpace(DeltaOf(e, false)), thought + TrimSpace(DeltaOf(e, true));
            Says(Updated(t, e), if said == "" && thinking == "" then TrimSpace(e.finalText) else said, thinking)
  {
    PromptSaysNothing(t, e, text, thought);
    var prompted := Prompted(Counted(t, e), e);
    DeltaIsSaid(prompted, e, text, thought);
    var said, thinking := text + TrimSpace(DeltaOf(e, false)), thought + TrimSpace(DeltaOf(e, true));
    var spoken := Spoken(prompted, e);
    FinalIsSaid(spoken, e, said, thinking);
    ToolsSayNothing(Concluded(spoken, e), e, if said == "" && thinking == "" then TrimSpace(e.finalText) else said, thinking);
  }

  /** The turn says what these events say. */
  ghost predicate SaysEvents(t: Turn, own: seq<ThreadEvent>) {
    Says(t, Shown(own), HeardTrimmed(own, true))
  }

  lemma NextIsSaid(t: Turn, own: seq<ThreadEvent>)
    requires own != [] && SaysEvents(t, own[..|own| - 1])
    ensures SaysEvents(Updated(t, own[|own| - 1]), own)
  {
    var init := own[..|own| - 1];
    EventIsSaid(t, own[|own| - 1], Shown(init), HeardTrimmed(init, true));
  }

  /** What a turn's messages say is what was said in its own events: the pieces in order, each trimmed, and a final
      text while nothing else has been said or thought. */
  lemma {:induction false} MessagesSay(id: string, own: seq<ThreadEvent>)
    requires own != []
    ensures SaysEvents(TurnOf(id, own), own)
  {
    if |own| == 1 {
      NextIsSaid(NewTurn(id, own[0].recordedAt), own);
    } else {
      MessagesSay(id, own[..|own| - 1]);
      NextIsSaid(TurnOf(id, own[..|own| - 1]), own);
    }
  }

  predicate NoFinalText(own: seq<ThreadEvent>) {
    forall i :: 0 <= i < |own| ==> own[i].finalText == ""
  }

  lemma {:induction false} ShownIsHeard(own: seq<ThreadEvent>)
    requires NoFinalText(own)
    ensures Shown(own) == HeardTrimmed(own, false) && TextOf(own) == Heard(own, false)
  {
    if own != [] {
      ShownIsHeard(own[..|own| - 1]);
      assert TrimSpace("") == "";
    }
  }

  /** Without a final text the assistant's messages hold the pieces of the message, each trimmed, one after the other,
      and likewise the pieces of its thoughts. */
  lemma MessagesSayTheDeltas(id: string, own: seq<ThreadEvent>)
    requires own != [] && NoFinalText(own)
    ensures Flat(TurnOf(id, own).messages, TextPart) == HeardTrimmed(own, false)
    ensures Flat(TurnOf(id, own).messages, ReasoningPart) == HeardTrimmed(own, true)
  {
    MessagesSay(id, own);
    ShownIsHeard(own);
  }

  lemma {:induction false} TrimmingShortens(own: seq<ThreadEvent>, thought: bool)
    ensures |HeardTrimmed(own, thought)| <= |Heard(own, thought)|
    ensures HeardTrimmed(own, thought) == Heard(own, thought) <==>
            forall i :: 0 <= i < |own| ==> TrimSpace(DeltaOf(own[i], thought)) == DeltaOf(own[i], thought)
  {
    if own != [] {
      var init, last := own[..|own| - 1], own[|own| - 1];
      TrimmingShortens(init, thought);
      TrimNeverGrows(DeltaOf(last, thought));
      EqualConcat(HeardTrimmed(init, thought), Heard(init, thought), TrimSpace(DeltaOf(last, thought)), DeltaOf(last, thought));
    }
  }

  lemma EqualConcat(a: string, b: string, x: string, y: string)
    requires |a| <= |b| && |x| <= |y|
    ensures a + x == b + y <==> a == b && x == y
  {
    if a + x == b + y {
      assert |a| + |x| == |a + x| == |b + y| == |b| + |y|;
      assert a == (a + x)[..|a|] && b == (b + y)[..|b|];
      assert x == (a + x)[|a|..] && y == (b + y)[|b|..];
    }
  }

  lemma TrimNeverGrows(s: string)
    ensures |TrimSpace(s)| <= |s|
    ensures |TrimSpace(s)| == |s| ==> TrimSpace(s) == s
  {
    LeftNeverGrows(s);
    RightNeverGrows(TrimLeft(s));
  }

  lemma LeftNeverGrows(s: string)
    ensures |TrimLeft(s)| <= |s| && (|TrimLeft(s)| == |s| ==> TrimLeft(s) == s)
  {
  }

  lemma RightNeverGrows(s: string)
    ensures |TrimRight(s)| <= |s| && (|TrimRight(s)| == |s| ==> TrimRight(s) == s)
  {
  }

  /** So the messages of a turn without a final text show its text exactly when no piece of it begins or ends with
      white space: what separates two pieces is lost in the messages and kept in the text. */
  lemma MessagesShowTextExactlyWhenTrimmed(id: string, own: seq<ThreadEvent>)
    requires own != [] && NoFinalText(own)
    ensures Flat(TurnOf(id, own).messages, TextPart) == TurnOf(id, own).assistantText <==>
            forall i :: 0 <= i < |own| ==> TrimSpace(DeltaOf(own[i], false)) == DeltaOf(own[i], false)
  {
    MessagesSayTheDeltas(id, own);
    ShownIsHeard(own);
    TurnShowsItsEvents(id, own);
    TrimmingShortens(own, false);
  }
}
