/** The text buffers from which tool calls are recovered when a turn completes. */
module ToolRepair {
  import opened Text
  import opened Splitting
  import opened Lists

  datatype Kind = MessageDelta | TurnCompleted | TurnErrored | TurnInterrupted | SessionErrored | SessionStopped | OtherKind

  datatype Event = Event(kind: Kind, runtime: string, sessionID: string, providerID: string, turnID: string, delta: string)

  const NUL := '\0'

  // Keys

  predicate Plain(s: string) {
    NUL !in s
  }

  predicate HasKey(e: Event) {
    TrimSpace(e.sessionID) != "" || TrimSpace(e.providerID) != "" || TrimSpace(e.turnID) != ""
  }

  function KeyParts(e: Event): seq<string> {
    [TrimSpace(e.runtime), TrimSpace(e.sessionID), TrimSpace(e.providerID),
     if TrimSpace(e.turnID) == "" then "_active" else TrimSpace(e.turnID)]
  }

  function KeyOf(e: Event): string {
    Join(KeyParts(e), [NUL])
  }

  predicate PlainKey(e: Event) {
    forall i :: 0 <= i < 4 ==> Plain(KeyParts(e)[i])
  }

  /** The turn of an event; one without a turn id belongs to the active turn. */
  function TurnName(e: Event): string {
    if TrimSpace(e.turnID) == "" then "_active" else TrimSpace(e.turnID)
  }

  predicate SameTurn(a: Event, b: Event) {
    && TrimSpace(a.runtime) == TrimSpace(b.runtime) && TrimSpace(a.sessionID) == TrimSpace(b.sessionID)
    && TrimSpace(a.providerID) == TrimSpace(b.providerID) && TurnName(a) == TurnName(b)
  }

  /** Two events use one buffer exactly when their runtime, both their sessions and their turn agree. */
  lemma KeysAreInjective(a: Event, b: Event)
    requires PlainKey(a) && PlainKey(b)
    ensures KeyOf(a) == KeyOf(b) <==> SameTurn(a, b)
  {
    SplitJoin(KeyParts(a), NUL);
    SplitJoin(KeyParts(b), NUL);
    var x, y := KeyParts(a), KeyParts(b);
    assert KeyOf(a) == KeyOf(b) ==> x[0] == y[0] && x[1] == y[1] && x[2] == y[2] && x[3] == y[3];
  }

  /** The key has four parts and names a session of the event. A key in which an id holds NUL does not match. */
  predicate OfSession(key: string, e: Event) {
    var parts, s, p := Split(key, [NUL]), TrimSpace(e.sessionID), TrimSpace(e.providerID);
    |parts| == 4 && ((s != "" && parts[1] == s) || (p != "" && parts[2] == p))
  }

  // What a buffer holds

  predicate Adds(e: Event, key: string) {
    HasKey(e) && e.kind.MessageDelta? && KeyOf(e) == key
  }

  predicate EndsTurn(e: Event) {
    e.kind.TurnCompleted? || e.kind.TurnErrored? || e.kind.TurnInterrupted?
  }

  predicate Clears(e: Event, key: string) {
    HasKey(e) && ((EndsTurn(e) && KeyOf(e) == key) || ((e.kind.SessionErrored? || e.kind.SessionStopped?) && OfSession(key, e)))
  }

  /** The deltas of a key since the last event that cleared it. */
  function Held(log: seq<Event>, key: string): string {
    if log == [] then ""
    else
      var init, last := log[..|log| - 1], log[|log| - 1];
      if Clears(last, key) then ""
      else if Adds(last, key) then Held(init, key) + last.delta
      else Held(init, key)
  }

  function Find(buffers: map<string, string>, key: string): string {
    if key in buffers then buffers[key] else ""
  }

  /** The buffers hold, for every key, what the log says. */
  ghost predicate Follows(buffers: map<string, string>, log: seq<Event>) {
    forall key :: Find(buffers, key) == Held(log, key)
  }

  lemma HeldSnoc(log: seq<Event>, e: Event, key: string)
    ensures Held(log + [e], key) ==
            if Clears(e, key) then "" else if Adds(e, key) then Held(log, key) + e.delta else Held(log, key)
  {
    assert (log + [e])[..|log|] == log;
  }

  /** The end of a turn, or a delta, touches the buffer of its own key alone. */
  lemma OtherKeysUntouched(log: seq<Event>, e: Event, key: string)
    requires !HasKey(e) || KeyOf(e) != key
    requires !e.kind.SessionErrored? && !e.kind.SessionStopped?
    ensures Held(log + [e], key) == Held(log, key)
  {
    HeldSnoc(log, e, key);
  }

  function CountNUL(s: string): nat {
    if s == "" then 0 else CountNUL(s[1..]) + if s[0] == NUL then 1 else 0
  }

  lemma {:induction false} CountConcat(a: string, b: string)
    ensures CountNUL(a + b) == CountNUL(a) + CountNUL(b)
  {
    if a == "" {
      assert a + b == b;
    } else {
      assert (a + b)[1..] == a[1..] + b;
      CountConcat(a[1..], b);
    }
  }

  lemma {:induction false} SplitCounts(s: string)
    ensures |Split(s, [NUL])| == 1 + CountNUL(s)
  {
    StartsWith(NUL, s);
    if s != "" {
      SplitCounts(s[1..]);
    }
  }

  lemma {:induction false} PlainExactlyWhenNone(s: string)
    ensures Plain(s) <==> CountNUL(s) == 0
  {
    if s != "" {
      PlainExactlyWhenNone(s[1..]);
      assert s == [s[0]] + s[1..];
    }
  }

  function CountAll(parts: seq<string>): nat {
    if parts == [] then 0 else CountNUL(parts[0]) + CountAll(parts[1..])
  }

  lemma {:induction false} JoinCounts(parts: seq<string>)
    requires parts != []
    ensures CountNUL(Join(parts, [NUL])) == |parts| - 1 + CountAll(parts)
  {
    if |parts| == 1 {
      assert parts[1..] == [];
    } else {
      JoinCounts(parts[1..]);
      CountConcat(parts[0] + [NUL], Join(parts[1..], [NUL]));
      CountConcat(parts[0], [NUL]);
    }
  }

  lemma {:induction false} PlainExactlyWhenNoneAny(parts: seq<string>)
    ensures (forall i :: 0 <= i < |parts| ==> Plain(parts[i])) <==> CountAll(parts) == 0
  {
    if parts != [] {
      PlainExactlyWhenNone(parts[0]);
      PlainExactlyWhenNoneAny(parts[1..]);
      assert forall i :: 0 < i < |parts| ==> parts[i] == parts[1..][i - 1];
      assert forall i :: 0 <= i < |parts| - 1 ==> parts[1..][i] == parts[i + 1];
    }
  }

  /** A key splits into its four parts again exactly when none of them holds NUL. */
  lemma KeySplitsExactlyWhenPlain(e: Event)
    ensures |Split(KeyOf(e), [NUL])| == 4 <==> PlainKey(e)
    ensures PlainKey(e) ==> Split(KeyOf(e), [NUL]) == KeyParts(e)
  {
    var parts := KeyParts(e);
    SplitCounts(KeyOf(e));
    JoinCounts(parts);
    PlainExactlyWhenNoneAny(parts);
    if PlainKey(e) {
      SplitJoin(parts, NUL);
    }
  }

  /** The two events name one session, by its own id or by the provider's. */
  predicate Shares(e: Event, end: Event) {
    || (TrimSpace(end.sessionID) != "" && TrimSpace(e.sessionID) == TrimSpace(end.sessionID))
    || (TrimSpace(end.providerID) != "" && TrimSpace(e.providerID) == TrimSpace(end.providerID))
  }

  /** The end of a session empties the buffer of a turn exactly when the turn is of that session, by either id, and no
      id in its key holds NUL; every other buffer stays as it is. */
  lemma SessionEndClears(log: seq<Event>, end: Event, e: Event)
    requires end.kind.SessionErrored? || end.kind.SessionStopped?
    ensures Held(log + [end], KeyOf(e)) == if PlainKey(e) && Shares(e, end) then "" else Held(log, KeyOf(e))
  {
    KeySplitsExactlyWhenPlain(e);
    HeldSnoc(log, end, KeyOf(e));
  }

  /** So an id that holds NUL, which stops the key from being recognised, keeps its text beyond the end of the session. */
  lemma NULSurvivesSessionEnd(log: seq<Event>, end: Event, e: Event)
    requires (end.kind.SessionErrored? || end.kind.SessionStopped?) && Shares(e, end) && !PlainKey(e)
    ensures Held(log + [end], KeyOf(e)) == Held(log, KeyOf(e))
  {
    SessionEndClears(log, end, e);
  }

  // What a buffer holds, from the events

  predicate NamesSomething(e: Event) {
    TrimSpace(e.sessionID) != "" || TrimSpace(e.providerID) != "" || TrimSpace(e.turnID) != ""
  }

  /** Which deltas a turn's buffer takes: those of the turn itself. */
  lemma AddsExactlyWhen(e: Event, x: Event)
    requires PlainKey(e) && PlainKey(x)
    ensures Adds(e, KeyOf(x)) <==> e.kind.MessageDelta? && NamesSomething(e) && SameTurn(e, x)
  {
    KeysAreInjective(e, x);
  }

  /** What empties a turn's buffer: an end of the turn itself, of whatever kind, and an end of its session. */
  lemma ClearsExactlyWhen(e: Event, x: Event)
    requires PlainKey(e) && PlainKey(x)
    ensures Clears(e, KeyOf(x)) <==>
            || ((e.kind.TurnCompleted? || e.kind.TurnErrored? || e.kind.TurnInterrupted?) && NamesSomething(e) && SameTurn(e, x))
            || ((e.kind.SessionErrored? || e.kind.SessionStopped?) && Shares(x, e))
  {
    KeysAreInjective(e, x);
    KeySplitsExactlyWhenPlain(x);
  }

  /** The deltas for a key, one after the other. */
  function Said(events: seq<Event>, key: string): string {
    if events == [] then "" else (if Adds(events[0], key) then events[0].delta else "") + Said(events[1..], key)
  }

  lemma {:induction false} SaidSnoc(events: seq<Event>, e: Event, key: string)
    ensures Said(events + [e], key) == Said(events, key) + if Adds(e, key) then e.delta else ""
  {
    if events == [] {
      assert [e][1..] == [];
    } else {
      SaidSnoc(events[1..], e, key);
      assert (events + [e])[1..] == events[1..] + [e];
    }
  }

  lemma HeldGrows(log: seq<Event>, since: seq<Event>, e: Event, key: string)
    requires !Clears(e, key) && Held(log, key) == Said(since, key)
    ensures Held(log + [e], key) == Said(since + [e], key)
  {
    HeldSnoc(log, e, key);
    SaidSnoc(since, e, key);
  }

  /** A buffer holds the deltas since it was last emptied, all of them, in order, and nothing else. */
  lemma {:induction false} HeldIsSaidSince(log: seq<Event>, key: string, n: nat)
    requires n <= |log| && (n > 0 ==> Clears(log[n - 1], key))
    requires forall i :: n <= i < |log| ==> !Clears(log[i], key)
    ensures Held(log, key) == Said(log[n..], key)
  {
    if n < |log| {
      var m := |log| - 1;
      HeldIsSaidSince(log[..m], key, n);
      HeldGrows(log[..m], log[..m][n..], log[m], key);
      assert log[n..] == log[..m][n..] + [log[m]] && log == log[..m] + [log[m]];
    }
  }

  class Repairer {
    var buffers: map<string, string>
    /** Every event handled so far. */
    ghost var log: seq<Event>

    ghost predicate Valid()
      reads this
    {
      Follows(buffers, log)
    }

    constructor ()
      ensures Valid() && log == []
    {
      buffers, log := map[], [];
    }

    /** When a turn completes, the text it hands over for repair is what its own key accumulated since it was last
        cleared; at any other event it is None. */
    method Handle(e: Event) returns (text: Option<string>)
      requires Valid()
      modifies this
      ensures Valid() && log == old(log) + [e]
      ensures text == if HasKey(e) && e.kind.TurnCompleted? then Some(Held(old(log), KeyOf(e))) else None
    {
      text := None;
      ghost var before := buffers;
      if HasKey(e) {
        var key := KeyOf(e);
        if e.kind.MessageDelta? {
          if e.delta != "" {
            buffers := buffers[key := Find(buffers, key) + e.delta];
          }
        } else if e.kind.TurnCompleted? {
          text := Some(Find(buffers, key));
          buffers := buffers - {key};
        } else if e.kind.TurnErrored? || e.kind.TurnInterrupted? {
          buffers := buffers - {key};
        } else if e.kind.SessionErrored? || e.kind.SessionStopped? {
          ClearSession(e);
        }
      }
      forall k
        ensures Find(buffers, k) == Held(log + [e], k)
      {
        HeldSnoc(log, e, k);
        assert Find(before, k) == Held(log, k);
      }
      log := log + [e];
    }

    method ClearSession(e: Event)
      modifies this`buffers
      ensures buffers == map k | k in old(buffers) && !OfSession(k, e) :: old(buffers)[k]
    {
      var sessionID, providerID := TrimSpace(e.sessionID), TrimSpace(e.providerID);
      if sessionID == "" && providerID == "" {
        return;
      }
      var rest := buffers.Keys;
      while rest != {}
        invariant rest <= buffers.Keys <= old(buffers).Keys
        invariant forall k :: k in old(buffers) ==> (k in buffers <==> k in rest || !OfSession(k, e))
        invariant forall k :: k in buffers ==> buffers[k] == old(buffers)[k]
        decreases |rest|
      {
        var key :| key in rest;
        rest := rest - {key};
        var parts := Split(key, [NUL]);
        if |parts| != 4 {
          continue;
        }
        if (sessionID != "" && parts[1] == sessionID) || (providerID != "" && parts[2] == providerID) {
          buffers := buffers - {key};
        }
      }
    }
  }
}
