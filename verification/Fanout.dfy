/** Sending one prompt to many targets and collecting one result for each. */
module Fanout {
  import opened Text
  import opened Lists
  import U = UsageLedger

  datatype Target = Target(backend: string, model: string, tag: string)

  datatype EventKind = TurnCompleted | TurnErrored | OtherEvent

  datatype Event = Event(sessionID: string, kind: EventKind, delta: string, finalText: string, summary: string, errorText: string)

  /** How the start of a target's session went. */
  datatype Start = Failed(error: string) | Started(sessionID: string)

  /** What the controller answers when a session is closed: its usage before it is stopped, the error of
      stopping it if any, and its usage afterwards. */
  datatype Closing = Closing(before: Option<U.Usage>, stopError: Option<string>, after: Option<U.Usage>)

  datatype Result = Result(
    target: Target, text: string, error: string, stopped: bool, stopError: string, eventCount: nat, usage: U.Usage)

  datatype Output = Output(targets: seq<Result>, total: U.Usage)

  datatype Outcome = Ok(output: Output) | StreamClosed

  // Labels

  function LabelBase(t: Target): string {
    if TrimSpace(t.tag) != "" then TrimSpace(t.tag)
    else if TrimSpace(t.model) != "" then t.backend + "=" + t.model
    else t.backend
  }

  function Bases(targets: seq<Target>): seq<string> {
    seq(|targets|, i requires 0 <= i < |targets| => LabelBase(targets[i]))
  }

  /** How many of the first n bases are the i-th. */
  function Occurrences(bases: seq<string>, base: string): nat {
    multiset(bases)[base]
  }

  function LabelOf(bases: seq<string>, i: nat): string
    requires i < |bases|
  {
    if Occurrences(bases, bases[i]) > 1 then bases[i] + "#" + Decimal(Occurrences(bases[..i + 1], bases[i])) else bases[i]
  }

  function CountIn(table: map<string, nat>, base: string): nat {
    if base in table then table[base] else 0
  }

  ghost predicate Tallies(table: map<string, nat>, bases: seq<string>) {
    forall b :: CountIn(table, b) == Occurrences(bases, b)
  }

  function Bump(table: map<string, nat>, base: string): map<string, nat> {
    table[base := CountIn(table, base) + 1]
  }

  lemma BumpTallies(table: map<string, nat>, bases: seq<string>, i: nat)
    requires i < |bases| && Tallies(table, bases[..i])
    ensures Tallies(Bump(table, bases[i]), bases[..i + 1])
  {
    assert bases[..i + 1] == bases[..i] + [bases[i]];
    assert multiset(bases[..i + 1]) == multiset(bases[..i]) + multiset{bases[i]};
    forall b
      ensures CountIn(Bump(table, bases[i]), b) == Occurrences(bases[..i + 1], b)
    {
      assert CountIn(table, b) == Occurrences(bases[..i], b);
    }
  }

  method CountBases(targets: array<Target>) returns (totals: map<string, nat>)
    ensures Tallies(totals, Bases(targets[..]))
  {
    ghost var bases := Bases(targets[..]);
    totals := map[];
    for i := 0 to targets.Length
      invariant Tallies(totals, bases[..i])
    {
      var base := LabelBase(targets[i]);
      assert base == bases[i];
      BumpTallies(totals, bases, i);
      totals := Bump(totals, base);
    }
    assert bases[..targets.Length] == bases;
  }

  lemma LabelFromTallies(bases: seq<string>, i: nat, totals: map<string, nat>, seen: map<string, nat>, text: string)
    requires i < |bases| && Tallies(totals, bases) && Tallies(seen, bases[..i + 1])
    requires text == if CountIn(totals, bases[i]) > 1 then bases[i] + "#" + Decimal(CountIn(seen, bases[i])) else bases[i]
    ensures text == LabelOf(bases, i)
  {
  }

  function Labelled(targets: seq<Target>, i: nat): Target
    requires i < |targets|
  {
    targets[i].(tag := LabelOf(Bases(targets), i))
  }

  function LabelledAll(targets: seq<Target>): seq<Target> {
    seq(|targets|, i requires 0 <= i < |targets| => Labelled(targets, i))
  }

  /** The next label, and the table with its base counted. */
  method NextLabel(base: string, totals: map<string, nat>, seen0: map<string, nat>, ghost bases: seq<string>, ghost i: nat)
    returns (text: string, seen: map<string, nat>)
    requires i < |bases| && base == bases[i] && Tallies(totals, bases) && Tallies(seen0, bases[..i])
    ensures text == LabelOf(bases, i) && Tallies(seen, bases[..i + 1])
  {
    BumpTallies(seen0, bases, i);
    seen := Bump(seen0, base);
    text := base;
    if CountIn(totals, base) > 1 {
      text := base + "#" + Decimal(CountIn(seen, base));
    }
    LabelFromTallies(bases, i, totals, seen, text);
  }

  /** Writes the labels in place. */
  method AssignLabels(targets: array<Target>)
    modifies targets
    ensures targets[..] == LabelledAll(old(targets[..]))
  {
    ghost var before := targets[..];
    ghost var bases, want := Bases(before), LabelledAll(before);
    var totals := CountBases(targets);
    var seen: map<string, nat> := map[];
    for i := 0 to targets.Length
      invariant forall k :: 0 <= k < i ==> targets[k] == want[k]
      invariant forall k :: i <= k < targets.Length ==> targets[k] == before[k]
      invariant Tallies(seen, bases[..i])
    {
      var base := LabelBase(targets[i]);
      var text;
      text, seen := NextLabel(base, totals, seen, bases, i);
      targets[i] := targets[i].(tag := text);
    }
    assert targets[..] == want;
  }

  lemma OccurrencesGrow(bases: seq<string>, i: nat, j: nat)
    requires i < j < |bases| && bases[i] == bases[j]
    ensures Occurrences(bases[..i + 1], bases[i]) < Occurrences(bases[..j + 1], bases[j]) <= Occurrences(bases, bases[j])
  {
    var b := bases[i];
    var between := bases[i + 1..j];
    assert bases[..j + 1] == bases[..i + 1] + between + [b];
    assert bases == bases[..j + 1] + bases[j + 1..];
  }

  /** No base that occurs once is spelled like a numbered label of a base that occurs more often. */
  predicate NumbersUnclaimed(bases: seq<string>) {
    forall i, j :: 0 <= i < |bases| && 0 <= j < |bases| ==> !Claims(bases, i, j)
  }

  /** The base at j, which occurs once, is the label given to the repeated base at i. */
  predicate Claims(bases: seq<string>, i: nat, j: nat)
    requires i < |bases| && j < |bases|
  {
    && Occurrences(bases, bases[i]) > 1 && Occurrences(bases, bases[j]) == 1
    && bases[j] == bases[i] + "#" + Decimal(Occurrences(bases[..i + 1], bases[i]))
  }

  ghost predicate LabelsUnique(bases: seq<string>) {
    forall i, j :: 0 <= i < j < |bases| ==> LabelOf(bases, i) != LabelOf(bases, j)
  }

  lemma SameLabelMeansClaim(bases: seq<string>, i: nat, j: nat)
    requires i < j < |bases| && LabelOf(bases, i) == LabelOf(bases, j)
    ensures Claims(bases, i, j) || Claims(bases, j, i)
  {
    assert bases[i] in bases && bases[j] in bases;
    if bases[i] == bases[j] {
      OccurrencesGrow(bases, i, j);
      assert "#" == ['#'];
      NumberedSuffix(bases[i], bases[j], '#', Occurrences(bases[..i + 1], bases[i]), Occurrences(bases[..j + 1], bases[j]));
    } else if Occurrences(bases, bases[i]) > 1 && Occurrences(bases, bases[j]) > 1 {
      NumberedSuffix(bases[i], bases[j], '#', Occurrences(bases[..i + 1], bases[i]), Occurrences(bases[..j + 1], bases[j]));
    }
  }

  /** Labels are pairwise different exactly when no unrepeated base is spelled like a numbered one. */
  lemma LabelsUniqueExactlyWhen(bases: seq<string>)
    ensures LabelsUnique(bases) <==> NumbersUnclaimed(bases)
  {
    if NumbersUnclaimed(bases) {
      forall i, j | 0 <= i < j < |bases|
        ensures LabelOf(bases, i) != LabelOf(bases, j)
      {
        if LabelOf(bases, i) == LabelOf(bases, j) {
          SameLabelMeansClaim(bases, i, j);
        }
      }
    }
    if !NumbersUnclaimed(bases) {
      var i, j :| 0 <= i < |bases| && 0 <= j < |bases| && Claims(bases, i, j);
      assert LabelOf(bases, i) == LabelOf(bases, j) && i != j;
      assert i < j ==> LabelOf(bases, i) == LabelOf(bases, j);
    }
  }

  /** In particular when no base contains '#'. */
  lemma LabelsUniqueWithoutHash(bases: seq<string>)
    requires forall i :: 0 <= i < |bases| ==> '#' !in bases[i]
    ensures LabelsUnique(bases)
  {
    forall i, j | 0 <= i < |bases| && 0 <= j < |bases|
      ensures !Claims(bases, i, j)
    {
      var text := bases[i] + "#" + Decimal(Occurrences(bases[..i + 1], bases[i]));
      assert text[|bases[i]|] == '#' && '#' in text;
    }
    LabelsUniqueExactlyWhen(bases);
  }

  // Repetition

  function Copies(t: Target, n: nat): seq<Target> {
    if n == 0 then [] else Copies(t, n - 1) + [t]
  }

  function Repeated(targets: seq<Target>, n: int): seq<Target> {
    if n <= 1 then targets
    else if targets == [] then []
    else Repeated(targets[..|targets| - 1], n) + Copies(targets[|targets| - 1], n)
  }

  lemma CopiesOf(t: Target, n: nat)
    ensures |Copies(t, n)| == n && forall k :: 0 <= k < n ==> Copies(t, n)[k] == t
  {
  }

  lemma RepeatedLast(targets: seq<Target>, n: nat)
    requires n > 1 && targets != []
    ensures var m := |targets| - 1; Repeated(targets, n) == Repeated(targets[..m], n) + Copies(targets[m], n)
  {
  }

  lemma Successor(m: nat, n: nat)
    ensures (m + 1) * n == m * n + n
  {
  }

  lemma {:induction false} RepeatedLength(targets: seq<Target>, n: nat)
    requires n > 1
    ensures |Repeated(targets, n)| == |targets| * n
  {
    if targets != [] {
      var m := |targets| - 1;
      RepeatedLength(targets[..m], n);
      RepeatedLast(targets, n);
      CopiesOf(targets[m], n);
      Successor(m, n);
    }
  }

  /** Repeating n times gives n consecutive copies of each target, in the targets' order. */
  lemma {:induction false} RepeatedAt(targets: seq<Target>, n: nat, i: nat, k: nat)
    requires n > 1 && i < |targets| && k < n
    ensures i * n + k < |Repeated(targets, n)| && Repeated(targets, n)[i * n + k] == targets[i]
  {
    var m := |targets| - 1;
    RepeatedLast(targets, n);
    if i < m {
      RepeatedAt(targets[..m], n, i, k);
    } else {
      RepeatedLength(targets[..m], n);
      CopiesOf(targets[m], n);
    }
  }

  method RepeatTargets(targets: seq<Target>, n: int) returns (expanded: seq<Target>)
    ensures expanded == Repeated(targets, n)
  {
    if n <= 1 {
      return targets;
    }
    expanded := [];
    for i := 0 to |targets|
      invariant expanded == Repeated(targets[..i], n)
    {
      assert targets[..i + 1][..i] == targets[..i];
      for k := 0 to n
        invariant expanded == Repeated(targets[..i], n) + Copies(targets[i], k)
      {
        expanded := expanded + [targets[i]];
      }
    }
    assert targets[..|targets|] == targets;
  }

  // One session's turn

  /** The accumulated turn of a session: how many events, the joined deltas, the last final text, and the event
      that ended it. */
  datatype Turn = Turn(count: nat, joined: string, finalText: string, ending: Option<Event>)

  const NEW_TURN := Turn(0, "", "", None)

  predicate IsTerminal(e: Event) {
    !e.kind.OtherEvent?
  }

  /** An event of the session itself. A finished turn takes no more. */
  function Take(t: Turn, e: Event): Turn {
    if t.ending.Some? then t
    else Turn(t.count + 1, t.joined + e.delta, if e.finalText != "" then e.finalText else t.finalText,
              if IsTerminal(e) then Some(e) else None)
  }

  /** The turn a session's own events make. */
  function TurnOf(own: seq<Event>): Turn {
    if own == [] then NEW_TURN else Take(TurnOf(own[..|own| - 1]), own[|own| - 1])
  }

  function Own(events: seq<Event>, id: string): seq<Event> {
    if events == [] then []
    else Own(events[..|events| - 1], id) + if events[|events| - 1].sessionID == id then [events[|events| - 1]] else []
  }

  lemma OwnSnoc(events: seq<Event>, e: Event, id: string)
    ensures Own(events + [e], id) == if e.sessionID == id then Own(events, id) + [e] else Own(events, id)
    ensures TurnOf(Own(events + [e], id)) == if e.sessionID == id then Take(TurnOf(Own(events, id)), e) else TurnOf(Own(events, id))
  {
    assert (events + [e])[..|events|] == events;
    assert (Own(events, id) + [e])[..|Own(events, id)|] == Own(events, id);
    assert Own(events, id) + [] == Own(events, id);
  }

  predicate Finished(events: seq<Event>, id: string) {
    TurnOf(Own(events, id)).ending.Some?
  }

  /** What came after the first terminal event of a session, from it or from anyone else, changes nothing. */
  lemma {:induction false} FinishedIsFinal(events: seq<Event>, n: nat, id: string)
    requires n <= |events| && Finished(events[..n], id)
    ensures TurnOf(Own(events, id)) == TurnOf(Own(events[..n], id))
  {
    if n < |events| {
      var m := |events| - 1;
      assert events[..m][..n] == events[..n];
      FinishedIsFinal(events[..m], n, id);
      assert events == events[..m] + [events[m]];
      OwnSnoc(events[..m], events[m], id);
    } else {
      assert events[..n] == events;
    }
  }

  /** A session is finished exactly when a terminal event of its own has been seen. */
  lemma {:induction false} FinishedExactlyWhenTerminal(events: seq<Event>, id: string)
    ensures Finished(events, id) <==> exists i :: 0 <= i < |events| && events[i].sessionID == id && IsTerminal(events[i])
  {
    if events != [] {
      var m := |events| - 1;
      FinishedExactlyWhenTerminal(events[..m], id);
      assert events == events[..m] + [events[m]];
      OwnSnoc(events[..m], events[m], id);
      if Finished(events[..m], id) {
        var i :| 0 <= i < m && events[..m][i].sessionID == id && IsTerminal(events[..m][i]);
        assert events[i].sessionID == id && IsTerminal(events[i]);
      }
      if i :| 0 <= i < |events| && events[i].sessionID == id && IsTerminal(events[i]) {
        assert i < m ==> events[..m][i] == events[i];
      }
    }
  }

  /** The usage recorded at the end, which is that after the stop when it could be read. */
  function FinalUsage(c: Closing, keep: bool): U.Usage {
    var before := if c.before.Some? then c.before.value else U.ZERO;
    if keep || c.stopError.Some? || c.after.None? then before else c.after.value
  }

  function ResultOf(target: Target, t: Turn, keep: bool, c: Closing): Result
    requires t.ending.Some?
  {
    var e := t.ending.value;
    Result(
      target,
      if e.kind.TurnCompleted? then FirstNonEmpty([t.finalText, TrimSpace(t.joined), e.summary]) else TrimSpace(t.joined),
      if e.kind.TurnCompleted? then "" else e.errorText,
      !keep && c.stopError.None?,
      if !keep && c.stopError.Some? then c.stopError.value else "",
      t.count, FinalUsage(c, keep))
  }

  // The whole run

  /** The target that a session id stands for: if two starts return one id, the later. */
  function Sessions(targets: seq<Target>, starts: seq<Start>): map<string, Target>
    requires |targets| == |starts|
  {
    if starts == [] then map[]
    else
      var m := |starts| - 1;
      var init := Sessions(targets[..m], starts[..m]);
      if starts[m].Started? then init[starts[m].sessionID := targets[m]] else init
  }

  function StartFailures(targets: seq<Target>, starts: seq<Start>): seq<Result>
    requires |targets| == |starts|
  {
    if starts == [] then []
    else
      var m := |starts| - 1;
      StartFailures(targets[..m], starts[..m])
      + if starts[m].Failed? then [Result(targets[m], "", starts[m].error, false, "", 0, U.ZERO)] else []
  }

  /** The sessions that have finished, in the order in which they did. */
  function Finishers(ids: set<string>, events: seq<Event>): seq<string> {
    if events == [] then []
    else
      var init, last := events[..|events| - 1], events[|events| - 1];
      Finishers(ids, init)
      + if last.sessionID in ids && IsTerminal(last) && !Finished(init, last.sessionID) then [last.sessionID] else []
  }

  lemma {:induction false} FinishersAreTheFinished(ids: set<string>, events: seq<Event>)
    ensures forall id :: id in Finishers(ids, events) <==> id in ids && Finished(events, id)
    ensures Distinct(Finishers(ids, events))
  {
    if events != [] {
      var init, last := events[..|events| - 1], events[|events| - 1];
      FinishersAreTheFinished(ids, init);
      assert events == init + [last];
      forall id
        ensures id in Finishers(ids, events) <==> id in ids && Finished(events, id)
      {
        OwnSnoc(init, last, id);
      }
    }
  }

  /** The results of finished sessions, computed from all the events of the run. */
  function Finishes(sessions: map<string, Target>, order: seq<string>, events: seq<Event>, keep: bool, closings: map<string, Closing>): seq<Result>
    requires forall id :: id in order ==> id in sessions && id in closings && Finished(events, id)
  {
    seq(|order|, k requires 0 <= k < |order| =>
      assert order[k] in order;
      assert Finished(events, order[k]);
      ResultOf(sessions[order[k]], TurnOf(Own(events, order[k])), keep, closings[order[k]]))
  }

  function SumOf(results: seq<Result>): U.Usage {
    if results == [] then U.ZERO else U.Add(SumOf(results[..|results| - 1]), results[|results| - 1].usage)
  }

  ghost predicate AllFinish(ids: set<string>, events: seq<Event>) {
    forall id :: id in ids ==> Finished(events, id)
  }

  /** What a finished run put out: a result for each failed start, then one for each session in the order in
      which they finished, each made of that session's own events. */
  ghost predicate Accounts(sessions: map<string, Target>, failures: seq<Result>, events: seq<Event>, keep: bool,
                           closings: map<string, Closing>, out: Output)
  {
    && AllFinish(sessions.Keys, events)
    && sessions.Keys <= closings.Keys
    && (exists n ::
          0 <= n <= |events| && AllFinish(sessions.Keys, events[..n]) && EndsAt(sessions, failures, events, n, keep, closings, out))
    && out.total == SumOf(out.targets)
  }

  ghost predicate EndsAt(sessions: map<string, Target>, failures: seq<Result>, events: seq<Event>, n: nat, keep: bool,
                         closings: map<string, Closing>, out: Output)
    requires n <= |events| && AllFinish(sessions.Keys, events) && sessions.Keys <= closings.Keys
  {
    var order := Finishers(sessions.Keys, events[..n]);
    && (forall id :: id in order ==> id in sessions.Keys)
    && out.targets == failures + Finishes(sessions, order, events, keep, closings)
  }

  /** Closes a finished session: its text or error, then its usage before and, unless it is kept, after it is stopped. */
  method Finish(target: Target, t: Turn, keep: bool, c: Closing) returns (r: Result)
    requires t.ending.Some?
    ensures r == ResultOf(target, t, keep, c)
  {
    var e := t.ending.value;
    r := Result(target, "", "", false, "", t.count, U.ZERO);
    if e.kind.TurnCompleted? {
      r := r.(text := FirstNonEmpty([t.finalText, TrimSpace(t.joined), e.summary]));
    } else {
      r := r.(text := TrimSpace(t.joined), error := e.errorText);
    }
    if c.before.Some? {
      r := r.(usage := c.before.value);
    }
    if keep {
      return;
    }
    if c.stopError.Some? {
      r := r.(stopError := c.stopError.value);
      return;
    }
    r := r.(stopped := true);
    if c.after.Some? {
      r := r.(usage := c.after.value);
    }
  }

  method StartAll(targets: seq<Target>, starts: seq<Start>) returns (sessions: map<string, Target>, results: seq<Result>)
    requires |targets| == |starts|
    ensures sessions == Sessions(targets, starts) && results == StartFailures(targets, starts)
  {
    sessions, results := map[], [];
    for i := 0 to |targets|
      invariant sessions == Sessions(targets[..i], starts[..i]) && results == StartFailures(targets[..i], starts[..i])
    {
      assert targets[..i + 1][..i] == targets[..i] && starts[..i + 1][..i] == starts[..i];
      match starts[i] {
        case Failed(error) => results := results + [Result(targets[i], "", error, false, "", 0, U.ZERO)];
        case Started(id) => sessions := sessions[id := targets[i]];
      }
    }
    assert targets[..|targets|] == targets && starts[..|starts|] == starts;
  }

  // What the loop has achieved after the events seen so far

  ghost predicate TurnsTaken(sessions: map<string, Target>, seen: seq<Event>, turns: map<string, Turn>) {
    turns.Keys == sessions.Keys && forall id :: id in sessions ==> turns[id] == TurnOf(Own(seen, id))
  }

  ghost predicate ResultsMade(sessions: map<string, Target>, failures: seq<Result>, seen: seq<Event>, order: seq<string>,
                              results: seq<Result>, keep: bool, closings: map<string, Closing>)
  {
    && sessions.Keys <= closings.Keys
    && order == Finishers(sessions.Keys, seen)
    && Distinct(order) && (forall id :: id in order <==> id in sessions && Finished(seen, id))
    && results == failures + Finishes(sessions, order, seen, keep, closings)
  }

  lemma OrderSnoc(sessions: map<string, Target>, seen: seq<Event>, e: Event)
    ensures Finishers(sessions.Keys, seen + [e]) == Finishers(sessions.Keys, seen)
              + if e.sessionID in sessions.Keys && IsTerminal(e) && !Finished(seen, e.sessionID) then [e.sessionID] else []
  {
    assert (seen + [e])[..|seen|] == seen;
  }

  lemma FinishedStays(seen: seq<Event>, e: Event, id: string)
    requires Finished(seen, id)
    ensures TurnOf(Own(seen + [e], id)) == TurnOf(Own(seen, id)) && Finished(seen + [e], id)
  {
    OwnSnoc(seen, e, id);
  }

  lemma FinishesStay(sessions: map<string, Target>, order: seq<string>, seen: seq<Event>, e: Event, keep: bool, closings: map<string, Closing>)
    requires forall id :: id in order ==> id in sessions && id in closings && Finished(seen, id)
    ensures forall id :: id in order ==> Finished(seen + [e], id)
    ensures Finishes(sessions, order, seen + [e], keep, closings) == Finishes(sessions, order, seen, keep, closings)
  {
    forall id | id in order
      ensures TurnOf(Own(seen + [e], id)) == TurnOf(Own(seen, id)) && Finished(seen + [e], id)
    {
      FinishedStays(seen, e, id);
    }
  }

  lemma TurnsAdvance(sessions: map<string, Target>, seen: seq<Event>, turns: map<string, Turn>, e: Event)
    requires TurnsTaken(sessions, seen, turns)
    ensures e.sessionID in sessions ==> TurnsTaken(sessions, seen + [e], turns[e.sessionID := Take(turns[e.sessionID], e)])
    ensures e.sessionID !in sessions || turns[e.sessionID].ending.Some? ==> TurnsTaken(sessions, seen + [e], turns)
  {
    forall id | id in sessions
      ensures id != e.sessionID ==> TurnOf(Own(seen + [e], id)) == turns[id]
      ensures id == e.sessionID ==> TurnOf(Own(seen + [e], id)) == Take(turns[id], e)
    {
      TurnSnoc(seen, e, id, turns[id]);
    }
  }

  lemma TurnSnoc(seen: seq<Event>, e: Event, id: string, t: Turn)
    requires t == TurnOf(Own(seen, id))
    ensures id != e.sessionID ==> TurnOf(Own(seen + [e], id)) == t
    ensures id == e.sessionID ==> TurnOf(Own(seen + [e], id)) == Take(t, e)
  {
    OwnSnoc(seen, e, id);
  }

  /** An event that ends no unfinished session of the run leaves the results as they are. */
  lemma ResultsStay(sessions: map<string, Target>, failures: seq<Result>, seen: seq<Event>, order: seq<string>,
                    results: seq<Result>, keep: bool, closings: map<string, Closing>, e: Event)
    requires ResultsMade(sessions, failures, seen, order, results, keep, closings)
    requires e.sessionID !in sessions || Finished(seen, e.sessionID) || !IsTerminal(e)
    ensures ResultsMade(sessions, failures, seen + [e], order, results, keep, closings)
  {
    OrderSnoc(sessions, seen, e);
    FinishersAreTheFinished(sessions.Keys, seen + [e]);
    FinishesStay(sessions, order, seen, e, keep, closings);
  }

  /** One that does adds that session's result, and no other. */
  lemma ResultsGrow(sessions: map<string, Target>, failures: seq<Result>, seen: seq<Event>, order: seq<string>,
                    results: seq<Result>, keep: bool, closings: map<string, Closing>, e: Event, result: Result)
    requires ResultsMade(sessions, failures, seen, order, results, keep, closings)
    requires e.sessionID in sessions && !Finished(seen, e.sessionID) && IsTerminal(e)
    requires Finished(seen + [e], e.sessionID)
    requires result == ResultOf(sessions[e.sessionID], TurnOf(Own(seen + [e], e.sessionID)), keep, closings[e.sessionID])
    ensures ResultsMade(sessions, failures, seen + [e], order + [e.sessionID], results + [result], keep, closings)
  {
    OrderGrows(sessions, seen, order, e);
    FinishesStay(sessions, order, seen, e, keep, closings);
    FinishesSnoc(sessions, order, e.sessionID, seen + [e], keep, closings);
    Append(failures, Finishes(sessions, order, seen + [e], keep, closings), result);
  }

  lemma OrderGrows(sessions: map<string, Target>, seen: seq<Event>, order: seq<string>, e: Event)
    requires order == Finishers(sessions.Keys, seen)
    requires e.sessionID in sessions && !Finished(seen, e.sessionID) && IsTerminal(e)
    ensures order + [e.sessionID] == Finishers(sessions.Keys, seen + [e]) && Distinct(order + [e.sessionID])
    ensures forall id :: id in order + [e.sessionID] <==> id in sessions && Finished(seen + [e], id)
    ensures forall id :: id in order ==> id in order + [e.sessionID]
    ensures e.sessionID in order + [e.sessionID]
  {
    OrderSnoc(sessions, seen, e);
    FinishersAreTheFinished(sessions.Keys, seen + [e]);
  }

  lemma Append(a: seq<Result>, b: seq<Result>, r: Result)
    ensures (a + b) + [r] == a + (b + [r])
  {
  }

  lemma FinishesSnoc(sessions: map<string, Target>, order: seq<string>, id: string, events: seq<Event>, keep: bool, closings: map<string, Closing>)
    requires forall x :: x in order + [id] ==> x in sessions && x in closings && Finished(events, x)
    requires forall x :: x in order ==> x in order + [id]
    requires id in order + [id]
    ensures Finishes(sessions, order + [id], events, keep, closings)
         == Finishes(sessions, order, events, keep, closings) + [ResultOf(sessions[id], TurnOf(Own(events, id)), keep, closings[id])]
  {
  }

  lemma NothingSeenYet(sessions: map<string, Target>, failures: seq<Result>, keep: bool, closings: map<string, Closing>)
    requires sessions.Keys <= closings.Keys
    ensures TurnsTaken(sessions, [], map id | id in sessions :: NEW_TURN)
    ensures ResultsMade(sessions, failures, [], [], failures, keep, closings)
  {
  }

  /** The event loop. It ends normally exactly when every session finishes within the stream. */
  method Collect(sessions: map<string, Target>, failures: seq<Result>, events: seq<Event>, keep: bool, closings: map<string, Closing>)
    returns (r: Outcome)
    requires sessions.Keys <= closings.Keys
    ensures r.Ok? <==> AllFinish(sessions.Keys, events)
    ensures r.Ok? ==> Accounts(sessions, failures, events, keep, closings, r.output)
  {
    var turns: map<string, Turn> := map id | id in sessions :: NEW_TURN;
    var results, remaining, n := failures, |sessions.Keys|, 0;
    ghost var order: seq<string> := [];
    NothingSeenYet(sessions, failures, keep, closings);
    assert events[..0] == [];
    while remaining > 0
      invariant 0 <= n <= |events|
      invariant TurnsTaken(sessions, events[..n], turns)
      invariant ResultsMade(sessions, failures, events[..n], order, results, keep, closings)
      invariant 0 <= remaining == |sessions.Keys| - |order|
      decreases |events| - n
    {
      if n == |events| {
        StillUnfinished(sessions, failures, events, order, results, keep, closings);
        return StreamClosed;
      }
      turns, results, remaining, order := HandleEvent(sessions, failures, events, n, turns, results, remaining, order, keep, closings);
      n := n + 1;
    }
    var total := Total(results);
    r := Ok(Output(results, total));
    Complete(sessions, failures, events, n, order, r.output, keep, closings);
  }

  /** One event of the stream. */
  method HandleEvent(sessions: map<string, Target>, ghost failures: seq<Result>, events: seq<Event>, n: nat,
                     turns0: map<string, Turn>, results0: seq<Result>, remaining0: int, ghost order0: seq<string>,
                     keep: bool, closings: map<string, Closing>)
    returns (turns: map<string, Turn>, results: seq<Result>, remaining: int, ghost order: seq<string>)
    requires n < |events|
    requires TurnsTaken(sessions, events[..n], turns0)
    requires ResultsMade(sessions, failures, events[..n], order0, results0, keep, closings)
    requires 0 <= remaining0 == |sessions.Keys| - |order0|
    ensures TurnsTaken(sessions, events[..n + 1], turns)
    ensures ResultsMade(sessions, failures, events[..n + 1], order, results, keep, closings)
    ensures 0 <= remaining == |sessions.Keys| - |order|
  {
    turns, results, remaining, order := turns0, results0, remaining0, order0;
    var e := events[n];
    var id := e.sessionID;
    assert events[..n + 1] == events[..n] + [e];
    TurnsAdvance(sessions, events[..n], turns, e);
    if id !in turns || turns[id].ending.Some? {
      ResultsStay(sessions, failures, events[..n], order, results, keep, closings, e);
      return;
    }
    var t := Take(turns[id], e);
    turns := turns[id := t];
    if IsTerminal(e) {
      var result := Finish(sessions[id], t, keep, closings[id]);
      assert t == TurnOf(Own(events[..n] + [e], id));
      ResultsGrow(sessions, failures, events[..n], order, results, keep, closings, e, result);
      results, remaining, order := results + [result], remaining - 1, order + [id];
      DistinctWithin(sessions.Keys, order);
    } else {
      ResultsStay(sessions, failures, events[..n], order, results, keep, closings, e);
    }
  }

  lemma StillUnfinished(sessions: map<string, Target>, failures: seq<Result>, events: seq<Event>, order: seq<string>,
                        results: seq<Result>, keep: bool, closings: map<string, Closing>)
    requires ResultsMade(sessions, failures, events[..|events|], order, results, keep, closings)
    requires |order| < |sessions.Keys|
    ensures !AllFinish(sessions.Keys, events)
  {
    assert events[..|events|] == events;
    SomeUnfinished(sessions.Keys, order);
  }

  lemma FinishesSettled(sessions: map<string, Target>, order: seq<string>, events: seq<Event>, n: nat, keep: bool, closings: map<string, Closing>)
    requires n <= |events| && forall id :: id in order ==> id in sessions && id in closings && Finished(events[..n], id)
    ensures forall id :: id in order ==> Finished(events, id)
    ensures Finishes(sessions, order, events, keep, closings) == Finishes(sessions, order, events[..n], keep, closings)
  {
    forall id | id in order
      ensures TurnOf(Own(events, id)) == TurnOf(Own(events[..n], id)) && Finished(events, id)
    {
      FinishedIsFinal(events, n, id);
    }
  }

  /** Once as many sessions have finished as there are, the output accounts for the run, whatever the stream
      still holds. */
  lemma Complete(sessions: map<string, Target>, failures: seq<Result>, events: seq<Event>, n: nat,
                 order: seq<string>, output: Output, keep: bool, closings: map<string, Closing>)
    requires n <= |events| && ResultsMade(sessions, failures, events[..n], order, output.targets, keep, closings)
    requires |order| == |sessions.Keys| && output.total == SumOf(output.targets)
    ensures Accounts(sessions, failures, events, keep, closings, output)
  {
    AllAreIn(sessions.Keys, order);
    FinishesSettled(sessions, order, events, n, keep, closings);
    assert EndsAt(sessions, failures, events, n, keep, closings, output);
  }

  ghost function Elements(order: seq<string>): set<string> {
    set id | id in order
  }

  lemma {:induction false} DistinctCount(order: seq<string>)
    requires Distinct(order)
    ensures |Elements(order)| == |order|
  {
    if order != [] {
      var m := |order| - 1;
      DistinctCount(order[..m]);
      assert order == order[..m] + [order[m]];
      assert Elements(order) == Elements(order[..m]) + {order[m]};
    }
  }

  lemma DistinctWithin(ids: set<string>, order: seq<string>)
    requires Distinct(order) && forall id :: id in order ==> id in ids
    ensures |order| <= |ids|
  {
    DistinctCount(order);
    SubsetIsSmaller(Elements(order), ids);
  }

  lemma SomeUnfinished(ids: set<string>, order: seq<string>)
    requires Distinct(order) && |order| < |ids|
    ensures exists id :: id in ids && id !in order
  {
    DistinctCount(order);
    if forall id :: id in ids ==> id in order {
      assert ids <= Elements(order);
      SubsetIsSmaller(ids, Elements(order));
    }
  }

  lemma AllAreIn(ids: set<string>, order: seq<string>)
    requires Distinct(order) && |order| == |ids| && forall id :: id in order ==> id in ids
    ensures forall id :: id in ids ==> id in order
  {
    DistinctCount(order);
    SameSizeSubset(Elements(order), ids);
  }

  lemma SubsetIsSmaller(a: set<string>, b: set<string>)
    requires a <= b
    ensures |a| <= |b|
  {
    assert b == a + (b - a);
  }

  lemma SameSizeSubset(a: set<string>, b: set<string>)
    requires a <= b && |a| == |b|
    ensures a == b
  {
    assert b == a + (b - a);
    assert |b - a| == 0;
  }

  method Total(results: seq<Result>) returns (total: U.Usage)
    ensures total == SumOf(results)
  {
    total := U.ZERO;
    for i := 0 to |results|
      invariant total == SumOf(results[..i])
    {
      assert results[..i + 1][..i] == results[..i];
      total := U.Add(total, results[i].usage);
    }
    assert results[..|results|] == results;
  }

  // Accounting for every target

  lemma {:induction false} SessionsAreTheStarted(targets: seq<Target>, starts: seq<Start>)
    requires |targets| == |starts|
    ensures forall id :: id in Sessions(targets, starts) <==> Started(id) in starts
  {
    if starts != [] {
      var m := |starts| - 1;
      SessionsAreTheStarted(targets[..m], starts[..m]);
      assert starts == starts[..m] + [starts[m]];
    }
  }

  lemma SessionsDifferSnoc(starts: seq<Start>, s: Start)
    ensures SessionsDiffer(starts + [s]) <==> SessionsDiffer(starts) && (s.Started? ==> s !in starts)
  {
    var all := starts + [s];
    assert forall i :: 0 <= i < |starts| ==> all[i] == starts[i];
    if s.Started? && s in starts {
      var i :| 0 <= i < |starts| && starts[i] == s;
      assert all[i] == all[|starts|];
    }
  }

  lemma {:induction false} FailuresAndSessions(targets: seq<Target>, starts: seq<Start>)
    requires |targets| == |starts|
    ensures |StartFailures(targets, starts)| + |Sessions(targets, starts).Keys| <= |starts|
    ensures |StartFailures(targets, starts)| + |Sessions(targets, starts).Keys| == |starts| <==> SessionsDiffer(starts)
  {
    if starts != [] {
      var m := |starts| - 1;
      var ts, ss := targets[..m], starts[..m];
      FailuresAndSessions(ts, ss);
      SessionsAreTheStarted(ts, ss);
      assert starts == ss + [starts[m]];
      SessionsDifferSnoc(ss, starts[m]);
      StartSnoc(targets, starts);
    }
  }

  lemma StartSnoc(targets: seq<Target>, starts: seq<Start>)
    requires |targets| == |starts| && starts != []
    ensures var m := |starts| - 1;
            var sessions, before := Sessions(targets, starts), Sessions(targets[..m], starts[..m]);
            var failures, earlier := |StartFailures(targets, starts)|, |StartFailures(targets[..m], starts[..m])|;
            match starts[m]
            case Failed(_) => sessions == before && failures == earlier + 1
            case Started(id) => failures == earlier && |sessions.Keys| == |before.Keys| + if id in before then 0 else 1
  {
    var m := |starts| - 1;
    if starts[m].Started? {
      var before := Sessions(targets[..m], starts[..m]);
      assert Sessions(targets, starts).Keys == before.Keys + {starts[m].sessionID};
      assert starts[m].sessionID in before ==> Sessions(targets, starts).Keys == before.Keys;
    }
  }

  /** The sessions that were started have different ids. */
  predicate SessionsDiffer(starts: seq<Start>) {
    forall i, j :: 0 <= i < j < |starts| && starts[i].Started? ==> starts[i] != starts[j]
  }

  /** The targets that results are for. */
  function TargetsOf(results: seq<Result>): seq<Target> {
    if results == [] then [] else TargetsOf(results[..|results| - 1]) + [results[|results| - 1].target]
  }

  lemma {:induction false} TargetsOfConcat(a: seq<Result>, b: seq<Result>)
    ensures TargetsOf(a + b) == TargetsOf(a) + TargetsOf(b)
  {
    if b == [] {
      assert a + b == a;
    } else {
      var n := |b| - 1;
      assert (a + b)[..|a + b| - 1] == a + b[..n];
      TargetsOfConcat(a, b[..n]);
    }
  }

  /** The targets that a list of sessions stands for. */
  function StandFor(sessions: map<string, Target>, order: seq<string>): seq<Target>
    requires forall id :: id in order ==> id in sessions
  {
    seq(|order|, k requires 0 <= k < |order| => assert order[k] in order; sessions[order[k]])
  }

  lemma {:induction false} TargetsOfAt(results: seq<Result>, k: nat)
    requires k < |results|
    ensures |TargetsOf(results)| == |results| && TargetsOf(results)[k] == results[k].target
  {
    var n := |results| - 1;
    if k < n {
      TargetsOfAt(results[..n], k);
    } else if n > 0 {
      TargetsOfAt(results[..n], 0);
    }
  }

  lemma FinishesStandFor(sessions: map<string, Target>, order: seq<string>, events: seq<Event>, keep: bool, closings: map<string, Closing>)
    requires forall id :: id in order ==> id in sessions && id in closings && Finished(events, id)
    ensures TargetsOf(Finishes(sessions, order, events, keep, closings)) == StandFor(sessions, order)
  {
    var results := Finishes(sessions, order, events, keep, closings);
    assert |results| == |order|;
    if order != [] {
      TargetsOfAt(results, 0);
    }
    forall k | 0 <= k < |order|
      ensures TargetsOf(results)[k] == StandFor(sessions, order)[k]
    {
      TargetsOfAt(results, k);
      assert order[k] in order;
    }
  }

  /** Failures and sessions together stand for each target once, in whatever order the sessions are listed. */
  lemma {:induction false} TargetsAreShared(targets: seq<Target>, starts: seq<Start>, order: seq<string>)
    requires |targets| == |starts| && SessionsDiffer(starts)
    requires Distinct(order) && forall id :: id in order <==> id in Sessions(targets, starts)
    ensures multiset(TargetsOf(StartFailures(targets, starts))) + multiset(StandFor(Sessions(targets, starts), order)) == multiset(targets)
  {
    assert order != [] ==> order[0] in order;
    if starts != [] {
      var m := |starts| - 1;
      var ts, ss := targets[..m], starts[..m];
      assert targets == ts + [targets[m]] && starts == ss + [starts[m]];
      SessionsDifferSnoc(ss, starts[m]);
      SessionsAreTheStarted(ts, ss);
      if starts[m].Failed? {
        TargetsAreShared(ts, ss, order);
        FailureTarget(targets, starts);
      } else {
        var p, others := Remove(order, starts[m].sessionID);
        StartedTarget(targets, starts, order, p, others);
        TargetsAreShared(ts, ss, others);
      }
    }
  }

  lemma Remove(order: seq<string>, id: string) returns (p: nat, others: seq<string>)
    requires Distinct(order) && id in order
    ensures p < |order| && order[p] == id && others == order[..p] + order[p + 1..]
    ensures Distinct(others) && forall x :: x in others <==> x in order && x != id
  {
    p :| 0 <= p < |order| && order[p] == id;
    others := order[..p] + order[p + 1..];
    Without(order, p, others);
  }

  lemma StartedTarget(targets: seq<Target>, starts: seq<Start>, order: seq<string>, p: nat, others: seq<string>)
    requires |targets| == |starts| && starts != [] && starts[|starts| - 1].Started?
    requires p < |order| && order[p] == starts[|starts| - 1].sessionID && others == order[..p] + order[p + 1..]
    requires forall id :: id in order <==> id in Sessions(targets, starts)
    requires forall id :: id in others <==> id in order && id != order[p]
    requires order[p] !in Sessions(targets[..|starts| - 1], starts[..|starts| - 1])
    ensures var m := |starts| - 1;
            var before, after := Sessions(targets[..m], starts[..m]), Sessions(targets, starts);
            && StartFailures(targets, starts) == StartFailures(targets[..m], starts[..m])
            && (forall id :: id in others <==> id in before)
            && multiset(StandFor(after, order)) == multiset(StandFor(before, others)) + multiset{targets[m]}
  {
    var m := |starts| - 1;
    assert order[p] in order;
    StandForOneMore(Sessions(targets[..m], starts[..m]), Sessions(targets, starts), order, p, others);
  }

  lemma FailureTarget(targets: seq<Target>, starts: seq<Start>)
    requires |targets| == |starts| && starts != [] && starts[|starts| - 1].Failed?
    ensures var m := |starts| - 1;
            TargetsOf(StartFailures(targets, starts)) == TargetsOf(StartFailures(targets[..m], starts[..m])) + [targets[m]]
  {
    var m := |starts| - 1;
    var before, failure := StartFailures(targets[..m], starts[..m]), Result(targets[m], "", starts[m].error, false, "", 0, U.ZERO);
    assert (before + [failure])[..|before|] == before;
  }

  lemma Without(order: seq<string>, p: nat, others: seq<string>)
    requires p < |order| && Distinct(order) && others == order[..p] + order[p + 1..]
    ensures Distinct(others) && forall id :: id in others <==> id in order && id != order[p]
  {
    forall id
      ensures id in others <==> id in order && id != order[p]
    {
      if id in order && id != order[p] {
        var k :| 0 <= k < |order| && order[k] == id;
        assert others[if k < p then k else k - 1] == id;
      }
    }
  }

  lemma StandForOneMore(before: map<string, Target>, after: map<string, Target>, order: seq<string>, p: nat, others: seq<string>)
    requires p < |order| && others == order[..p] + order[p + 1..]
    requires (forall id :: id in order ==> id in after) && (forall id :: id in others ==> id in before && after[id] == before[id])
    requires order[p] in order
    ensures multiset(StandFor(after, order)) == multiset(StandFor(before, others)) + multiset{after[order[p]]}
  {
    var fewer, more := StandFor(before, others), StandFor(after, order);
    assert forall k :: 0 <= k < |others| ==> others[k] in others;
    assert more[..p] == fewer[..p];
    assert more[p + 1..] == fewer[p..];
    OneMore(fewer, more, p);
  }

  lemma OneMore(fewer: seq<Target>, more: seq<Target>, p: nat)
    requires p < |more| && |more| == |fewer| + 1 && more[..p] == fewer[..p] && more[p + 1..] == fewer[p..]
    ensures multiset(more) == multiset(fewer) + multiset{more[p]}
  {
    assert more == more[..p] + [more[p]] + more[p + 1..];
    assert fewer == fewer[..p] + fewer[p..];
  }

  /** When the loop ends normally there is exactly one result for each requested target, counting the failures
      to start, if and only if the started sessions have different ids: the results are for the requested targets,
      each as often as it was requested. */
  lemma EveryTargetAccountedFor(targets: seq<Target>, starts: seq<Start>, events: seq<Event>, keep: bool,
                                closings: map<string, Closing>, out: Output)
    requires |targets| == |starts|
    requires Accounts(Sessions(targets, starts), StartFailures(targets, starts), events, keep, closings, out)
    ensures |out.targets| <= |targets|
    ensures |out.targets| == |targets| <==> SessionsDiffer(starts)
    ensures multiset(TargetsOf(out.targets)) == multiset(targets) <==> SessionsDiffer(starts)
  {
    var sessions, failures := Sessions(targets, starts), StartFailures(targets, starts);
    OneResultEach(sessions, failures, events, keep, closings, out);
    FailuresAndSessions(targets, starts);
    if SessionsDiffer(starts) {
      ResultsAreForTheirTargets(targets, starts, events, keep, closings, out);
    } else {
      if out.targets != [] {
        TargetsOfAt(out.targets, 0);
      }
      assert |multiset(TargetsOf(out.targets))| == |out.targets| && |multiset(targets)| == |targets|;
    }
  }

  lemma ResultsAreForTheirTargets(targets: seq<Target>, starts: seq<Start>, events: seq<Event>, keep: bool,
                                  closings: map<string, Closing>, out: Output)
    requires |targets| == |starts| && SessionsDiffer(starts)
    requires Accounts(Sessions(targets, starts), StartFailures(targets, starts), events, keep, closings, out)
    ensures multiset(TargetsOf(out.targets)) == multiset(targets)
  {
    var sessions, failures := Sessions(targets, starts), StartFailures(targets, starts);
    var n :| 0 <= n <= |events| && AllFinish(sessions.Keys, events[..n]) && EndsAt(sessions, failures, events, n, keep, closings, out);
    var order := Finishers(sessions.Keys, events[..n]);
    FinishersAreTheFinished(sessions.Keys, events[..n]);
    FinishesStandFor(sessions, order, events, keep, closings);
    TargetsOfConcat(failures, Finishes(sessions, order, events, keep, closings));
    TargetsAreShared(targets, starts, order);
  }

  lemma OneResultEach(sessions: map<string, Target>, failures: seq<Result>, events: seq<Event>, keep: bool,
                      closings: map<string, Closing>, out: Output)
    requires Accounts(sessions, failures, events, keep, closings, out)
    ensures |out.targets| == |failures| + |sessions.Keys|
  {
    var n :| 0 <= n <= |events| && AllFinish(sessions.Keys, events[..n]) && EndsAt(sessions, failures, events, n, keep, closings, out);
    FinishersCount(sessions.Keys, events[..n]);
  }

  lemma FinishersCount(ids: set<string>, events: seq<Event>)
    requires AllFinish(ids, events)
    ensures |Finishers(ids, events)| == |ids|
  {
    var order := Finishers(ids, events);
    FinishersAreTheFinished(ids, events);
    DistinctCount(order);
    assert Elements(order) == ids;
  }

  /** With different ids, each session stands for the target that started it. */
  lemma {:induction false} SessionsStandForTheirTargets(targets: seq<Target>, starts: seq<Start>, i: nat)
    requires |targets| == |starts| && SessionsDiffer(starts) && i < |starts| && starts[i].Started?
    ensures starts[i].sessionID in Sessions(targets, starts)
    ensures Sessions(targets, starts)[starts[i].sessionID] == targets[i]
  {
    var m := |starts| - 1;
    if i < m {
      SessionsStandForTheirTargets(targets[..m], starts[..m], i);
      assert starts[i] != starts[m];
    }
  }

  /** The targets of a run: repeated, then labelled. */
  method PrepareTargets(requested: seq<Target>, repeats: int) returns (labelled: seq<Target>)
    ensures labelled == LabelledAll(Repeated(requested, repeats))
  {
    var expanded := RepeatTargets(requested, repeats);
    var targets := new Target[|expanded|](i requires 0 <= i < |expanded| => expanded[i]);
    assert targets[..] == expanded;
    AssignLabels(targets);
    labelled := targets[..];
  }

  /** Start every target and collect the results. */
  method StartAndCollect(targets: seq<Target>, starts: seq<Start>, events: seq<Event>, keep: bool, closings: map<string, Closing>)
    returns (r: Outcome)
    requires |starts| == |targets|
    requires forall i :: 0 <= i < |starts| && starts[i].Started? ==> starts[i].sessionID in closings
    ensures r.Ok? <==> AllFinish(Sessions(targets, starts).Keys, events)
    ensures r.Ok? ==> Accounts(Sessions(targets, starts), StartFailures(targets, starts), events, keep, closings, r.output)
  {
    var sessions, failures := StartAll(targets, starts);
    SessionsAreTheStarted(targets, starts);
    r := Collect(sessions, failures, events, keep, closings);
  }

  /** The output of a run with these targets, and that it has one result for each exactly when it should. */
  ghost predicate Delivers(targets: seq<Target>, starts: seq<Start>, events: seq<Event>, keep: bool, closings: map<string, Closing>, out: Output)
    requires |targets| == |starts|
  {
    && Accounts(Sessions(targets, starts), StartFailures(targets, starts), events, keep, closings, out)
    && (multiset(TargetsOf(out.targets)) == multiset(targets) <==> SessionsDiffer(starts))
  }

  /** Repeat, label, start and collect: the results are for the repeated and labelled targets, each once, exactly
      when the started sessions have different ids. */
  method RunFanout(requested: seq<Target>, repeats: int, starts: seq<Start>, events: seq<Event>, keep: bool, closings: map<string, Closing>)
    returns (r: Outcome)
    requires |starts| == |Repeated(requested, repeats)|
    requires forall i :: 0 <= i < |starts| && starts[i].Started? ==> starts[i].sessionID in closings
    ensures r.Ok? <==> AllFinish(Sessions(LabelledAll(Repeated(requested, repeats)), starts).Keys, events)
    ensures r.Ok? ==> Delivers(LabelledAll(Repeated(requested, repeats)), starts, events, keep, closings, r.output)
  {
    var targets := PrepareTargets(requested, repeats);
    r := StartAndCollect(targets, starts, events, keep, closings);
    if r.Ok? {
      EveryTargetAccountedFor(targets, starts, events, keep, closings, r.output);
    }
  }
}
