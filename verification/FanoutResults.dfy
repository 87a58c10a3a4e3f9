/** What the results of a fanout say about the sessions they stand for. */
module FanoutResults {
  import opened Text
  import opened TextProperties
  import opened Lists
  import opened Places
  import opened Fanout
  import U = UsageLedger

  // A session's own events, up to the one that ends it

  /** Place n of a session's own events is the first at which its turn completes or errs. */
  predicate EndsFirstAt(own: seq<Event>, n: nat) {
    n < |own| && !own[n].kind.OtherEvent? && forall j :: 0 <= j < n ==> own[j].kind.OtherEvent?
  }

  function Deltas(events: seq<Event>): string {
    if events == [] then "" else events[0].delta + Deltas(events[1..])
  }

  lemma {:induction false} DeltasSnoc(events: seq<Event>, e: Event)
    ensures Deltas(events + [e]) == Deltas(events) + e.delta
  {
    if events == [] {
      assert [e][1..] == [];
    } else {
      DeltasSnoc(events[1..], e);
      assert (events + [e])[1..] == events[1..] + [e];
    }
  }

  /** The last final text that is not empty, "" when there is none. */
  predicate IsLastFinal(events: seq<Event>, text: string) {
    || (text == "" && forall i :: 0 <= i < |events| ==> events[i].finalText == "")
    || exists i :: 0 <= i < |events| && events[i].finalText == text != "" && forall j :: i < j < |events| ==> events[j].finalText == ""
  }

  lemma LastFinalSnoc(events: seq<Event>, e: Event, text: string)
    requires IsLastFinal(events, text)
    ensures IsLastFinal(events + [e], if e.finalText != "" then e.finalText else text)
  {
    var all := events + [e];
    if e.finalText != "" {
      assert all[|events|].finalText == e.finalText;
    } else if text != "" {
      var i :| 0 <= i < |events| && events[i].finalText == text != "" && forall j :: i < j < |events| ==> events[j].finalText == "";
      assert all[i].finalText == text;
    }
  }

  /** The turn has taken in these events. */
  predicate Took(t: Turn, events: seq<Event>) {
    t.count == |events| && t.joined == Deltas(events) && IsLastFinal(events, t.finalText)
  }

  lemma TakesOneMore(t: Turn, events: seq<Event>, e: Event)
    requires Took(t, events) && t.ending.None?
    ensures Took(Take(t, e), events + [e])
    ensures Take(t, e).ending == if e.kind.OtherEvent? then None else Some(e)
  {
    DeltasSnoc(events, e);
    LastFinalSnoc(events, e, t.finalText);
  }

  lemma {:induction false} TakesWhileOpen(own: seq<Event>, n: nat)
    requires n <= |own| && forall j :: 0 <= j < n ==> own[j].kind.OtherEvent?
    ensures Took(TurnOf(own[..n]), own[..n]) && TurnOf(own[..n]).ending.None?
  {
    if n > 0 {
      TakesWhileOpen(own, n - 1);
      assert own[..n][..n - 1] == own[..n - 1] && own[..n] == own[..n - 1] + [own[n - 1]];
      TakesOneMore(TurnOf(own[..n - 1]), own[..n - 1], own[n - 1]);
    } else {
      assert own[..0] == [];
    }
  }

  lemma {:induction false} TakesNoMore(own: seq<Event>, n: nat, m: nat)
    requires EndsFirstAt(own, n) && n < m <= |own|
    ensures Took(TurnOf(own[..m]), own[..n + 1]) && TurnOf(own[..m]).ending == Some(own[n])
  {
    assert own[..m][..m - 1] == own[..m - 1];
    if m == n + 1 {
      TakesWhileOpen(own, n);
      assert own[..n + 1] == own[..n] + [own[n]];
      TakesOneMore(TurnOf(own[..n]), own[..n], own[n]);
    } else {
      TakesNoMore(own, n, m - 1);
    }
  }

  /** A session's turn is made of its own events up to the first that ends it: all of their deltas in order, and the last
      final text among them. */
  lemma TurnIsOfEventsToItsEnd(own: seq<Event>, n: nat)
    requires EndsFirstAt(own, n)
    ensures Took(TurnOf(own), own[..n + 1]) && TurnOf(own).ending == Some(own[n])
  {
    TakesNoMore(own, n, |own|);
    assert own[..|own|] == own;
  }

  // The result

  /** What the result of a target says, when its session's own events are these and it ended at place n. */
  ghost predicate IsResultOf(r: Result, target: Target, own: seq<Event>, n: nat, keep: bool, c: Closing)
    requires EndsFirstAt(own, n)
  {
    var seen, end := own[..n + 1], own[n];
    && r.target == target && r.eventCount == n + 1
    && (end.kind.TurnErrored? ==> r.text == TrimSpace(Deltas(seen)) && r.error == end.errorText)
    && (end.kind.TurnCompleted? ==>
          && r.error == ""
          && (forall final :: IsLastFinal(seen, final) && TrimSpace(final) != "" ==> r.text == TrimSpace(final))
          && (forall final :: IsLastFinal(seen, final) && TrimSpace(final) == "" ==>
                r.text == if TrimSpace(Deltas(seen)) != "" then TrimSpace(Deltas(seen)) else TrimSpace(end.summary)))
    && IsClosed(r, keep, c)
  }

  /** How the session was closed, and which usage was recorded: that after the stop if there was a stop and it could be
      read, otherwise that before it if it could be read. */
  predicate IsClosed(r: Result, keep: bool, c: Closing) {
    && (r.stopped <==> !keep && c.stopError.None?)
    && r.stopError == (if keep || c.stopError.None? then "" else c.stopError.value)
    && (r.stopped && c.after.Some? ==> r.usage == c.after.value)
    && (!(r.stopped && c.after.Some?) && c.before.Some? ==> r.usage == c.before.value)
    && (!(r.stopped && c.after.Some?) && c.before.None? ==> r.usage == U.Usage(0, 0, 0, 0, 0))
  }

  lemma OneLastFinal(events: seq<Event>, a: string, b: string)
    requires IsLastFinal(events, a) && IsLastFinal(events, b)
    ensures a == b
  {
  }

  lemma ResultSays(target: Target, own: seq<Event>, n: nat, keep: bool, c: Closing)
    requires EndsFirstAt(own, n)
    ensures TurnOf(own).ending.Some? && IsResultOf(ResultOf(target, TurnOf(own), keep, c), target, own, n, keep, c)
  {
    TurnIsOfEventsToItsEnd(own, n);
    var t, seen := TurnOf(own), own[..n + 1];
    FirstOfThree(t.finalText, TrimSpace(t.joined), own[n].summary);
    TrimSpaceIdempotent(t.joined);
    forall final | IsLastFinal(seen, final)
      ensures final == t.finalText
    {
      OneLastFinal(seen, final, t.finalText);
    }
  }

  // The output

  /** A session's own events are those that carry its id, in order. */
  lemma {:induction false} OwnIsOfTheSession(events: seq<Event>, id: string, places: seq<nat>)
    requires Picks(events, (e: Event) => e.sessionID == id, places)
    ensures Own(events, id) == At(events, places)
  {
    OwnIsFiltered(events, id);
    FilterTakesPlaces(events, (e: Event) => e.sessionID == id, places);
  }

  lemma {:induction false} OwnIsFiltered(events: seq<Event>, id: string)
    ensures Own(events, id) == Filter(events, (e: Event) => e.sessionID == id)
  {
    if events != [] {
      OwnIsFiltered(events[..|events| - 1], id);
    }
  }

  lemma InOrder(ids: set<string>, events: seq<Event>, n: nat, id: string) returns (k: nat)
    requires n <= |events| && AllFinish(ids, events[..n]) && id in ids
    ensures k < |Finishers(ids, events[..n])| && Finishers(ids, events[..n])[k] == id
  {
    FinishersAreTheFinished(ids, events[..n]);
    assert id in Finishers(ids, events[..n]);
    k :| 0 <= k < |Finishers(ids, events[..n])| && Finishers(ids, events[..n])[k] == id;
  }

  /** Every session has its result in the output, and the result says what the session's own events say up to its end. */
  lemma OutputSays(sessions: map<string, Target>, failures: seq<Result>, events: seq<Event>, keep: bool,
                   closings: map<string, Closing>, out: Output, id: string, n: nat)
    requires Accounts(sessions, failures, events, keep, closings, out)
    requires id in sessions && EndsFirstAt(Own(events, id), n)
    ensures id in closings
    ensures exists k :: |failures| <= k < |out.targets|
                        && IsResultOf(out.targets[k], sessions[id], Own(events, id), n, keep, closings[id])
  {
    var m :| 0 <= m <= |events| && AllFinish(sessions.Keys, events[..m]) && EndsAt(sessions, failures, events, m, keep, closings, out);
    var order := Finishers(sessions.Keys, events[..m]);
    var k := InOrder(sessions.Keys, events, m, id);
    ResultSays(sessions[id], Own(events, id), n, keep, closings[id]);
    assert out.targets == failures + Finishes(sessions, order, events, keep, closings);
    assert out.targets[|failures| + k] == Finishes(sessions, order, events, keep, closings)[k];
    assert IsResultOf(out.targets[|failures| + k], sessions[id], Own(events, id), n, keep, closings[id]);
  }

  /** Event i is the one that ends the session's turn. */
  predicate EndsTurnAt(events: seq<Event>, id: string, i: nat) {
    && i < |events| && events[i].sessionID == id && !events[i].kind.OtherEvent?
    && forall j :: 0 <= j < i && events[j].sessionID == id ==> events[j].kind.OtherEvent?
  }

  lemma EndOf(events: seq<Event>, id: string) returns (i: nat)
    requires Finished(events, id)
    ensures EndsTurnAt(events, id, i)
  {
    FinishedExactlyWhenTerminal(events, id);
    var last :| 0 <= last < |events| && events[last].sessionID == id && IsTerminal(events[last]);
    i := 0;
    while !(events[i].sessionID == id && !events[i].kind.OtherEvent?)
      invariant 0 <= i <= last
      invariant forall j :: 0 <= j < i && events[j].sessionID == id ==> events[j].kind.OtherEvent?
      decreases last - i
    {
      i := i + 1;
    }
  }

  lemma EndedBefore(events: seq<Event>, id: string, n: nat, i: nat)
    requires n <= |events| && EndsTurnAt(events, id, i)
    ensures Finished(events[..n], id) ==> i < n && EndsTurnAt(events[..n], id, i)
    ensures !Finished(events[..n], id) ==> i >= n
  {
    FinishedExactlyWhenTerminal(events[..n], id);
    if Finished(events[..n], id) {
      var a := EndOf(events[..n], id);
      assert EndsTurnAt(events, id, a) && a == i;
    } else if i < n {
      assert events[..n][i].sessionID == id && IsTerminal(events[..n][i]);
    }
  }

  /** Sessions are listed in the order of the events that end them. */
  lemma {:induction false} FinishersAreInOrder(ids: set<string>, events: seq<Event>, j: nat, k: nat, a: nat, b: nat)
    requires j < k < |Finishers(ids, events)|
    requires EndsTurnAt(events, Finishers(ids, events)[j], a) && EndsTurnAt(events, Finishers(ids, events)[k], b)
    ensures a < b
  {
    var n := |events| - 1;
    var before, order := Finishers(ids, events[..n]), Finishers(ids, events);
    FinishersAreTheFinished(ids, events[..n]);
    assert order[j] == before[j] && order[j] in before;
    EndedBefore(events, order[j], n, a);
    EndedBefore(events, order[k], n, b);
    if k < |before| {
      assert order[k] == before[k] && order[k] in before;
      FinishersAreInOrder(ids, events[..n], j, k, a, b);
    }
  }

  predicate StartFailed(s: Start) {
    s.Failed?
  }

  /** The result of a start that fails: its target and its error, and nothing else. */
  predicate IsFailureOf(r: Result, target: Target, start: Start) {
    start.Failed? && r == Result(target, "", start.error, false, "", 0, U.Usage(0, 0, 0, 0, 0))
  }

  ghost predicate FailuresAt(results: seq<Result>, targets: seq<Target>, starts: seq<Start>, places: seq<nat>) {
    && |results| == |places|
    && forall k :: 0 <= k < |places| ==>
         places[k] < |targets| && places[k] < |starts| && IsFailureOf(results[k], targets[places[k]], starts[places[k]])
  }

  lemma OneMoreFailure(results: seq<Result>, targets: seq<Target>, starts: seq<Start>, places: seq<nat>, m: nat, r: Result)
    requires m < |targets| && m < |starts| && FailuresAt(results, targets[..m], starts[..m], places) && IsFailureOf(r, targets[m], starts[m])
    ensures FailuresAt(results + [r], targets, starts, places + [m])
  {
  }

  /** The starts that fail have their results first, in order, and no other start has one there. */
  lemma {:induction false} FailuresSay(targets: seq<Target>, starts: seq<Start>, places: seq<nat>)
    requires |targets| == |starts| && Picks(starts, StartFailed, places)
    ensures FailuresAt(StartFailures(targets, starts), targets, starts, places)
  {
    if starts == [] {
      PicksNothing(StartFailed, places);
    } else {
      var m := |starts| - 1;
      PicksInit(starts, StartFailed, places);
      if starts[m].Failed? {
        FailuresSay(targets[..m], starts[..m], places[..|places| - 1]);
        OneMoreFailure(StartFailures(targets[..m], starts[..m]), targets, starts, places[..|places| - 1], m,
                       Result(targets[m], "", starts[m].error, false, "", 0, U.ZERO));
        assert places == places[..|places| - 1] + [m];
      } else {
        FailuresSay(targets[..m], starts[..m], places);
      }
    }
  }

  /** A session id stands for the target of the last start that returned it. */
  lemma {:induction false} SessionIsOfTheLastStart(targets: seq<Target>, starts: seq<Start>, i: nat)
    requires |targets| == |starts| && i < |starts| && starts[i].Started?
    requires forall j :: i < j < |starts| ==> starts[j] != starts[i]
    ensures starts[i].sessionID in Sessions(targets, starts) && Sessions(targets, starts)[starts[i].sessionID] == targets[i]
  {
    var m := |starts| - 1;
    if i < m {
      SessionIsOfTheLastStart(targets[..m], starts[..m], i);
    }
  }

  function UsageSum(results: seq<Result>, c: U.Counter): int {
    if results == [] then 0 else U.Read(results[0].usage, c) + UsageSum(results[1..], c)
  }

  lemma {:induction false} UsageSumSnoc(results: seq<Result>, r: Result, c: U.Counter)
    ensures UsageSum(results + [r], c) == UsageSum(results, c) + U.Read(r.usage, c)
  {
    if results == [] {
      assert [r][1..] == [];
    } else {
      UsageSumSnoc(results[1..], r, c);
      assert (results + [r])[1..] == results[1..] + [r];
    }
  }

  /** The total is, counter by counter, the sum of the usages of the results. */
  lemma {:induction false} TotalIsSum(results: seq<Result>, c: U.Counter)
    ensures U.Read(SumOf(results), c) == UsageSum(results, c)
  {
    if results != [] {
      var init, last := results[..|results| - 1], results[|results| - 1];
      TotalIsSum(init, c);
      UsageSumSnoc(init, last, c);
      assert results == init + [last];
      U.ReadAdd(SumOf(init), last.usage, c);
    }
  }

  // Labels

  /** A target goes by its tag, or else by its backend and model, or else by its backend. */
  function NameOf(t: Target): string {
    if TrimSpace(t.tag) != "" then TrimSpace(t.tag)
    else if TrimSpace(t.model) != "" then t.backend + "=" + t.model
    else t.backend
  }

  ghost function PlacesOfBase(bases: seq<string>, base: string, n: nat): set<nat>
    requires n <= |bases|
  {
    set j | 0 <= j < n && bases[j] == base
  }

  lemma OneMorePlace(bases: seq<string>, base: string, m: nat)
    requires m < |bases|
    ensures |PlacesOfBase(bases, base, m + 1)| == |PlacesOfBase(bases, base, m)| + if bases[m] == base then 1 else 0
  {
    var before, now := PlacesOfBase(bases, base, m), PlacesOfBase(bases, base, m + 1);
    assert now == if bases[m] == base then before + {m} else before;
  }

  lemma {:induction false} OccurrencesArePlaces(bases: seq<string>, base: string, n: nat)
    requires n <= |bases|
    ensures Occurrences(bases[..n], base) == |PlacesOfBase(bases, base, n)|
  {
    if n > 0 {
      OccurrencesArePlaces(bases, base, n - 1);
      OneMorePlace(bases, base, n - 1);
      assert bases[..n] == bases[..n - 1] + [bases[n - 1]];
    }
  }

  /** The places among the first n at which a target of this name stands. */
  ghost function NamesakesBefore(targets: seq<Target>, name: string, n: nat): set<nat>
    requires n <= |targets|
  {
    set j | 0 <= j < n && NameOf(targets[j]) == name
  }

  lemma OccurrencesAreNamesakes(targets: seq<Target>, name: string, n: nat)
    requires n <= |targets|
    ensures Occurrences(Bases(targets)[..n], name) == |NamesakesBefore(targets, name, n)|
  {
    OccurrencesArePlaces(Bases(targets), name, n);
    assert PlacesOfBase(Bases(targets), name, n) == NamesakesBefore(targets, name, n);
  }

  /** The label a target is given: its name, if it is the only one of that name, and otherwise its name and a number, which
      counts the targets of that name up to this one. Nothing else of the target changes. */
  lemma LabelSays(targets: seq<Target>, i: nat)
    requires i < |targets|
    ensures |LabelledAll(targets)| == |targets|
    ensures var name := NameOf(targets[i]);
            LabelledAll(targets)[i]
            == targets[i].(tag := if |NamesakesBefore(targets, name, |targets|)| == 1 then name
                                  else name + "#" + Decimal(|NamesakesBefore(targets, name, i + 1)|))
  {
    var name, bases := NameOf(targets[i]), Bases(targets);
    OccurrencesAreNamesakes(targets, name, |targets|);
    OccurrencesAreNamesakes(targets, name, i + 1);
    assert bases[..|targets|] == bases && bases[i] == name;
    assert bases[i] in bases;
  }
}
