/** The wakeups table of the workspace store: timers that can be paused and resumed. */
module Wakeups {
  import opened Lists

  /** pausedAt == 0 means the wakeup is not paused, firedAt == 0 not fired, cancelledAt == 0 not cancelled. */
  datatype Wakeup = Wakeup(
    id: string, workspaceID: string, ownerID: string, body: string, createdAt: int, dueAt: int,
    firedAt: int, cancelledAt: int, pausedAt: int, pausedRemaining: int)

  function Max0(n: int): nat {
    if n < 0 then 0 else n
  }

  // Operations on one row

  predicate CanPause(w: Wakeup) {
    w.firedAt == 0 && w.cancelledAt == 0 && w.pausedAt == 0
  }

  function Pause(w: Wakeup, now: int): Wakeup {
    if CanPause(w) then w.(pausedAt := now, pausedRemaining := Max0(w.dueAt - now)) else w
  }

  function Resume(w: Wakeup, now: int): Wakeup {
    if w.pausedAt == 0 then w
    else w.(pausedAt := 0, pausedRemaining := 0, dueAt := now + w.pausedRemaining)
  }

  function Cancel(w: Wakeup, now: int): Wakeup {
    if w.cancelledAt == 0 && w.firedAt == 0 then w.(cancelledAt := now) else w
  }

  function Reset(w: Wakeup, dueAt: int): Wakeup {
    w.(dueAt := dueAt, firedAt := 0, cancelledAt := 0, pausedAt := 0, pausedRemaining := 0)
  }

  // Histories

  datatype Operation = DoPause | DoResume | DoCancel

  datatype Event = Event(op: Operation, at: int)

  function Step(w: Wakeup, e: Event): Wakeup {
    match e.op
    case DoPause => Pause(w, e.at)
    case DoResume => Resume(w, e.at)
    case DoCancel => Cancel(w, e.at)
  }

  function Run(w: Wakeup, events: seq<Event>): Wakeup {
    if events == [] then w else Step(Run(w, events[..|events| - 1]), events[|events| - 1])
  }

  /** The clock reading of the last event, or the starting time. */
  function LastTime(start: int, events: seq<Event>): int {
    if events == [] then start else events[|events| - 1].at
  }

  /** The clock is positive and does not run backwards. */
  predicate Ordered(start: int, events: seq<Event>, now: int)
  {
    if events == [] then 0 < start <= now
    else events[|events| - 1].at <= now && Ordered(start, events[..|events| - 1], events[|events| - 1].at)
  }

  predicate Paused(w: Wakeup) {
    w.pausedAt != 0
  }

  /** Time between start and now during which the wakeup was paused. */
  function PausedTime(w: Wakeup, start: int, events: seq<Event>, now: int): int {
    (if events == [] then 0 else PausedTime(w, start, events[..|events| - 1], LastTime(start, events)))
    + if Paused(Run(w, events)) then now - LastTime(start, events) else 0
  }

  /** Time between start and now during which it was not paused. */
  function RunningTime(w: Wakeup, start: int, events: seq<Event>, now: int): int {
    now - start - PausedTime(w, start, events, now)
  }

  /** By how much the accepted pauses came after the due time they found, in total. */
  function Lateness(w: Wakeup, events: seq<Event>): nat {
    if events == [] then 0
    else
      var init, last := events[..|events| - 1], events[|events| - 1];
      var before := Run(w, init);
      Lateness(w, init) + if last.op.DoPause? && CanPause(before) then Max0(last.at - before.dueAt) else 0
  }

  /** Time left at a moment: frozen while paused. */
  function Remaining(w: Wakeup, now: int): int {
    if Paused(w) then w.pausedRemaining else Max0(w.dueAt - now)
  }

  /** The due time the wakeup has, or would have if it were resumed now. */
  function DueIfResumed(w: Wakeup, now: int): int {
    if Paused(w) then now + w.pausedRemaining else w.dueAt
  }

  predicate PausedIsNonNegative(w: Wakeup) {
    Paused(w) ==> 0 <= w.pausedRemaining
  }

  /** Time is conserved: whatever the sequence of pauses, resumes and cancellations, what is left is what
      was left at the start less the time during which the wakeup was not paused, and never below zero. */
  lemma {:induction false} TimeIsConserved(w: Wakeup, start: int, events: seq<Event>, now: int)
    requires PausedIsNonNegative(w) && Ordered(start, events, now)
    ensures Remaining(Run(w, events), now) == Max0(Remaining(w, start) - RunningTime(w, start, events, now))
    ensures RunningTime(w, start, events, now) >= 0
    ensures PausedIsNonNegative(Run(w, events))
  {
    if events != [] {
      TimeIsConserved(w, start, events[..|events| - 1], events[|events| - 1].at);
    }
  }

  lemma {:induction false} OrderedIsPositive(start: int, events: seq<Event>, now: int)
    requires Ordered(start, events, now)
    ensures 0 < now
  {
    if events != [] {
      OrderedIsPositive(start, events[..|events| - 1], events[|events| - 1].at);
    }
  }

  /** The due time moves by the time spent paused plus the lateness of the pauses. */
  lemma {:induction false} DueTimeShifts(w: Wakeup, start: int, events: seq<Event>, now: int)
    requires Ordered(start, events, now)
    ensures DueIfResumed(Run(w, events), now)
         == DueIfResumed(w, start) + PausedTime(w, start, events, now) + Lateness(w, events)
  {
    if events != [] {
      var init, last := events[..|events| - 1], events[|events| - 1];
      DueTimeShifts(w, start, init, last.at);
      OrderedIsPositive(start, init, last.at);
    }
  }

  /** Every pause that was accepted began no later than the due time then in force. */
  predicate PausesOnTime(w: Wakeup, events: seq<Event>) {
    forall i :: 0 <= i < |events| && events[i].op.DoPause? && CanPause(Run(w, events[..i])) ==>
      events[i].at <= Run(w, events[..i]).dueAt
  }

  lemma {:induction false} NotLateExactlyWhenOnTime(w: Wakeup, events: seq<Event>)
    ensures Lateness(w, events) == 0 <==> PausesOnTime(w, events)
  {
    if events != [] {
      var n := |events| - 1;
      var init := events[..n];
      NotLateExactlyWhenOnTime(w, init);
      assert forall i :: 0 <= i < n ==> init[..i] == events[..i] && init[i] == events[i];
      if PausesOnTime(w, init) && !PausesOnTime(w, events) {
        var i :| 0 <= i < |events| && events[i].op.DoPause? && CanPause(Run(w, events[..i]))
                 && events[i].at > Run(w, events[..i]).dueAt;
        assert i == n;
      }
      if !PausesOnTime(w, init) {
        var i :| 0 <= i < n && init[i].op.DoPause? && CanPause(Run(w, init[..i])) && init[i].at > Run(w, init[..i]).dueAt;
        assert events[i].at > Run(w, events[..i]).dueAt;
      }
      if PausesOnTime(w, events) && events[n].op.DoPause? && CanPause(Run(w, init)) {
        assert events[n].at <= Run(w, events[..n]).dueAt;
      }
    }
  }

  /** The due time is the original one plus the total time paused exactly when every pause began on time. */
  lemma DueShiftsByPausedTimeExactlyWhenOnTime(w: Wakeup, start: int, events: seq<Event>, now: int)
    requires !Paused(w) && !Paused(Run(w, events)) && Ordered(start, events, now)
    ensures Run(w, events).dueAt == w.dueAt + PausedTime(w, start, events, now) <==> PausesOnTime(w, events)
  {
    DueTimeShifts(w, start, events, now);
    NotLateExactlyWhenOnTime(w, events);
  }

  /** A cancelled wakeup stays cancelled, and is never paused again; only its due time can still move, once,
      when it is resumed out of a pause that began before the cancellation. */
  lemma {:induction false} CancelledStays(w: Wakeup, events: seq<Event>)
    requires w.cancelledAt != 0
    ensures Run(w, events).cancelledAt == w.cancelledAt
    ensures Paused(Run(w, events)) ==> Run(w, events) == w
    ensures !Paused(w) ==> Run(w, events) == w
  {
    if events != [] {
      CancelledStays(w, events[..|events| - 1]);
    }
  }

  /** What was not asked for stays: a pause notes its time and the time left, a resume moves the due time and forgets the
      pause, and a cancellation notes its time, unless the wakeup has fired or is cancelled already. */
  lemma OperationsTouchTheirFields(w: Wakeup, now: int)
    ensures var p := Pause(w, now);
            && p == w.(pausedAt := p.pausedAt, pausedRemaining := p.pausedRemaining)
            && (w.firedAt == 0 && w.cancelledAt == 0 && w.pausedAt == 0 ==> p.pausedAt == now && p.pausedRemaining == if w.dueAt > now then w.dueAt - now else 0)
            && (w.firedAt != 0 || w.cancelledAt != 0 || w.pausedAt != 0 ==> p == w)
    ensures var r := Resume(w, now);
            && r == w.(pausedAt := 0, pausedRemaining := r.pausedRemaining, dueAt := r.dueAt)
            && (w.pausedAt != 0 ==> r.pausedRemaining == 0 && r.dueAt - now == w.pausedRemaining)
            && (w.pausedAt == 0 ==> r == w)
    ensures var c := Cancel(w, now);
            && c == w.(cancelledAt := c.cancelledAt)
            && c.cancelledAt == if w.firedAt == 0 && w.cancelledAt == 0 then now else w.cancelledAt
  {
  }

  // Between the two statements of a pause or a resume

  /** The update of PauseWakeup, computed from the row it read and applied to the row as it is by then. */
  function StorePause(row: Wakeup, read: Wakeup, now: int): Wakeup {
    row.(pausedAt := now, pausedRemaining := Max0(read.dueAt - now))
  }

  function StoreResume(row: Wakeup, read: Wakeup, now: int): Wakeup {
    row.(pausedAt := 0, pausedRemaining := 0, dueAt := now + read.pausedRemaining)
  }

  /** The updates are not guarded, so a pause whose row was changed after it was read does what a pause of the
      changed row would do exactly when that row could still be paused and had as much time left. */
  lemma InterleavedPauseAgreesExactlyWhen(row: Wakeup, read: Wakeup, now: int)
    requires CanPause(read) && now != 0
    ensures StorePause(row, read, now) == Pause(row, now) <==>
              (CanPause(row) && Max0(row.dueAt - now) == Max0(read.dueAt - now))
              || (!CanPause(row) && row.pausedAt == now && row.pausedRemaining == Max0(read.dueAt - now))
  {
    var stored := StorePause(row, read, now);
    assert stored.pausedAt == now && stored.pausedRemaining == Max0(read.dueAt - now);
    assert stored == row <==> row.pausedAt == now && row.pausedRemaining == Max0(read.dueAt - now);
  }

  /** For instance a reset between the two statements is undone by the next resume: the wakeup comes due by the
      time it had before the reset. */
  lemma InterleavedResetIsLost(read: Wakeup, dueAt: int, now: int, later: int)
    requires CanPause(read) && 0 < now <= read.dueAt
    ensures Resume(StorePause(Reset(read, dueAt), read, now), later).dueAt == later + (read.dueAt - now)
  {
  }

  /** The update of a resume is not guarded either: it does what a resume of the changed row would do exactly when
      that row is paused with the same time left, or already reads as resumed so. */
  lemma InterleavedResumeAgreesExactlyWhen(row: Wakeup, read: Wakeup, now: int)
    requires Paused(read)
    ensures StoreResume(row, read, now) == Resume(row, now) <==>
              (Paused(row) && row.pausedRemaining == read.pausedRemaining)
              || (!Paused(row) && row.pausedRemaining == 0 && row.dueAt == now + read.pausedRemaining)
  {
    var stored := StoreResume(row, read, now);
    assert stored.pausedAt == 0 && stored.pausedRemaining == 0 && stored.dueAt == now + read.pausedRemaining;
    assert Paused(row) ==> Resume(row, now).dueAt == now + row.pausedRemaining;
  }

  /** For instance of two resumes that read one paused row, the second to store moves the due time on by the time
      between their clock readings, although the wakeup was no longer paused. */
  lemma InterleavedResumesDrift(read: Wakeup, now: int, later: int)
    requires Paused(read)
    ensures var first := StoreResume(read, read, now);
            && !Paused(first)
            && StoreResume(first, read, later).dueAt == first.dueAt + (later - now)
            && Resume(first, later).dueAt == first.dueAt
  {
  }

  /** A reset starts afresh: no pause, firing or cancellation before it has any effect afterwards. */
  lemma ResetStartsAfresh(w: Wakeup, events: seq<Event>, dueAt: int, now: int)
    ensures var r := Reset(Run(w, events), dueAt);
            && CanPause(r) && r.dueAt == dueAt && r == Reset(w, dueAt) && Remaining(r, now) == Max0(dueAt - now)
  {
    RunKeepsIdentity(w, events);
  }

  lemma {:induction false} RunKeepsIdentity(w: Wakeup, events: seq<Event>)
    ensures var t := Run(w, events);
            && t.id == w.id && t.workspaceID == w.workspaceID && t.ownerID == w.ownerID && t.body == w.body && t.createdAt == w.createdAt
            && t.firedAt == w.firedAt
  {
    if events != [] {
      RunKeepsIdentity(w, events[..|events| - 1]);
    }
  }

  // The store

  datatype Result = Done | NoSuchRow | WrongState | Duplicate

  class WakeupStore {
    var wakeups: map<string, Wakeup>

    constructor ()
      ensures wakeups == map[]
    {
      wakeups := map[];
    }

    predicate Present(workspaceID: string, id: string)
      reads this
    {
      id in wakeups && wakeups[id].workspaceID == workspaceID
    }

    /** A new row starts out unpaused whatever the argument says, since the insert leaves those columns out. */
    method SetWakeup(wakeup: Wakeup, now: int) returns (r: Result)
      modifies this
      ensures r == if wakeup.id in old(wakeups) then Duplicate else Done
      ensures r == Duplicate ==> wakeups == old(wakeups)
      ensures r == Done ==>
                && wakeup.id in wakeups && wakeups == old(wakeups)[wakeup.id := wakeups[wakeup.id]]
                && !Paused(wakeups[wakeup.id]) && wakeups[wakeup.id].dueAt == wakeup.dueAt
                && wakeups[wakeup.id].createdAt == (if wakeup.createdAt == 0 then now else wakeup.createdAt)
                && wakeups[wakeup.id] == wakeup.(createdAt := wakeups[wakeup.id].createdAt, pausedAt := 0, pausedRemaining := 0)
    {
      if wakeup.id in wakeups {
        return Duplicate;
      }
      var row := wakeup.(pausedAt := 0, pausedRemaining := 0);
      if row.createdAt == 0 {
        row := row.(createdAt := now);
      }
      wakeups := wakeups[wakeup.id := row];
      return Done;
    }

    method GetWakeup(workspaceID: string, id: string) returns (w: Option<Wakeup>)
      ensures w == if Present(workspaceID, id) then Some(wakeups[id]) else None
    {
      if Present(workspaceID, id) {
        return Some(wakeups[id]);
      }
      return None;
    }

    method CancelWakeup(workspaceID: string, id: string, now: int)
      modifies this
      ensures wakeups == if old(Present(workspaceID, id)) then old(wakeups)[id := Cancel(old(wakeups)[id], now)] else old(wakeups)
    {
      if Present(workspaceID, id) && wakeups[id].cancelledAt == 0 && wakeups[id].firedAt == 0 {
        wakeups := wakeups[id := wakeups[id].(cancelledAt := now)];
      }
    }

    method PauseWakeup(workspaceID: string, id: string, now: int) returns (r: Result)
      modifies this
      ensures r == if !old(Present(workspaceID, id)) then NoSuchRow
                   else if CanPause(old(wakeups)[id]) then Done else WrongState
      ensures wakeups == if old(Present(workspaceID, id)) then old(wakeups)[id := Pause(old(wakeups)[id], now)] else old(wakeups)
    {
      var row := GetWakeup(workspaceID, id);
      if row.None? {
        return NoSuchRow;
      }
      var w := row.value;
      if w.firedAt != 0 || w.cancelledAt != 0 || w.pausedAt != 0 {
        return WrongState;
      }
      var remaining := w.dueAt - now;
      if remaining < 0 {
        remaining := 0;
      }
      wakeups := wakeups[id := wakeups[id].(pausedAt := now, pausedRemaining := remaining)];
      return Done;
    }

    method ResumeWakeup(workspaceID: string, id: string, now: int) returns (r: Result)
      modifies this
      ensures r == if !old(Present(workspaceID, id)) then NoSuchRow
                   else if Paused(old(wakeups)[id]) then Done else WrongState
      ensures wakeups == if old(Present(workspaceID, id)) then old(wakeups)[id := Resume(old(wakeups)[id], now)] else old(wakeups)
    {
      var row := GetWakeup(workspaceID, id);
      if row.None? {
        return NoSuchRow;
      }
      if row.value.pausedAt == 0 {
        return WrongState;
      }
      var due := now + row.value.pausedRemaining;
      wakeups := wakeups[id := wakeups[id].(pausedAt := 0, pausedRemaining := 0, dueAt := due)];
      return Done;
    }

    method ResetWakeup(workspaceID: string, id: string, dueAt: int)
      modifies this
      ensures wakeups == if old(Present(workspaceID, id)) then old(wakeups)[id := Reset(old(wakeups)[id], dueAt)] else old(wakeups)
    {
      if Present(workspaceID, id) {
        wakeups := wakeups[id := wakeups[id].(dueAt := dueAt, firedAt := 0, cancelledAt := 0, pausedAt := 0, pausedRemaining := 0)];
      }
    }
  }
}
