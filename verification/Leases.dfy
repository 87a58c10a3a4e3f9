/** The leases table of the workspace store: expiring locks taken by an expiry sweep followed by an
    insert, with callers interleaving between the two SQL statements. */
module Leases {
  import opened Lists

  datatype Key = Key(workspaceID: string, lockKey: string)
  datatype Lease = Lease(key: Key, ownerID: string, acquiredAt: int, expiresAt: int)

  type Table = map<Key, Lease>

  // Statements

  /** DELETE ... AND expires_at_ms < now */
  function DeleteExpired(t: Table, key: Key, now: int): Table {
    if key in t && t[key].expiresAt < now then t - {key} else t
  }

  /** INSERT ... ON CONFLICT DO NOTHING */
  function Insert(t: Table, lease: Lease): Table {
    if lease.key in t then t else t[lease.key := lease]
  }

  /** DELETE ... AND owner_id = owner */
  function DeleteOwned(t: Table, key: Key, ownerID: string): Table {
    if key in t && t[key].ownerID == ownerID then t - {key} else t
  }

  // Interleavings

  /** A call to AcquireLease that has read the clock and has its two statements before it. */
  datatype Flight = Flight(lease: Lease, now: int, swept: bool)

  datatype World = World(table: Table, flights: map<nat, Flight>, clock: int)

  datatype Step =
    | Begin(caller: nat, lease: Lease)
    | Sweep(caller: nat)
    | Store(caller: nat)
    | Release(key: Key, ownerID: string)
    | Reset(key: Key)
    | Tick(elapsed: nat)

  function Apply(w: World, step: Step): World {
    match step
    case Begin(c, lease) => w.(flights := w.flights[c := Flight(lease, w.clock, false)])
    case Sweep(c) =>
      if c !in w.flights then w
      else
        var f := w.flights[c];
        w.(table := DeleteExpired(w.table, f.lease.key, f.now), flights := w.flights[c := f.(swept := true)])
    case Store(c) =>
      if c !in w.flights || !w.flights[c].swept then w
      else w.(table := Insert(w.table, w.flights[c].lease), flights := w.flights - {c})
    case Release(key, ownerID) => w.(table := DeleteOwned(w.table, key, ownerID))
    case Reset(key) => w.(table := w.table - {key})
    case Tick(elapsed) => w.(clock := w.clock + elapsed)
  }

  function Exec(w: World, steps: seq<Step>): World {
    if steps == [] then w else Apply(Exec(w, steps[..|steps| - 1]), steps[|steps| - 1])
  }

  /** The world in which step n is taken. */
  function At(w: World, steps: seq<Step>, n: nat): World
    requires n <= |steps|
  {
    Exec(w, steps[..n])
  }

  lemma AtNext(w: World, steps: seq<Step>, n: nat)
    requires n < |steps|
    ensures At(w, steps, n + 1) == Apply(At(w, steps, n), steps[n])
  {
    assert steps[..n + 1][..n] == steps[..n];
  }

  /** The step is an insert that affected a row: AcquireLease returns true. */
  predicate Acquires(w: World, step: Step, lease: Lease) {
    && step.Store?
    && step.caller in w.flights
    && w.flights[step.caller] == Flight(lease, w.flights[step.caller].now, true)
    && lease.key !in w.table
  }

  predicate Held(w: World, lease: Lease) {
    lease.key in w.table && w.table[lease.key] == lease
  }

  /** What may end a lease: a release naming its owner, a reset of its key, or a sweep made when the clock
      is already past its expiry. */
  predicate Ends(w: World, step: Step, lease: Lease) {
    match step
    case Release(key, ownerID) => key == lease.key && ownerID == lease.ownerID
    case Reset(key) => key == lease.key
    case Sweep(c) => c in w.flights && w.flights[c].lease.key == lease.key && lease.expiresAt < w.flights[c].now
    case _ => false
  }

  /** No call has read a clock later than the present one. */
  predicate ClocksPast(w: World) {
    forall c :: c in w.flights ==> w.flights[c].now <= w.clock
  }

  lemma ClocksStayPast(w: World, steps: seq<Step>, n: nat)
    requires ClocksPast(w) && n <= |steps|
    ensures ClocksPast(At(w, steps, n)) && w.clock <= At(w, steps, n).clock
  {
    if n > 0 {
      ClocksStayPast(w, steps, n - 1);
      AtNext(w, steps, n - 1);
    }
  }

  /** One step takes a held lease away exactly when it Ends it. */
  lemma LostExactlyWhenEnded(w: World, step: Step, lease: Lease)
    requires Held(w, lease)
    ensures Held(Apply(w, step), lease) <==> !Ends(w, step, lease)
    ensures lease.key !in Apply(w, step).table <==> Ends(w, step, lease)
  {
    match step {
      case Sweep(c) =>
        if c in w.flights {
        }
      case _ =>
    }
  }

  /** A held lease stays in the table as long as nothing ends it. */
  lemma HeldUntilEnded(w: World, steps: seq<Step>, i: nat, j: nat, lease: Lease)
    requires i <= j <= |steps|
    requires Held(At(w, steps, i), lease)
    requires forall m :: i <= m < j ==> !Ends(At(w, steps, m), steps[m], lease)
    ensures Held(At(w, steps, j), lease)
  {
    if i < j {
      HeldUntilEnded(w, steps, i, j - 1, lease);
      AtNext(w, steps, j - 1);
      LostExactlyWhenEnded(At(w, steps, j - 1), steps[j - 1], lease);
    }
  }

  /** Mutual exclusion. Between two successful acquires of one key, whoever makes them and however the
      callers interleave, the first lease is ended: by a release in its owner's name, by a reset, or by a
      sweep at a time strictly after its expiry. */
  lemma AcquiresAreSeparated(w: World, steps: seq<Step>, i: nat, j: nat, first: Lease, second: Lease) returns (m: nat)
    requires ClocksPast(w)
    requires i < j < |steps|
    requires Acquires(At(w, steps, i), steps[i], first)
    requires Acquires(At(w, steps, j), steps[j], second)
    requires first.key == second.key
    ensures i < m < j
    ensures Ends(At(w, steps, m), steps[m], first)
    ensures steps[m].Sweep? ==> first.expiresAt < At(w, steps, m).clock
  {
    AtNext(w, steps, i);
    if forall m :: i + 1 <= m < j ==> !Ends(At(w, steps, m), steps[m], first) {
      HeldUntilEnded(w, steps, i + 1, j, first);
      assert false;
    }
    m :| i + 1 <= m < j && Ends(At(w, steps, m), steps[m], first);
    ClocksStayPast(w, steps, m);
  }

  /** Until it expires, a lease whose owner has not released it and that nobody resets is the only one:
      no acquire of its key succeeds. */
  lemma ExclusiveUntilExpiry(w: World, steps: seq<Step>, i: nat, j: nat, first: Lease, second: Lease)
    requires ClocksPast(w)
    requires i < j < |steps|
    requires Acquires(At(w, steps, i), steps[i], first)
    requires At(w, steps, j).clock <= first.expiresAt
    requires forall m :: i < m < j ==> steps[m] != Release(first.key, first.ownerID) && steps[m] != Reset(first.key)
    requires first.key == second.key
    ensures !Acquires(At(w, steps, j), steps[j], second)
    ensures Held(At(w, steps, j), first)
  {
    AtNext(w, steps, i);
    forall m | i + 1 <= m < j
      ensures !Ends(At(w, steps, m), steps[m], first)
    {
      ClocksStayPast(w, steps, m);
      ClockGrows(w, steps, m, j);
    }
    HeldUntilEnded(w, steps, i + 1, j, first);
  }

  lemma ClockGrows(w: World, steps: seq<Step>, m: nat, j: nat)
    requires m <= j <= |steps|
    ensures At(w, steps, m).clock <= At(w, steps, j).clock
  {
    if m < j {
      ClockGrows(w, steps, m, j - 1);
      AtNext(w, steps, j - 1);
    }
  }

  /** A late release by a former owner leaves a lease of anyone else in place, and touches no other key. */
  lemma StaleReleaseIsHarmless(w: World, lease: Lease, key: Key, formerOwner: string)
    requires Held(w, lease)
    ensures Held(Apply(w, Release(key, formerOwner)), lease) <==> !(key == lease.key && formerOwner == lease.ownerID)
  {
    LostExactlyWhenEnded(w, Release(key, formerOwner), lease);
  }

  /** The owner name is the only identity a release checks: a late release of an expired lease does end a
      newer lease taken under the same owner name. */
  lemma SharedOwnerNameLosesLease(key: Key, owner: string)
    ensures var former := Lease(key, owner, 0, 10);
            var latest := Lease(key, owner, 20, 30);
            var w := World(map[key := former], map[], 20);
            var taken := Exec(w, [Begin(0, latest), Sweep(0), Store(0)]);
            Held(taken, latest) && !Held(Apply(taken, Release(key, owner)), latest)
  {
    var former := Lease(key, owner, 0, 10);
    var latest := Lease(key, owner, 20, 30);
    var w := World(map[key := former], map[], 20);
    var steps := [Begin(0, latest), Sweep(0), Store(0)];
    assert steps[..2] == [Begin(0, latest), Sweep(0)] && steps[..2][..1] == [Begin(0, latest)];
    assert steps[..1][..0] == [];
    assert Exec(w, steps[..1]) == Apply(w, Begin(0, latest));
    assert Exec(w, steps[..2]) == Apply(Apply(w, Begin(0, latest)), Sweep(0));
  }

  // The store

  class LeaseStore {
    var leases: Table

    constructor ()
      ensures leases == map[]
    {
      leases := map[];
    }

    /** Run without interruption, an acquire succeeds exactly when the key is free or its lease has expired
        strictly before now; on success the caller's lease is the one stored, on failure nothing changes. */
    method AcquireLease(lease: Lease, now: int) returns (acquired: bool)
      modifies this
      ensures acquired <==> lease.key !in old(leases) || old(leases)[lease.key].expiresAt < now
      ensures leases == if acquired then old(leases)[lease.key := lease] else old(leases)
      ensures leases == Insert(DeleteExpired(old(leases), lease.key, now), lease)
    {
      if lease.key in leases && leases[lease.key].expiresAt < now {
        leases := leases - {lease.key};
      }
      acquired := lease.key !in leases;
      if acquired {
        leases := leases[lease.key := lease];
      }
    }

    method ReleaseLease(key: Key, ownerID: string)
      modifies this
      ensures leases == DeleteOwned(old(leases), key, ownerID)
      ensures forall k :: k in old(leases) && (k != key || old(leases)[k].ownerID != ownerID) ==> k in leases && leases[k] == old(leases)[k]
      ensures forall k :: k in leases ==> k in old(leases)
      ensures key in leases ==> leases[key].ownerID != ownerID
    {
      if key in leases && leases[key].ownerID == ownerID {
        leases := leases - {key};
      }
    }

    /** An expired lease is not reported, although its row may still be there. */
    method GetLease(key: Key, now: int) returns (lease: Option<Lease>)
      ensures lease.Some? <==> key in leases && now <= leases[key].expiresAt
      ensures lease.Some? ==> lease.value == leases[key]
    {
      if key !in leases || leases[key].expiresAt < now {
        return None;
      }
      return Some(leases[key]);
    }

    method ResetLease(key: Key)
      modifies this
      ensures leases == old(leases) - {key}
    {
      leases := leases - {key};
    }
  }

  /** GetLease and AcquireLease agree: a key is reported free at a time exactly when an uninterrupted
      acquire at that time would succeed. */
  method FreeExactlyWhenAcquirable(store: LeaseStore, lease: Lease, now: int) returns (seen: Option<Lease>, acquired: bool)
    modifies store
    ensures acquired <==> seen.None?
  {
    seen := store.GetLease(lease.key, now);
    acquired := store.AcquireLease(lease, now);
  }
}
