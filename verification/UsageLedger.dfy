/** Token usage: cumulative counters, which may restart, turned into per-model and per-mode totals by the
    session ledger, and added up again by the court's usage summary. */
module UsageLedger {
  import opened Lists

  datatype Usage = Usage(input: int, output: int, reasoning: int, cached: int, total: int)
  datatype Counter = Input | Output | Reasoning | Cached | Total

  const ZERO := Usage(0, 0, 0, 0, 0)

  function Read(u: Usage, c: Counter): int {
    match c
    case Input => u.input
    case Output => u.output
    case Reasoning => u.reasoning
    case Cached => u.cached
    case Total => u.total
  }

  function Delta(current: int, previous: int): int {
    if current >= previous then current - previous else current
  }

  function UsageDelta(current: Usage, previous: Option<Usage>): Usage {
    if previous.None? then current
    else
      var p := previous.value;
      Usage(Delta(current.input, p.input), Delta(current.output, p.output), Delta(current.reasoning, p.reasoning),
            Delta(current.cached, p.cached), Delta(current.total, p.total))
  }

  function Add(a: Usage, b: Usage): Usage {
    Usage(a.input + b.input, a.output + b.output, a.reasoning + b.reasoning, a.cached + b.cached, a.total + b.total)
  }

  type Table = map<string, Usage>

  function Entry(t: Table, key: string): Usage {
    if key in t then t[key] else ZERO
  }

  function Attribute(t: Table, key: string, delta: Usage): Table {
    if key != "" && delta != ZERO then t[key := Add(Entry(t, key), delta)] else t
  }

  // Sums over tables

  ghost function Sum(t: Table, c: Counter): int {
    if t == map[] then 0
    else
      var k :| k in t;
      Read(t[k], c) + Sum(t - {k}, c)
  }

  lemma SumTakes(t: Table, k: string, c: Counter)
    requires k in t
    ensures Sum(t, c) == Read(t[k], c) + Sum(t - {k}, c)
  {
    var j :| j in t && Sum(t, c) == Read(t[j], c) + Sum(t - {j}, c);
    if j != k {
      SumTakes(t - {j}, k, c);
      assert t - {j} - {k} == t - {k} - {j};
      SumTakes(t - {k}, j, c);
    }
  }

  lemma SumPut(t: Table, k: string, u: Usage, c: Counter)
    ensures Sum(t[k := u], c) == Sum(t, c) - Read(Entry(t, k), c) + Read(u, c)
  {
    SumTakes(t[k := u], k, c);
    assert t[k := u] - {k} == t - {k};
    if k in t {
      SumTakes(t, k, c);
    } else {
      assert t - {k} == t;
    }
  }

  // Attribution of a log of observations

  /** A cumulative reading together with the model (or mode) the session had when it was taken. */
  datatype Observation = Observation(key: string, usage: Usage)

  function LastUsage(log: seq<Observation>): Option<Usage> {
    if log == [] then None else Some(log[|log| - 1].usage)
  }

  function TableOf(log: seq<Observation>): Table {
    if log == [] then map[]
    else
      var init, last := log[..|log| - 1], log[|log| - 1];
      Attribute(TableOf(init), last.key, UsageDelta(last.usage, LastUsage(init)))
  }

  lemma TableOfSnoc(log: seq<Observation>, o: Observation)
    ensures TableOf(log + [o]) == Attribute(TableOf(log), o.key, UsageDelta(o.usage, LastUsage(log)))
  {
    assert (log + [o])[..|log|] == log;
  }

  /** The part of the deltas that fell to one key; those seen without a key fall to "". */
  function Attributed(log: seq<Observation>, key: string, c: Counter): int {
    if log == [] then 0
    else
      var init, last := log[..|log| - 1], log[|log| - 1];
      Attributed(init, key, c) + if last.key == key then Read(UsageDelta(last.usage, LastUsage(init)), c) else 0
  }

  function Readings(log: seq<Observation>, c: Counter): seq<int> {
    seq(|log|, i requires 0 <= i < |log| => Read(log[i].usage, c))
  }

  /** Position i is the end of a maximal non-decreasing segment. */
  predicate EndsSegment(v: seq<int>, i: nat)
    requires i < |v|
  {
    i == |v| - 1 || v[i + 1] < v[i]
  }

  /** The sum of the segment ends among the first n positions. */
  function SegmentEnds(v: seq<int>, n: nat): int
    requires n <= |v|
  {
    if n == 0 then 0 else SegmentEnds(v, n - 1) + if EndsSegment(v, n - 1) then v[n - 1] else 0
  }

  /** The sum of the last values of the maximal non-decreasing segments. */
  function Peaks(v: seq<int>): int {
    SegmentEnds(v, |v|)
  }

  lemma {:induction false} SegmentEndsOfPrefix(v: seq<int>, x: int, n: nat)
    requires n < |v|
    ensures SegmentEnds(v + [x], n) == SegmentEnds(v, n)
  {
    if n > 0 {
      SegmentEndsOfPrefix(v, x, n - 1);
      assert EndsSegment(v + [x], n - 1) == EndsSegment(v, n - 1);
    }
  }

  lemma PeaksSnoc(v: seq<int>, x: int)
    ensures Peaks(v + [x]) == Peaks(v) + if v == [] then x else Delta(x, v[|v| - 1])
  {
    var w := v + [x];
    if v != [] {
      SegmentEndsOfPrefix(v, x, |v| - 1);
      assert w[|v|] == x && w[|v| - 1] == v[|v| - 1];
      assert SegmentEnds(w, |w|) == SegmentEnds(w, |v|) + x;
      assert EndsSegment(w, |v| - 1) <==> x < v[|v| - 1];
    } else {
      assert w == [x] && SegmentEnds(w, 1) == x;
    }
  }

  lemma ReadDelta(current: Usage, previous: Usage, c: Counter)
    ensures Read(UsageDelta(current, Some(previous)), c) == Delta(Read(current, c), Read(previous, c))
  {
  }

  lemma SumAttribute(t: Table, key: string, delta: Usage, c: Counter)
    ensures Sum(Attribute(t, key, delta), c) == Sum(t, c) + if key != "" then Read(delta, c) else 0
  {
    if key != "" && delta != ZERO {
      SumPut(t, key, Add(Entry(t, key), delta), c);
    }
  }

  /** Conservation with resets: what the table holds together with what was seen without a key is, for each
      counter, the sum of the last readings before each restart and at the end. */
  lemma {:induction false} Conservation(log: seq<Observation>, c: Counter)
    ensures Sum(TableOf(log), c) + Attributed(log, "", c) == Peaks(Readings(log, c))
  {
    if log != [] {
      var init, last := log[..|log| - 1], log[|log| - 1];
      Conservation(init, c);
      var delta := UsageDelta(last.usage, LastUsage(init));
      SumAttribute(TableOf(init), last.key, delta, c);
      assert Readings(log, c) == Readings(init, c) + [Read(last.usage, c)];
      PeaksSnoc(Readings(init, c), Read(last.usage, c));
      if init != [] {
        ReadDelta(last.usage, init[|init| - 1].usage, c);
      }
    }
  }

  /** Each key's entry is what was consumed while the session had that key. */
  lemma {:induction false} EntryIsAttributed(log: seq<Observation>, key: string, c: Counter)
    requires key != ""
    ensures Read(Entry(TableOf(log), key), c) == Attributed(log, key, c)
  {
    if log != [] {
      EntryIsAttributed(log[..|log| - 1], key, c);
    }
  }

  lemma {:induction false} KeysNonEmpty(log: seq<Observation>)
    ensures "" !in TableOf(log)
  {
    if log != [] {
      KeysNonEmpty(log[..|log| - 1]);
    }
  }

  lemma {:induction false} NothingUnattributed(log: seq<Observation>, c: Counter)
    requires forall i :: 0 <= i < |log| ==> log[i].key != ""
    ensures Attributed(log, "", c) == 0
  {
    if log != [] {
      NothingUnattributed(log[..|log| - 1], c);
    }
  }

  predicate NonDecreasing(v: seq<int>) {
    forall i :: 0 < i < |v| ==> v[i - 1] <= v[i]
  }

  lemma {:induction false} PeaksOfNonDecreasing(v: seq<int>)
    requires NonDecreasing(v)
    ensures Peaks(v) == if v == [] then 0 else v[|v| - 1]
  {
    if v != [] {
      var init, last := v[..|v| - 1], v[|v| - 1];
      assert v == init + [last];
      PeaksOfNonDecreasing(init);
      PeaksSnoc(init, last);
      if init != [] {
        assert v[|v| - 2] <= v[|v| - 1];
      }
    }
  }

  // The session ledger

  datatype Tracked = Tracked(
    model: string, mode: string, usage: Usage, last: Option<Usage>, byModel: Table, byMode: Table)

  const FRESH := Tracked("", "", ZERO, None, map[], map[])

  datatype Update =
    | Upsert(sessionID: string, providerID: string, newModel: string, newMode: string, newUsage: Usage)
    | Event(sessionID: string, providerID: string, stateModel: string, stateMode: string, eventMode: string,
            reading: Option<Usage>)

  function Or(preferred: string, otherwise: string): string {
    if preferred != "" then preferred else otherwise
  }

  /** What one update does to the record of its session. */
  function Track(t: Tracked, u: Update): Tracked {
    match u
    case Upsert(_, _, model, mode, usage) =>
      t.(model := Or(model, t.model), mode := Or(mode, t.mode), usage := if usage != ZERO then usage else t.usage)
    case Event(_, _, stateModel, stateMode, eventMode, reading) =>
      var model, mode := Or(stateModel, t.model), Or(eventMode, Or(stateMode, t.mode));
      if reading.None? then t.(model := model, mode := mode)
      else
        var delta := UsageDelta(reading.value, t.last);
        Tracked(model, mode, reading.value, Some(reading.value),
                Attribute(t.byModel, model, delta), Attribute(t.byMode, mode, delta))
  }

  function History(updates: seq<Update>): Tracked {
    if updates == [] then FRESH else Track(History(updates[..|updates| - 1]), updates[|updates| - 1])
  }

  lemma HistorySnoc(updates: seq<Update>, u: Update)
    ensures History(updates + [u]) == Track(History(updates), u)
  {
    assert (updates + [u])[..|updates|] == updates;
  }

  predicate Reads(u: Update) {
    u.Event? && u.reading.Some?
  }

  /** The readings of a session's updates, each with the model the session had once the update's own model
      had been taken in. */
  function ModelLog(updates: seq<Update>): seq<Observation> {
    if updates == [] then []
    else
      var init, last := updates[..|updates| - 1], updates[|updates| - 1];
      ModelLog(init) + if Reads(last) then [Observation(History(updates).model, last.reading.value)] else []
  }

  function ModeLog(updates: seq<Update>): seq<Observation> {
    if updates == [] then []
    else
      var init, last := updates[..|updates| - 1], updates[|updates| - 1];
      ModeLog(init) + if Reads(last) then [Observation(History(updates).mode, last.reading.value)] else []
  }

  lemma TrackReading(t: Tracked, u: Update)
    requires Reads(u)
    ensures Track(t, u).last == u.reading
    ensures Track(t, u).byModel == Attribute(t.byModel, Track(t, u).model, UsageDelta(u.reading.value, t.last))
    ensures Track(t, u).byMode == Attribute(t.byMode, Track(t, u).mode, UsageDelta(u.reading.value, t.last))
  {
  }

  lemma TrackNoReading(t: Tracked, u: Update)
    requires !Reads(u)
    ensures Track(t, u).last == t.last && Track(t, u).byModel == t.byModel && Track(t, u).byMode == t.byMode
  {
  }

  /** The record's model table is the attribution of the readings to models. */
  lemma {:induction false} RecordAttributesModels(updates: seq<Update>)
    ensures History(updates).byModel == TableOf(ModelLog(updates))
    ensures History(updates).last == LastUsage(ModelLog(updates))
  {
    if updates != [] {
      var init, last := updates[..|updates| - 1], updates[|updates| - 1];
      RecordAttributesModels(init);
      if Reads(last) {
        TrackReading(History(init), last);
        TableOfSnoc(ModelLog(init), Observation(History(updates).model, last.reading.value));
      } else {
        TrackNoReading(History(init), last);
        assert ModelLog(updates) == ModelLog(init);
      }
    }
  }

  /** And its mode table is their attribution to modes. */
  lemma {:induction false} RecordAttributesModes(updates: seq<Update>)
    ensures History(updates).byMode == TableOf(ModeLog(updates))
    ensures History(updates).last == LastUsage(ModeLog(updates))
  {
    if updates != [] {
      var init, last := updates[..|updates| - 1], updates[|updates| - 1];
      RecordAttributesModes(init);
      if Reads(last) {
        TrackReading(History(init), last);
        TableOfSnoc(ModeLog(init), Observation(History(updates).mode, last.reading.value));
      } else {
        TrackNoReading(History(init), last);
        assert ModeLog(updates) == ModeLog(init);
      }
    }
  }

  lemma {:induction false} SameReadings(updates: seq<Update>, c: Counter)
    ensures Readings(ModelLog(updates), c) == Readings(ModeLog(updates), c)
  {
    if updates != [] {
      var init, last := updates[..|updates| - 1], updates[|updates| - 1];
      SameReadings(init, c);
      ReadingsConcat(ModelLog(init), ModelLog(updates)[|ModelLog(init)|..], c);
      ReadingsConcat(ModeLog(init), ModeLog(updates)[|ModeLog(init)|..], c);
    }
  }

  lemma ReadingsConcat(a: seq<Observation>, b: seq<Observation>, c: Counter)
    ensures Readings(a + b, c) == Readings(a, c) + Readings(b, c)
  {
  }

  /** For any history of a session, whatever resets its counters go through and however its model and mode
      change: the two tables, each with its unattributed part, account for the same amount, which is the sum
      of the last readings of the counter's non-decreasing segments. */
  lemma LedgerConserves(updates: seq<Update>, c: Counter)
    ensures Sum(History(updates).byModel, c) + Attributed(ModelLog(updates), "", c) == Peaks(Readings(ModelLog(updates), c))
    ensures Sum(History(updates).byMode, c) + Attributed(ModeLog(updates), "", c) == Peaks(Readings(ModelLog(updates), c))
  {
    RecordAttributesModels(updates);
    RecordAttributesModes(updates);
    Conservation(ModelLog(updates), c);
    Conservation(ModeLog(updates), c);
    SameReadings(updates, c);
  }

  /** With a model known at every reading and a counter that never restarts, the models' totals add up to the
      counter's last reading. */
  lemma MonotoneLedgerShowsLastReading(updates: seq<Update>, c: Counter)
    requires forall i :: 0 <= i < |ModelLog(updates)| ==> ModelLog(updates)[i].key != ""
    requires NonDecreasing(Readings(ModelLog(updates), c))
    ensures Sum(History(updates).byModel, c)
         == if History(updates).last.Some? then Read(History(updates).last.value, c) else 0
  {
    LedgerConserves(updates, c);
    NothingUnattributed(ModelLog(updates), c);
    PeaksOfNonDecreasing(Readings(ModelLog(updates), c));
    RecordAttributesModels(updates);
  }

  // Many sessions

  datatype Ledger = Ledger(records: map<string, Tracked>, providers: map<string, string>)

  function Record(l: Ledger, id: string): Tracked {
    if id in l.records then l.records[id] else FRESH
  }

  function Apply(l: Ledger, u: Update): Ledger {
    if u.sessionID == "" then l
    else Ledger(l.records[u.sessionID := Track(Record(l, u.sessionID), u)],
                if u.providerID != "" then l.providers[u.providerID := u.sessionID] else l.providers)
  }

  function Exec(updates: seq<Update>): Ledger {
    if updates == [] then Ledger(map[], map[]) else Apply(Exec(updates[..|updates| - 1]), updates[|updates| - 1])
  }

  function OfSession(updates: seq<Update>, id: string): seq<Update> {
    if updates == [] then []
    else
      OfSession(updates[..|updates| - 1], id)
      + if updates[|updates| - 1].sessionID == id then [updates[|updates| - 1]] else []
  }

  /** A session's record is the history of its own updates: those of other sessions do not touch it. */
  lemma {:induction false} RecordsAreIndependent(updates: seq<Update>, id: string)
    requires id != ""
    ensures Record(Exec(updates), id) == History(OfSession(updates, id))
    ensures id in Exec(updates).records <==> OfSession(updates, id) != []
  {
    if updates != [] {
      var init, last := updates[..|updates| - 1], updates[|updates| - 1];
      RecordsAreIndependent(init, id);
      if last.sessionID == id {
        HistorySnoc(OfSession(init, id), last);
      } else {
        assert OfSession(updates, id) == OfSession(init, id);
      }
    }
  }

  /** A provider's session id leads to the session that last announced it. */
  function LastAnnouncer(updates: seq<Update>, provider: string): Option<string> {
    if updates == [] then None
    else
      var last := updates[|updates| - 1];
      if last.sessionID != "" && last.providerID == provider then Some(last.sessionID)
      else LastAnnouncer(updates[..|updates| - 1], provider)
  }

  lemma {:induction false} ProvidersLeadToLastAnnouncer(updates: seq<Update>, provider: string)
    requires provider != ""
    ensures provider in Exec(updates).providers <==> LastAnnouncer(updates, provider).Some?
    ensures provider in Exec(updates).providers ==>
              && Exec(updates).providers[provider] == LastAnnouncer(updates, provider).value
              && Exec(updates).providers[provider] in Exec(updates).records
  {
    if updates != [] {
      ProvidersLeadToLastAnnouncer(updates[..|updates| - 1], provider);
    }
  }

  // Breakdown lists

  datatype Breakdown = Breakdown(key: string, usage: Usage)

  /** Go's string order. */
  predicate Less(a: string, b: string) {
    b != "" && (a == "" || a[0] < b[0] || (a[0] == b[0] && Less(a[1..], b[1..])))
  }

  lemma LessTransitive(a: string, b: string, c: string)
    requires Less(a, b) && Less(b, c)
    ensures Less(a, c)
  {
    if a != "" && a[0] == b[0] == c[0] {
      LessTransitive(a[1..], b[1..], c[1..]);
    }
  }

  lemma LessTotal(a: string, b: string)
    ensures a == b || Less(a, b) || Less(b, a)
    ensures !(Less(a, b) && Less(b, a)) && !Less(a, a)
  {
    if a != "" && b != "" && a[0] == b[0] {
      LessTotal(a[1..], b[1..]);
      assert a == [a[0]] + a[1..] && b == [b[0]] + b[1..];
    }
    if a != "" {
      LessTotal(a[1..], a[1..]);
    }
  }

  predicate Before(a: Breakdown, b: Breakdown) {
    a.usage.total > b.usage.total || (a.usage.total == b.usage.total && Less(a.key, b.key))
  }

  lemma BeforeTransitive(a: Breakdown, b: Breakdown, c: Breakdown)
    requires Before(a, b) && Before(b, c)
    ensures Before(a, c)
  {
    if a.usage.total == b.usage.total == c.usage.total {
      LessTransitive(a.key, b.key, c.key);
    }
  }

  /** The strings agree before place k, and there a has the smaller character. */
  predicate SmallerAt(a: string, b: string, k: nat) {
    k < |a| && k < |b| && a[..k] == b[..k] && a[k] < b[k]
  }

  lemma SmallerNext(a: string, b: string, k: nat)
    requires a != "" && b != "" && a[0] == b[0]
    ensures SmallerAt(a, b, k + 1) <==> SmallerAt(a[1..], b[1..], k)
  {
    if k < |a| - 1 && k < |b| - 1 {
      assert a[..k + 1] == [a[0]] + a[1..][..k] && b[..k + 1] == [b[0]] + b[1..][..k];
      assert a[..k + 1][1..] == a[1..][..k] && b[..k + 1][1..] == b[1..][..k];
    }
  }

  /** Strings are compared at the first place where they differ, and a beginning comes before the whole. */
  lemma {:induction false} LessIsLexicographic(a: string, b: string)
    ensures Less(a, b) <==> a < b || exists k :: SmallerAt(a, b, k)
  {
    if a != "" && b != "" {
      assert a == [a[0]] + a[1..] && b == [b[0]] + b[1..];
      if a[0] == b[0] {
        LessIsLexicographic(a[1..], b[1..]);
        if k :| SmallerAt(a[1..], b[1..], k) {
          SmallerNext(a, b, k);
        }
        assert !SmallerAt(a, b, 0);
        if k: nat :| SmallerAt(a, b, k) {
          assert k > 0;
          SmallerNext(a, b, k - 1);
        }
      } else {
        assert a[0] < b[0] ==> SmallerAt(a, b, 0);
        assert forall k: nat :: SmallerAt(a, b, k) && k > 0 ==> a[..k][0] == b[..k][0];
      }
    }
  }

  ghost predicate Sorted(list: seq<Breakdown>) {
    forall i, j :: 0 <= i < j < |list| ==> Before(list[i], list[j])
  }

  /** The list shows exactly the entries of the table with a non-empty key, largest total first. */
  ghost predicate Shows(list: seq<Breakdown>, t: Table) {
    && Sorted(list)
    && forall b :: b in list <==> b.key != "" && b.key in t && t[b.key] == b.usage
  }

  /** The listing goes from the largest total down, and by key where totals are equal. */
  lemma ListingGoesDown(list: seq<Breakdown>, t: Table, i: nat, j: nat)
    requires Shows(list, t) && i < j < |list|
    ensures list[i].usage.total >= list[j].usage.total
    ensures list[i].usage.total == list[j].usage.total ==>
              list[i].key < list[j].key || exists k :: SmallerAt(list[i].key, list[j].key, k)
  {
    assert Before(list[i], list[j]);
    LessIsLexicographic(list[i].key, list[j].key);
  }

  /** There is only one such list: the order of iteration over the map leaves no trace. */
  lemma {:induction false} SortedListIsUnique(a: seq<Breakdown>, b: seq<Breakdown>)
    requires Sorted(a) && Sorted(b)
    requires forall x :: x in a <==> x in b
    ensures a == b
  {
    assert a != [] ==> a[0] in a;
    assert b != [] ==> b[0] in b;
    if a != [] && b != [] {
      var i :| 0 <= i < |b| && b[i] == a[0];
      var j :| 0 <= j < |a| && a[j] == b[0];
      LessTotal(a[0].key, b[0].key);
      assert a[0] == b[0];
      LessTotal(a[0].key, a[0].key);
      forall x
        ensures x in a[1..] <==> x in b[1..]
      {
        assert x in a <==> x == a[0] || x in a[1..];
        assert x in b <==> x == b[0] || x in b[1..];
        if x in a[1..] {
          var k :| 0 < k < |a| && a[k] == x;
          assert Before(a[0], a[k]);
        }
        if x in b[1..] {
          var k :| 0 < k < |b| && b[k] == x;
          assert Before(b[0], b[k]);
        }
      }
      SortedListIsUnique(a[1..], b[1..]);
      assert a == [a[0]] + a[1..] && b == [b[0]] + b[1..];
    }
  }

  lemma ListIsUnique(a: seq<Breakdown>, b: seq<Breakdown>, t: Table)
    requires Shows(a, t) && Shows(b, t)
    ensures a == b
  {
    SortedListIsUnique(a, b);
  }

  function ListSum(list: seq<Breakdown>, c: Counter): int {
    if list == [] then 0 else ListSum(list[..|list| - 1], c) + Read(list[|list| - 1].usage, c)
  }

  /** Listing a table loses nothing. */
  lemma {:induction false} ListSumIsSum(list: seq<Breakdown>, t: Table, c: Counter)
    requires Shows(list, t) && "" !in t
    ensures ListSum(list, c) == Sum(t, c)
  {
    assert forall k :: k in t ==> Breakdown(k, t[k]) in list;
    if list == [] {
      assert t == map[];
    } else {
      var init, last := list[..|list| - 1], list[|list| - 1];
      assert last in list;
      forall b
        ensures b in init <==> b.key != "" && b.key in t - {last.key} && (t - {last.key})[b.key] == b.usage
      {
        assert b in list <==> b in init || b == last;
        if b in init && b.key == last.key {
          var i :| 0 <= i < |init| && init[i] == b;
          assert Before(list[i], list[|list| - 1]);
          LessTotal(b.key, b.key);
          assert false;
        }
      }
      ListSumIsSum(init, t - {last.key}, c);
      SumTakes(t, last.key, c);
    }
  }

  method Inserted(list: seq<Breakdown>, b: Breakdown) returns (r: seq<Breakdown>)
    requires Sorted(list) && forall x :: x in list ==> x.key != b.key
    ensures Sorted(r) && forall x :: x in r <==> x in list || x == b
  {
    var i := 0;
    while i < |list| && Before(list[i], b)
      invariant 0 <= i <= |list|
      invariant forall j :: 0 <= j < i ==> Before(list[j], b)
    {
      i := i + 1;
    }
    r := list[..i] + [b] + list[i..];
    if i < |list| {
      assert list[i] in list;
      LessTotal(list[i].key, b.key);
      assert Before(b, list[i]);
      forall j | i < j < |list|
        ensures Before(b, list[j])
      {
        BeforeTransitive(b, list[i], list[j]);
      }
    }
    assert forall x :: x in list <==> x in list[..i] || x in list[i..] by { assert list == list[..i] + list[i..]; }
  }

  method TokenBreakdowns(values: Table) returns (list: seq<Breakdown>)
    ensures Shows(list, values)
  {
    list := [];
    var rest := values.Keys;
    while rest != {}
      invariant rest <= values.Keys
      invariant Sorted(list)
      invariant forall b :: b in list <==> b.key != "" && b.key in values && b.key !in rest && values[b.key] == b.usage
      decreases |rest|
    {
      var key :| key in rest;
      rest := rest - {key};
      if key == "" {
        continue;
      }
      list := Inserted(list, Breakdown(key, values[key]));
    }
  }

  // The ledger object

  /** What Get reports of a session. */
  datatype Report = Report(usage: Usage, byModel: seq<Breakdown>, byMode: seq<Breakdown>)

  ghost predicate Reports(r: Report, t: Tracked) {
    r.usage == t.usage && Shows(r.byModel, t.byModel) && Shows(r.byMode, t.byMode)
  }

  /** The updates an event makes to the record of its session, in the order they are made. */
  method Tracking(t: Tracked, e: Update) returns (r: Tracked)
    requires e.Event?
    ensures r == Track(t, e)
  {
    var model, mode := t.model, t.mode;
    if e.stateModel != "" {
      model := e.stateModel;
    }
    if e.stateMode != "" {
      mode := e.stateMode;
    }
    if e.eventMode != "" {
      mode := e.eventMode;
    }
    r := t.(model := model, mode := mode);
    if e.reading.Some? {
      var delta := UsageDelta(e.reading.value, t.last);
      r := r.(last := e.reading, usage := e.reading.value);
      if model != "" && delta != ZERO {
        r := r.(byModel := r.byModel[model := Add(Entry(r.byModel, model), delta)]);
      }
      if mode != "" && delta != ZERO {
        r := r.(byMode := r.byMode[mode := Add(Entry(r.byMode, mode), delta)]);
      }
    }
  }

  class SessionLedger {
    var records: map<string, Tracked>
    var providers: map<string, string>

    constructor ()
      ensures Contents() == Exec([])
    {
      records, providers := map[], map[];
    }

    ghost function Contents(): Ledger
      reads this
    {
      Ledger(records, providers)
    }

    method GetOrCreate(id: string) returns (t: Tracked)
      modifies this
      ensures t == Record(old(Contents()), id) && records == old(records)[id := t] && providers == old(providers)
    {
      if id !in records {
        records := records[id := FRESH];
      }
      t := records[id];
    }

    method UpsertSession(sessionID: string, providerID: string, model: string, mode: string, usage: Usage)
      modifies this
      ensures Contents() == Apply(old(Contents()), Upsert(sessionID, providerID, model, mode, usage))
    {
      if sessionID == "" {
        return;
      }
      var t := GetOrCreate(sessionID);
      if model != "" {
        t := t.(model := model);
      }
      if mode != "" {
        t := t.(mode := mode);
      }
      if usage != ZERO {
        t := t.(usage := usage);
      }
      records := records[sessionID := t];
      if providerID != "" {
        providers := providers[providerID := sessionID];
      }
    }

    method UpdateFromEvent(e: Update)
      requires e.Event?
      modifies this
      ensures Contents() == Apply(old(Contents()), e)
    {
      if e.sessionID == "" {
        return;
      }
      var t := GetOrCreate(e.sessionID);
      if e.providerID != "" {
        providers := providers[e.providerID := e.sessionID];
      }
      t := Tracking(t, e);
      records := records[e.sessionID := t];
    }

    /** A lookup by session id, or failing that by the provider's id. */
    method Get(sessionID: string, providerID: string) returns (r: Option<Report>)
      ensures sessionID != "" ==> (r.Some? <==> sessionID in records) && (r.Some? ==> Reports(r.value, records[sessionID]))
      ensures sessionID == "" ==>
                && (r.Some? <==> providerID != "" && providerID in providers && providers[providerID] in records)
                && (r.Some? ==> Reports(r.value, records[providers[providerID]]))
    {
      var id := sessionID;
      if id == "" {
        if providerID == "" || providerID !in providers {
          return None;
        }
        id := providers[providerID];
      }
      if id !in records {
        return None;
      }
      var byModel := TokenBreakdowns(records[id].byModel);
      var byMode := TokenBreakdowns(records[id].byMode);
      return Some(Report(records[id].usage, byModel, byMode));
    }
  }

  // The court's usage summary

  datatype Summary = Summary(total: Usage, byModel: seq<Breakdown>, byMode: seq<Breakdown>)

  /** The reports of the workers that have a runtime session, in order. */
  function Present(workers: seq<Option<Report>>): seq<Report> {
    if workers == [] then []
    else
      var last := workers[|workers| - 1];
      Present(workers[..|workers| - 1]) + if last.Some? then [last.value] else []
  }

  function TotalOf(reports: seq<Report>, c: Counter): int {
    if reports == [] then 0 else TotalOf(reports[..|reports| - 1], c) + Read(reports[|reports| - 1].usage, c)
  }

  function ModelSum(reports: seq<Report>, c: Counter): int {
    if reports == [] then 0 else ModelSum(reports[..|reports| - 1], c) + ListSum(reports[|reports| - 1].byModel, c)
  }

  function ModeSum(reports: seq<Report>, c: Counter): int {
    if reports == [] then 0 else ModeSum(reports[..|reports| - 1], c) + ListSum(reports[|reports| - 1].byMode, c)
  }

  /** What a list shows under one key. */
  function KeySum(list: seq<Breakdown>, key: string, c: Counter): int {
    if list == [] then 0
    else
      var last := list[|list| - 1];
      KeySum(list[..|list| - 1], key, c) + if last.key == key then Read(last.usage, c) else 0
  }

  function ModelKeySum(reports: seq<Report>, key: string, c: Counter): int {
    if reports == [] then 0
    else ModelKeySum(reports[..|reports| - 1], key, c) + KeySum(reports[|reports| - 1].byModel, key, c)
  }

  function ModeKeySum(reports: seq<Report>, key: string, c: Counter): int {
    if reports == [] then 0
    else ModeKeySum(reports[..|reports| - 1], key, c) + KeySum(reports[|reports| - 1].byMode, key, c)
  }

  ghost predicate Named(list: seq<Breakdown>) {
    forall b :: b in list ==> b.key != ""
  }

  /** r holds what table holds and the list besides, key by key and in all. */
  ghost predicate Holds(r: Table, table: Table, list: seq<Breakdown>) {
    && (forall c :: Sum(r, c) == Sum(table, c) + ListSum(list, c))
    && (forall key, c :: Read(Entry(r, key), c) == Read(Entry(table, key), c) + KeySum(list, key, c))
  }

  lemma ReadAdd(a: Usage, b: Usage, c: Counter)
    ensures Read(Add(a, b), c) == Read(a, c) + Read(b, c)
  {
  }

  lemma HoldsSnoc(r: Table, table: Table, list: seq<Breakdown>, b: Breakdown)
    requires Holds(r, table, list)
    ensures Holds(r[b.key := Add(Entry(r, b.key), b.usage)], table, list + [b])
  {
    var sum := Add(Entry(r, b.key), b.usage);
    assert (list + [b])[..|list|] == list;
    forall c
      ensures Sum(r[b.key := sum], c) == Sum(table, c) + ListSum(list + [b], c)
    {
      SumPut(r, b.key, sum, c);
      ReadAdd(Entry(r, b.key), b.usage, c);
    }
    forall key, c
      ensures Read(Entry(r[b.key := sum], key), c) == Read(Entry(table, key), c) + KeySum(list + [b], key, c)
    {
      ReadAdd(Entry(r, b.key), b.usage, c);
      assert Read(Entry(r, key), c) == Read(Entry(table, key), c) + KeySum(list, key, c);
    }
  }

  /** Adds one session's breakdown to the totals so far. */
  method Accumulate(table: Table, list: seq<Breakdown>) returns (r: Table)
    requires "" !in table && Named(list)
    ensures "" !in r && Holds(r, table, list)
  {
    r := table;
    for i := 0 to |list|
      invariant "" !in r
      invariant Holds(r, table, list[..i])
    {
      assert list[i] in list;
      HoldsSnoc(r, table, list[..i], list[i]);
      assert list[..i + 1] == list[..i] + [list[i]];
      r := r[list[i].key := Add(Entry(r, list[i].key), list[i].usage)];
    }
    assert list[..|list|] == list;
  }

  /** The summary conserves: its total is the sum of the sessions' usages, and its two breakdowns hold, for each
      counter, as much as the sessions' breakdowns together. */
  method UsageSummary(workers: seq<Option<Report>>) returns (s: Summary)
    requires forall i :: 0 <= i < |workers| && workers[i].Some? ==> Named(workers[i].value.byModel) && Named(workers[i].value.byMode)
    ensures forall c :: Read(s.total, c) == TotalOf(Present(workers), c)
    ensures forall c :: ListSum(s.byModel, c) == ModelSum(Present(workers), c)
    ensures forall c :: ListSum(s.byMode, c) == ModeSum(Present(workers), c)
    ensures Sorted(s.byModel) && Sorted(s.byMode)
    ensures forall b, c :: b in s.byModel ==> Read(b.usage, c) == ModelKeySum(Present(workers), b.key, c)
    ensures forall b, c :: b in s.byMode ==> Read(b.usage, c) == ModeKeySum(Present(workers), b.key, c)
  {
    var byModel: Table, byMode: Table, total := map[], map[], ZERO;
    for i := 0 to |workers|
      invariant "" !in byModel && "" !in byMode
      invariant forall c :: Read(total, c) == TotalOf(Present(workers[..i]), c)
      invariant forall c :: Sum(byModel, c) == ModelSum(Present(workers[..i]), c)
      invariant forall c :: Sum(byMode, c) == ModeSum(Present(workers[..i]), c)
      invariant forall key, c :: Read(Entry(byModel, key), c) == ModelKeySum(Present(workers[..i]), key, c)
      invariant forall key, c :: Read(Entry(byMode, key), c) == ModeKeySum(Present(workers[..i]), key, c)
    {
      assert workers[..i + 1][..i] == workers[..i];
      if workers[i].None? {
        assert Present(workers[..i + 1]) == Present(workers[..i]);
        continue;
      }
      var tracked := workers[i].value;
      total := Add(total, tracked.usage);
      byModel := Accumulate(byModel, tracked.byModel);
      byMode := Accumulate(byMode, tracked.byMode);
      SummedSnoc(Present(workers[..i]), tracked);
      assert Present(workers[..i + 1]) == Present(workers[..i]) + [tracked];
    }
    assert workers[..|workers|] == workers;
    var models := TokenBreakdowns(byModel);
    var modes := TokenBreakdowns(byMode);
    s := Summary(total, models, modes);
    forall c
      ensures ListSum(models, c) == Sum(byModel, c) && ListSum(modes, c) == Sum(byMode, c)
    {
      ListSumIsSum(models, byModel, c);
      ListSumIsSum(modes, byMode, c);
    }
  }

  lemma SummedSnoc(reports: seq<Report>, r: Report)
    ensures forall c :: TotalOf(reports + [r], c) == TotalOf(reports, c) + Read(r.usage, c)
    ensures forall c :: ModelSum(reports + [r], c) == ModelSum(reports, c) + ListSum(r.byModel, c)
    ensures forall c :: ModeSum(reports + [r], c) == ModeSum(reports, c) + ListSum(r.byMode, c)
    ensures forall key, c :: ModelKeySum(reports + [r], key, c) == ModelKeySum(reports, key, c) + KeySum(r.byModel, key, c)
    ensures forall key, c :: ModeKeySum(reports + [r], key, c) == ModeKeySum(reports, key, c) + KeySum(r.byMode, key, c)
  {
    assert (reports + [r])[..|reports|] == reports;
  }

  function PeakSum(histories: seq<seq<Update>>, c: Counter): int {
    if histories == [] then 0
    else
      PeakSum(histories[..|histories| - 1], c) + Peaks(Readings(ModelLog(histories[|histories| - 1]), c))
  }

  predicate AlwaysKeyed(log: seq<Observation>) {
    forall i :: 0 <= i < |log| ==> log[i].key != ""
  }

  lemma SessionListsConserve(updates: seq<Update>, report: Report, c: Counter)
    requires Reports(report, History(updates))
    ensures AlwaysKeyed(ModelLog(updates)) ==> ListSum(report.byModel, c) == Peaks(Readings(ModelLog(updates), c))
    ensures AlwaysKeyed(ModeLog(updates)) ==> ListSum(report.byMode, c) == Peaks(Readings(ModelLog(updates), c))
  {
    LedgerConserves(updates, c);
    RecordAttributesModels(updates);
    RecordAttributesModes(updates);
    KeysNonEmpty(ModelLog(updates));
    KeysNonEmpty(ModeLog(updates));
    ListSumIsSum(report.byModel, History(updates).byModel, c);
    ListSumIsSum(report.byMode, History(updates).byMode, c);
    if AlwaysKeyed(ModelLog(updates)) {
      NothingUnattributed(ModelLog(updates), c);
    }
    if AlwaysKeyed(ModeLog(updates)) {
      NothingUnattributed(ModeLog(updates), c);
    }
  }

  /** The reports of sessions with these histories. */
  ghost predicate ReportsOf(reports: seq<Report>, histories: seq<seq<Update>>) {
    |histories| == |reports| && forall i :: 0 <= i < |reports| ==> Reports(reports[i], History(histories[i]))
  }

  /** From the events to the summary: if every reading came with a model known, the summary's by-model totals
      add up to the sum, over the sessions, of the readings before each restart and at the end; and likewise by
      mode. */
  lemma {:induction false} SummaryConservesReadings(histories: seq<seq<Update>>, reports: seq<Report>, c: Counter)
    requires ReportsOf(reports, histories)
    ensures KeyedByModel(histories) ==> ModelSum(reports, c) == PeakSum(histories, c)
    ensures KeyedByMode(histories) ==> ModeSum(reports, c) == PeakSum(histories, c)
  {
    if reports != [] {
      var n := |reports| - 1;
      SummaryConservesReadings(histories[..n], reports[..n], c);
      SessionListsConserve(histories[n], reports[n], c);
    }
  }

  // The total beside the breakdowns

  /** What the session's usage was last set from. */
  datatype Source = Nothing | Reading(usage: Usage) | Snapshot(usage: Usage)

  function LastSource(updates: seq<Update>): Source {
    if updates == [] then Nothing
    else
      var last := updates[|updates| - 1];
      if Reads(last) then Reading(last.reading.value)
      else if last.Upsert? && last.newUsage != ZERO then Snapshot(last.newUsage)
      else LastSource(updates[..|updates| - 1])
  }

  lemma TrackUsage(t: Tracked, u: Update)
    ensures Track(t, u).usage ==
            if Reads(u) then u.reading.value else if u.Upsert? && u.newUsage != ZERO then u.newUsage else t.usage
  {
  }

  lemma {:induction false} UsageIsLastSource(updates: seq<Update>)
    ensures History(updates).usage == if LastSource(updates).Nothing? then ZERO else LastSource(updates).usage
  {
    if updates != [] {
      UsageIsLastSource(updates[..|updates| - 1]);
      TrackUsage(History(updates[..|updates| - 1]), updates[|updates| - 1]);
    }
  }

  lemma {:induction false} LastReadingIsSource(updates: seq<Update>)
    ensures LastSource(updates).Nothing? ==> ModelLog(updates) == []
    ensures LastSource(updates).Reading? ==> LastUsage(ModelLog(updates)) == Some(LastSource(updates).usage)
  {
    if updates != [] {
      var init := updates[..|updates| - 1];
      LastReadingIsSource(init);
      if !Reads(updates[|updates| - 1]) {
        assert ModelLog(updates) == ModelLog(init);
      }
    }
  }

  predicate NonNegative(v: seq<int>) {
    forall i :: 0 <= i < |v| ==> 0 <= v[i]
  }

  /** The peaks are at least the last reading, and no more exactly when nothing restarts. */
  lemma {:induction false} PeaksExceedLast(v: seq<int>)
    requires NonNegative(v) && v != []
    ensures Peaks(v) >= v[|v| - 1]
    ensures Peaks(v) == v[|v| - 1] <==> NonDecreasing(v)
  {
    var init, last := v[..|v| - 1], v[|v| - 1];
    assert v == init + [last];
    PeaksSnoc(init, last);
    if init != [] {
      PeaksExceedLast(init);
      assert init[|init| - 1] == v[|v| - 2];
      if NonDecreasing(init) && init[|init| - 1] <= last {
        assert forall i :: 0 < i < |v| ==> v[i - 1] <= v[i];
      }
      if NonDecreasing(v) {
        assert forall i :: 0 <= i < |init| ==> init[i] == v[i];
      }
    }
  }

  /** When the session's own usage is all that its readings came to: if it was last set by a reading, exactly when
      the counter never restarted; if by a snapshot, exactly when the snapshot says the sum of the readings before
      each restart and at the end. */
  predicate Agrees(updates: seq<Update>, c: Counter) {
    match LastSource(updates)
    case Snapshot(usage) => Read(usage, c) == Peaks(Readings(ModelLog(updates), c))
    case _ => NonDecreasing(Readings(ModelLog(updates), c))
  }

  /** What the session's usage says beyond what its readings came to; negative when readings were lost to restarts. */
  function Drift(updates: seq<Update>, c: Counter): int {
    Read(History(updates).usage, c) - Peaks(Readings(ModelLog(updates), c))
  }

  lemma UsageIsLastReading(updates: seq<Update>, c: Counter)
    requires !LastSource(updates).Snapshot?
    ensures var v := Readings(ModelLog(updates), c);
            Read(History(updates).usage, c) == if v == [] then 0 else v[|v| - 1]
  {
    UsageIsLastSource(updates);
    LastReadingIsSource(updates);
  }

  lemma PeaksAgreeExactlyWhen(v: seq<int>)
    requires NonNegative(v)
    ensures var last := if v == [] then 0 else v[|v| - 1];
            Peaks(v) >= last && (Peaks(v) == last <==> NonDecreasing(v))
  {
    if v == [] {
      assert Peaks(v) == 0;
    } else {
      PeaksExceedLast(v);
    }
  }

  lemma DriftExactlyWhenDisagrees(updates: seq<Update>, c: Counter)
    requires NonNegative(Readings(ModelLog(updates), c))
    ensures Drift(updates, c) == 0 <==> Agrees(updates, c)
    ensures !LastSource(updates).Snapshot? ==> Drift(updates, c) <= 0
  {
    if LastSource(updates).Snapshot? {
      UsageIsLastSource(updates);
    } else {
      UsageIsLastReading(updates, c);
      PeaksAgreeExactlyWhen(Readings(ModelLog(updates), c));
    }
  }

  /** A session's usage and its by-model totals agree in a counter exactly when Agrees says so, for every history of
      non-negative readings each taken with a model known; and likewise by mode. */
  lemma UsageAgreesExactlyWhen(updates: seq<Update>, c: Counter)
    requires NonNegative(Readings(ModelLog(updates), c))
    ensures AlwaysKeyed(ModelLog(updates)) ==>
              (Read(History(updates).usage, c) == Sum(History(updates).byModel, c) <==> Agrees(updates, c))
    ensures AlwaysKeyed(ModeLog(updates)) ==>
              (Read(History(updates).usage, c) == Sum(History(updates).byMode, c) <==> Agrees(updates, c))
  {
    LedgerConserves(updates, c);
    DriftExactlyWhenDisagrees(updates, c);
    if AlwaysKeyed(ModelLog(updates)) {
      NothingUnattributed(ModelLog(updates), c);
    }
    if AlwaysKeyed(ModeLog(updates)) {
      NothingUnattributed(ModeLog(updates), c);
    }
  }

  function DriftSum(histories: seq<seq<Update>>, c: Counter): int {
    if histories == [] then 0 else DriftSum(histories[..|histories| - 1], c) + Drift(histories[|histories| - 1], c)
  }

  /** The summary's total exceeds its breakdown by what the sessions' usages exceed their readings by. */
  lemma {:induction false} TotalDrifts(histories: seq<seq<Update>>, reports: seq<Report>, c: Counter)
    requires ReportsOf(reports, histories)
    ensures TotalOf(reports, c) == PeakSum(histories, c) + DriftSum(histories, c)
  {
    if reports != [] {
      TotalDrifts(histories[..|reports| - 1], reports[..|reports| - 1], c);
    }
  }

  lemma {:induction false} DriftsCancelNowhere(histories: seq<seq<Update>>, c: Counter)
    requires forall i :: 0 <= i < |histories| ==>
               NonNegative(Readings(ModelLog(histories[i]), c)) && !LastSource(histories[i]).Snapshot?
    ensures DriftSum(histories, c) <= 0
    ensures DriftSum(histories, c) == 0 <==>
              forall i :: 0 <= i < |histories| ==> NonDecreasing(Readings(ModelLog(histories[i]), c))
  {
    if histories != [] {
      var n := |histories| - 1;
      assert forall i :: 0 <= i < n ==> histories[..n][i] == histories[i];
      DriftsCancelNowhere(histories[..n], c);
      DriftExactlyWhenDisagrees(histories[n], c);
    }
  }

  predicate KeyedByModel(histories: seq<seq<Update>>) {
    forall i :: 0 <= i < |histories| ==> AlwaysKeyed(ModelLog(histories[i]))
  }

  predicate KeyedByMode(histories: seq<seq<Update>>) {
    forall i :: 0 <= i < |histories| ==> AlwaysKeyed(ModeLog(histories[i]))
  }

  /** A total and a breakdown of sessions with these histories differ by the sum of the sessions' drifts. When no
      session's usage was last set by a snapshot, the total never exceeds the breakdown, and equals it exactly
      when no session's counter restarted. */
  ghost predicate DifferByDrift(total: int, breakdown: int, histories: seq<seq<Update>>, c: Counter) {
    && total == breakdown + DriftSum(histories, c)
    && ((forall i :: 0 <= i < |histories| ==> !LastSource(histories[i]).Snapshot?) ==>
          && total <= breakdown
          && (total == breakdown <==> forall i :: 0 <= i < |histories| ==> NonDecreasing(Readings(ModelLog(histories[i]), c))))
  }

  /** The summary's total and its breakdowns, for sessions whose readings are non-negative: the total differs from
      the breakdown by model by the drifts when every reading came with a model known, and from that by mode when
      every reading came with a mode known. */
  lemma TotalAgreesExactlyWhen(histories: seq<seq<Update>>, reports: seq<Report>, s: Summary, c: Counter)
    requires ReportsOf(reports, histories)
    requires forall i :: 0 <= i < |histories| ==> NonNegative(Readings(ModelLog(histories[i]), c))
    requires Read(s.total, c) == TotalOf(reports, c)
    requires ListSum(s.byModel, c) == ModelSum(reports, c) && ListSum(s.byMode, c) == ModeSum(reports, c)
    ensures KeyedByModel(histories) ==> DifferByDrift(Read(s.total, c), ListSum(s.byModel, c), histories, c)
    ensures KeyedByMode(histories) ==> DifferByDrift(Read(s.total, c), ListSum(s.byMode, c), histories, c)
  {
    SummaryConservesReadings(histories, reports, c);
    TotalDrifts(histories, reports, c);
    if forall i :: 0 <= i < |histories| ==> !LastSource(histories[i]).Snapshot? {
      DriftsCancelNowhere(histories, c);
    }
  }

  /** The first way in which they differ: a session snapshot that carries a usage replaces the session's usage without
      being attributed to a model. */
  lemma SnapshotUsageIsNotAttributed(usage: Usage)
    requires usage.total != 0
    ensures var updates := [Upsert("s", "", "m", "", usage)];
            && AlwaysKeyed(ModelLog(updates)) && History(updates).usage.total == usage.total
            && Sum(History(updates).byModel, Total) == 0
  {
    var snapshot := Upsert("s", "", "m", "", usage);
    assert [snapshot][..0] == [];
    assert ModelLog([snapshot]) == [];
    assert History([snapshot]) == Track(FRESH, snapshot);
  }

  function ReadingOf(total: int): Update {
    Event("s", "", "m", "", "", Some(Usage(0, 0, 0, 0, total)))
  }

  /** The second: after a restart the session's usage is the new reading, while the breakdown keeps the old. */
  lemma RestartIsNotInUsage(before: int, after: int)
    requires 0 <= after < before
    ensures var updates := [ReadingOf(before), ReadingOf(after)];
            && AlwaysKeyed(ModelLog(updates)) && History(updates).usage.total == after
            && Sum(History(updates).byModel, Total) == before + after
  {
    var updates := [ReadingOf(before), ReadingOf(after)];
    assert updates[..1] == [ReadingOf(before)] && updates[..1][..0] == [];
    assert History(updates[..1]).model == "m" && History(updates).model == "m";
    assert ModelLog(updates[..1]) == [Observation("m", Usage(0, 0, 0, 0, before))];
    var log := ModelLog(updates);
    assert log == [Observation("m", Usage(0, 0, 0, 0, before)), Observation("m", Usage(0, 0, 0, 0, after))];
    LedgerConserves(updates, Total);
    NothingUnattributed(log, Total);
    var v := Readings(log, Total);
    assert v == [before] + [after];
    assert [before] == [] + [before];
    PeaksSnoc([before], after);
    PeaksSnoc([], before);
    UsageIsLastSource(updates);
  }
}
