/** Whom the ledger charges: every reading goes to the model and the mode last announced by then. */
module UsageKeys {
  import opened Lists
  import opened Places
  import opened UsageLedger

  /** The last model that an update has named. */
  function LastModel(updates: seq<Update>): string {
    if updates == [] then ""
    else
      var named := match updates[|updates| - 1]
        case Upsert(_, _, model, _, _) => model
        case Event(_, _, model, _, _, _) => model;
      if named != "" then named else LastModel(updates[..|updates| - 1])
  }

  /** The last mode named; an event's own mode comes before that of the state it reports. */
  function LastMode(updates: seq<Update>): string {
    if updates == [] then ""
    else
      var named := match updates[|updates| - 1]
        case Upsert(_, _, _, mode, _) => mode
        case Event(_, _, _, stateMode, eventMode, _) => if eventMode != "" then eventMode else stateMode;
      if named != "" then named else LastMode(updates[..|updates| - 1])
  }

  /** A session's model and mode are the last ones named, however often they change. */
  lemma {:induction false} ModelAndModeAreTheLastNamed(updates: seq<Update>)
    ensures History(updates).model == LastModel(updates)
    ensures History(updates).mode == LastMode(updates)
  {
    if updates != [] {
      ModelAndModeAreTheLastNamed(updates[..|updates| - 1]);
    }
  }

  predicate IsReading(u: Update) {
    u.Event? && u.reading.Some?
  }

  /** The places of the updates that bring a reading. */
  ghost predicate ReadingsAt(updates: seq<Update>, places: seq<nat>) {
    Picks(updates, IsReading, places)
  }

  function Charged(updates: seq<Update>, place: nat, byModel: bool): string
    requires place < |updates|
  {
    if byModel then LastModel(updates[..place + 1]) else LastMode(updates[..place + 1])
  }

  function TheReading(u: Update): Usage {
    if IsReading(u) then u.reading.value else ZERO
  }

  function ChargeAt(updates: seq<Update>, place: nat, byModel: bool): Observation
    requires place < |updates|
  {
    Observation(Charged(updates, place, byModel), TheReading(updates[place]))
  }

  /** The readings, each with the model or mode last named by then. */
  function Charges(updates: seq<Update>, places: seq<nat>, byModel: bool): seq<Observation>
    requires forall k :: 0 <= k < |places| ==> places[k] < |updates|
  {
    if places == [] then []
    else Charges(updates, places[..|places| - 1], byModel) + [ChargeAt(updates, places[|places| - 1], byModel)]
  }

  function LogOf(updates: seq<Update>, byModel: bool): seq<Observation> {
    if byModel then ModelLog(updates) else ModeLog(updates)
  }

  lemma {:induction false} ChargesOfPrefix(updates: seq<Update>, n: nat, places: seq<nat>, byModel: bool)
    requires n <= |updates| && forall k :: 0 <= k < |places| ==> places[k] < n
    ensures Charges(updates[..n], places, byModel) == Charges(updates, places, byModel)
  {
    if places != [] {
      var init, place := places[..|places| - 1], places[|places| - 1];
      ChargesOfPrefix(updates, n, init, byModel);
      ChargeOfPrefix(updates, n, place, byModel);
    }
  }

  lemma ChargeOfPrefix(updates: seq<Update>, n: nat, place: nat, byModel: bool)
    requires place < n <= |updates|
    ensures ChargeAt(updates[..n], place, byModel) == ChargeAt(updates, place, byModel)
  {
    assert updates[..n][..place + 1] == updates[..place + 1];
  }

  lemma {:induction false} ChargesCount(updates: seq<Update>, places: seq<nat>, byModel: bool)
    requires forall k :: 0 <= k < |places| ==> places[k] < |updates|
    ensures |Charges(updates, places, byModel)| == |places|
  {
    if places != [] {
      ChargesCount(updates, places[..|places| - 1], byModel);
    }
  }

  lemma LogNext(updates: seq<Update>, byModel: bool)
    requires updates != []
    ensures var n := |updates| - 1;
            LogOf(updates, byModel) == LogOf(updates[..n], byModel) + if IsReading(updates[n]) then [ChargeAt(updates, n, byModel)] else []
  {
    ModelAndModeAreTheLastNamed(updates);
    assert updates[..|updates|] == updates;
  }

  /** The log the tables are made from is that of the readings, each with the model or mode last named by then. */
  lemma {:induction false} LogChargesTheLastNamed(updates: seq<Update>, places: seq<nat>, byModel: bool)
    requires ReadingsAt(updates, places)
    ensures LogOf(updates, byModel) == Charges(updates, places, byModel)
  {
    if updates != [] {
      var n := |updates| - 1;
      PicksInit(updates, IsReading, places);
      LogNext(updates, byModel);
      var init := if IsReading(updates[n]) then places[..|places| - 1] else places;
      LogChargesTheLastNamed(updates[..n], init, byModel);
      ChargesOfPrefix(updates, n, init, byModel);
    }
  }

  /** How far a counter has risen since the reading before; all of it after a restart. */
  function Rise(readings: seq<Usage>, k: nat, c: Counter): int
    requires k < |readings|
  {
    var now := Read(readings[k], c);
    if k > 0 && now >= Read(readings[k - 1], c) then now - Read(readings[k - 1], c) else now
  }

  /** What the first n readings charge to a key. */
  function Charge(log: seq<Observation>, n: nat, key: string, c: Counter): int
    requires n <= |log|
  {
    if n == 0 then 0
    else
      Charge(log, n - 1, key, c)
      + if log[n - 1].key == key then Rise(seq(|log|, k requires 0 <= k < |log| => log[k].usage), n - 1, c) else 0
  }

  lemma DeltaIsRise(log: seq<Observation>, n: nat, c: Counter)
    requires 0 < n <= |log|
    ensures Read(UsageDelta(log[n - 1].usage, LastUsage(log[..n - 1])), c)
         == Rise(seq(|log|, k requires 0 <= k < |log| => log[k].usage), n - 1, c)
  {
    assert n > 1 ==> log[..n - 1][n - 2] == log[n - 2];
  }

  lemma {:induction false} AttributedIsCharge(log: seq<Observation>, n: nat, key: string, c: Counter)
    requires n <= |log|
    ensures Attributed(log[..n], key, c) == Charge(log, n, key, c)
  {
    if n > 0 {
      AttributedIsCharge(log, n - 1, key, c);
      DeltaIsRise(log, n, c);
      assert log[..n][..n - 1] == log[..n - 1];
    }
  }

  function TableFor(t: Tracked, byModel: bool): Table {
    if byModel then t.byModel else t.byMode
  }

  lemma TableIsOfLog(updates: seq<Update>, byModel: bool)
    ensures TableFor(History(updates), byModel) == TableOf(LogOf(updates, byModel))
  {
    RecordAttributesModels(updates);
    RecordAttributesModes(updates);
  }

  /** What the ledger shows under a model, or a mode, is how far the session's counters rose while that was the last one
      named: no rise is charged to one that was replaced before, or named only after. */
  lemma EntriesAreRises(updates: seq<Update>, places: seq<nat>, key: string, c: Counter, byModel: bool)
    requires ReadingsAt(updates, places) && key != ""
    ensures |Charges(updates, places, byModel)| == |places|
    ensures Read(Entry(TableFor(History(updates), byModel), key), c) == Charge(Charges(updates, places, byModel), |places|, key, c)
  {
    var log := LogOf(updates, byModel);
    LogChargesTheLastNamed(updates, places, byModel);
    ChargesCount(updates, places, byModel);
    TableIsOfLog(updates, byModel);
    EntryIsAttributed(log, key, c);
    AttributedIsCharge(log, |places|, key, c);
    assert log[..|places|] == log;
  }
}
