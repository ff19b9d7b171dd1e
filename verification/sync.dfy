/** Synchronisation: sensors of two stores are matched by external id. */
module Synchronisation {
  import opened Types
  import opened Databases
  import opened Caches
  import opened StoreModel
  import Cells

  /** One sensor of the source, what the source shows for it, and when it arrives. */
  datatype Item = Item(sensor: Sensor, readings: Readings, now: int)

  /** What a store shows, without its uuids. */
  datatype Entry = Entry(meta: Metadata, readings: Readings)

  lemma IndexLeadsToSensors(c: Cache)
    requires Exact(c)
    ensures forall e :: e in c.externalIds ==>
      c.externalIds[e] in c.sensors && c.sensors[c.externalIds[e]].externalId == e
  {
    forall e | e in c.externalIds ensures c.externalIds[e] in c.sensors && c.sensors[c.externalIds[e]].externalId == e {
      assert LeadsTo(c.externalIds, e, c.externalIds[e]);
    }
  }

  ghost function EntryAt(st: State, e: ExternalId): Entry
    requires Agreement(st) && e in st.cache.externalIds
  {
    IndexLeadsToSensors(st.cache);
    var u := st.cache.externalIds[e];
    Entry(st.cache.sensors[u].meta, Visible(st, u))
  }

  ghost function Entries(st: State): map<ExternalId, Entry>
    requires Agreement(st)
  {
    map e | e in st.cache.externalIds :: EntryAt(st, e)
  }

  function Steps(items: seq<Item>): seq<Step> {
    if items == [] then [] else [SyncItem(items[0].sensor, items[0].readings, items[0].now)] + Steps(items[1..])
  }

  ghost predicate DistinctItems(items: seq<Item>) {
    forall i, j :: 0 <= i < j < |items| ==>
      items[i].sensor.externalId != items[j].sensor.externalId && items[i].sensor.uuid != items[j].sensor.uuid
  }

  /** `get_sensors` of the source with, for each, `get_all_readings`. */
  ghost predicate ItemsOf(items: seq<Item>, source: State)
    requires Agreement(source)
  {
    && Enumerates(seq(|items|, i requires 0 <= i < |items| => items[i].sensor), source.db.sensors)
    && forall i :: 0 <= i < |items| ==> items[i].sensor.uuid in source.cache.sensors ==>
         items[i].readings == Visible(source, items[i].sensor.uuid)
  }

  // ---------- one sensor ----------

  /** Unchanged, or flushed. */
  predicate Calmer(c: Cells.Cell, d: Cells.Cell) {
    d == c || d == Cells.Cell(c.Visible(), Cells.NOTHING)
  }

  lemma CalmerShowsTheSame(c: Cells.Cell, d: Cells.Cell)
    requires Calmer(c, d)
    ensures d.Visible() == c.Visible()
  {
    Cells.NothingPendingShowsTheStored(c.Visible());
  }

  function StoredAt(st: State, u: Uuid): Readings {
    if u in st.db.readings then st.db.readings[u] else map[]
  }

  lemma AutoFlushCalms(cfg: Config, st: State, now: int)
    requires Agreement(st) && Ready(cfg, st)
    ensures var r := AutoFlush(cfg, st, now);
      && r.1.Ok? && Agreement(r.0)
      && r.0.cache.sensors == st.cache.sensors && r.0.cache.externalIds == st.cache.externalIds
      && (r.0.snapshot.Some? <==> st.snapshot.Some?)
      && forall v :: v in st.cache.sensors ==> Calmer(CellAt(st, v), CellAt(r.0, v))
  {
    FlushKeepsAgreement(st);
    ReadingsDoNotMatter(FlushAll(st), FlushAll(st).(lastFlush := now));
  }

  lemma WriteCells(cfg: Config, st: State, u: Uuid, batch: Readings, now: int)
    requires Agreement(st) && Ready(cfg, st) && u in st.cache.sensors && CellAt(st, u).pending == Cells.NOTHING
    ensures var r := WriteReadings(cfg, st, u, true, batch, now);
      && r.1.Ok? && Agreement(r.0) && Ready(cfg, r.0)
      && r.0.cache.sensors == st.cache.sensors && r.0.cache.externalIds == st.cache.externalIds
      && Calmer(Cells.Cell(CellAt(st, u).stored, Cells.Pending(map[], batch)), CellAt(r.0, u))
      && forall v :: v in st.cache.sensors && v != u ==> Calmer(CellAt(st, v), CellAt(r.0, v))
  {
    if batch != map[] {
      var b := Buffer(st, u, true, batch);
      ReadingsDoNotMatter(st, b);
      assert CellAt(b, u).pending == Cells.Pending(map[], batch);
      forall v | v in st.cache.sensors && v != u ensures CellAt(b, v) == CellAt(st, v) {
      }
      AutoFlushCalms(cfg, b, now);
    }
  }

  /** The readings of the source are written as updates over what is stored; other sensors are at
      most flushed. */
  lemma SyncOneCells(cfg: Config, st: State, s: Sensor, batch: Readings, now: int)
    requires Agreement(st) && Ready(cfg, st) && !Clashes(st, s)
    ensures var r := SyncOne(cfg, st, s, batch, now); var local := LocalSensor(st.cache, s);
      && r.1.Ok? && Agreement(r.0) && Ready(cfg, r.0)
      && r.0.cache.sensors == st.cache.sensors[local.uuid := local]
      && r.0.cache.externalIds == st.cache.externalIds[s.externalId := local.uuid]
      && Calmer(Cells.Cell(StoredAt(st, local.uuid), Cells.Pending(map[], batch)), CellAt(r.0, local.uuid))
      && forall v :: v in st.cache.sensors && v != local.uuid ==> Calmer(CellAt(st, v), CellAt(r.0, v))
  {
    var local, synced := LocalSensor(st.cache, s), SyncSensor(st, s);
    SyncSensorKeepsAgreement(st, s);
    SyncRegisters(st, s);
    RegisteredCells(st, synced, local);
    SetBuffersFrame(st.cache, local);
    WriteCells(cfg, synced, local.uuid, batch, now);
  }

  lemma UpdatesOverStored(stored: Readings, batch: Readings)
    ensures Cells.Cell(stored, Cells.Pending(map[], batch)).Visible() == stored + batch
  {
    var none: Readings := map[];
    assert none + stored == stored;
  }

  lemma SyncedEntry(cfg: Config, st: State, s: Sensor, batch: Readings, now: int)
    requires Agreement(st) && Ready(cfg, st) && !Clashes(st, s)
    ensures var r := SyncOne(cfg, st, s, batch, now).0;
      && Agreement(r) && s.externalId in r.cache.externalIds
      && EntryAt(r, s.externalId) == Entry(s.meta, StoredAt(st, LocalSensor(st.cache, s).uuid) + batch)
  {
    SyncOneCells(cfg, st, s, batch, now);
    var r, local := SyncOne(cfg, st, s, batch, now).0, LocalSensor(st.cache, s);
    UpdatesOverStored(StoredAt(st, local.uuid), batch);
    CalmerShowsTheSame(Cells.Cell(StoredAt(st, local.uuid), Cells.Pending(map[], batch)), CellAt(r, local.uuid));
  }

  lemma OtherEntry(cfg: Config, st: State, s: Sensor, batch: Readings, now: int, e: ExternalId)
    requires Agreement(st) && Ready(cfg, st) && !Clashes(st, s)
    requires e in st.cache.externalIds && e != s.externalId
    ensures var r := SyncOne(cfg, st, s, batch, now).0;
      Agreement(r) && e in r.cache.externalIds && EntryAt(r, e) == EntryAt(st, e)
  {
    SyncOneCells(cfg, st, s, batch, now);
    IndexLeadsToSensors(st.cache);
    var r, v := SyncOne(cfg, st, s, batch, now).0, st.cache.externalIds[e];
    assert v != LocalSensor(st.cache, s).uuid;
    CalmerShowsTheSame(CellAt(st, v), CellAt(r, v));
  }

  /** The entries of a state are known one by one. */
  lemma EntryByEntry(st: State, view: map<ExternalId, Entry>)
    requires Agreement(st) && view.Keys == st.cache.externalIds.Keys
    requires forall e :: e in view ==> view[e] == EntryAt(st, e)
    ensures Entries(st) == view
  {
  }

  /** The sensor of that external id keeps its uuid if there was one, gets the source's metadata and
      shows the stored readings overridden by the source's; every other entry stays as it was. */
  lemma SyncOneEffect(cfg: Config, st: State, s: Sensor, batch: Readings, now: int)
    requires Agreement(st) && Ready(cfg, st) && !Clashes(st, s)
    ensures var r := SyncOne(cfg, st, s, batch, now); var local := LocalSensor(st.cache, s);
      && r.1.Ok? && Agreement(r.0)
      && r.0.cache.externalIds == st.cache.externalIds[s.externalId := local.uuid]
      && Entries(r.0) == Entries(st)[s.externalId := Entry(s.meta, StoredAt(st, local.uuid) + batch)]
  {
    SyncOneCells(cfg, st, s, batch, now);
    SyncedEntry(cfg, st, s, batch, now);
    var r, local := SyncOne(cfg, st, s, batch, now).0, LocalSensor(st.cache, s);
    var view := Entries(st)[s.externalId := Entry(s.meta, StoredAt(st, local.uuid) + batch)];
    forall e | e in view ensures view[e] == EntryAt(r, e) {
      if e != s.externalId { OtherEntry(cfg, st, s, batch, now, e); }
    }
    EntryByEntry(r, view);
  }

  // ---------- the whole source ----------

  function ReadingsIn(view: map<ExternalId, Entry>, e: ExternalId): Readings {
    if e in view then view[e].readings else map[]
  }

  predicate ListsId(items: seq<Item>, e: ExternalId) {
    exists i :: 0 <= i < |items| && items[i].sensor.externalId == e
  }

  /** Other sensors of the source are not affected by this one. */
  lemma SyncOneFrame(cfg: Config, st: State, s: Sensor, batch: Readings, now: int, t: Sensor)
    requires Agreement(st) && Ready(cfg, st) && !Clashes(st, s)
    requires t.externalId != s.externalId && t.uuid != s.uuid
    ensures var r := SyncOne(cfg, st, s, batch, now).0;
      && Agreement(r)
      && (Clashes(r, t) <==> Clashes(st, t))
  {
    SyncOneCells(cfg, st, s, batch, now);
    IndexLeadsToSensors(st.cache);
  }

  lemma ItemsTail(items: seq<Item>)
    requires items != [] && DistinctItems(items)
    ensures DistinctItems(items[1..]) && !ListsId(items[1..], items[0].sensor.externalId)
    ensures forall e :: ListsId(items, e) <==> e == items[0].sensor.externalId || ListsId(items[1..], e)
  {
    var rest := items[1..];
    assert forall i :: 0 <= i < |rest| ==> rest[i] == items[i + 1];
    forall e ensures ListsId(items, e) <==> e == items[0].sensor.externalId || ListsId(rest, e) {
      if i :| 0 <= i < |items| && items[i].sensor.externalId == e {
        if i > 0 { assert rest[i - 1].sensor.externalId == e; }
      }
      if i :| 0 <= i < |rest| && rest[i].sensor.externalId == e {
        assert items[i + 1].sensor.externalId == e;
      }
    }
  }

  ghost predicate NoClash(st: State, items: seq<Item>) {
    forall i :: 0 <= i < |items| ==> !Clashes(st, items[i].sensor)
  }

  lemma FrameForTail(cfg: Config, st: State, items: seq<Item>)
    requires Agreement(st) && Ready(cfg, st) && items != [] && DistinctItems(items) && !Clashes(st, items[0].sensor)
    ensures var r := SyncOne(cfg, st, items[0].sensor, items[0].readings, items[0].now).0;
      && Agreement(r) && Ready(cfg, r)
      && (NoClash(r, items[1..]) <==> NoClash(st, items))
  {
    SyncOneCells(cfg, st, items[0].sensor, items[0].readings, items[0].now);
    var r, rest := SyncOne(cfg, st, items[0].sensor, items[0].readings, items[0].now).0, items[1..];
    forall i | 0 <= i < |rest|
      ensures Clashes(r, rest[i].sensor) <==> Clashes(st, items[i + 1].sensor)
    {
      SyncOneFrame(cfg, st, items[0].sensor, items[0].readings, items[0].now, items[i + 1].sensor);
    }
    if NoClash(r, rest) {
      forall i | 0 <= i < |items| ensures !Clashes(st, items[i].sensor) {
        if i > 0 { assert !Clashes(r, rest[i - 1].sensor); }
      }
    }
  }

  /** A sync goes through exactly when no uuid of the source is taken here by another external id. */
  lemma {:induction false} SyncSucceedsWithoutClash(cfg: Config, st: State, items: seq<Item>)
    requires Agreement(st) && Ready(cfg, st) && DistinctItems(items)
    ensures Runnable(cfg, st, Steps(items)) <==> NoClash(st, items)
    decreases |items|
  {
    if items != [] && !Clashes(st, items[0].sensor) {
      var r := SyncOne(cfg, st, items[0].sensor, items[0].readings, items[0].now).0;
      FrameForTail(cfg, st, items);
      ItemsTail(items);
      SyncSucceedsWithoutClash(cfg, r, items[1..]);
      assert Steps(items)[1..] == Steps(items[1..]);
    }
  }

  // ---------- repeating a sync ----------

  /** The target already has everything this item brings, even if it loses what it holds back. */
  ghost predicate Absorbed(st: State, item: Item)
    requires Agreement(st)
  {
    var e := item.sensor.externalId;
    && e in st.cache.externalIds
    && EntryAt(st, e) == Entry(item.sensor.meta, StoredAt(st, st.cache.externalIds[e]) + item.readings)
  }

  ghost predicate AllAbsorbed(st: State, items: seq<Item>)
    requires Agreement(st)
  {
    forall i :: 0 <= i < |items| ==> Absorbed(st, items[i])
  }

  lemma OverriddenTwice(stored: Readings, batch: Readings)
    ensures stored + batch + batch == stored + batch
  {
  }

  lemma CalmerStaysAbsorbed(c: Cells.Cell, d: Cells.Cell, batch: Readings)
    requires Calmer(c, d) && c.Visible() == c.stored + batch
    ensures d.Visible() == d.stored + batch
  {
    CalmerShowsTheSame(c, d);
    OverriddenTwice(c.stored, batch);
  }

  lemma SyncOneAbsorbs(cfg: Config, st: State, item: Item)
    requires Agreement(st) && Ready(cfg, st) && !Clashes(st, item.sensor)
    ensures var r := SyncOne(cfg, st, item.sensor, item.readings, item.now).0; Agreement(r) && Absorbed(r, item)
  {
    SyncOneCells(cfg, st, item.sensor, item.readings, item.now);
    SyncedEntry(cfg, st, item.sensor, item.readings, item.now);
    var r, u := SyncOne(cfg, st, item.sensor, item.readings, item.now).0, LocalSensor(st.cache, item.sensor).uuid;
    UpdatesOverStored(StoredAt(st, u), item.readings);
    CalmerStaysAbsorbed(Cells.Cell(StoredAt(st, u), Cells.Pending(map[], item.readings)), CellAt(r, u), item.readings);
  }

  lemma SyncOneKeepsAbsorbed(cfg: Config, st: State, item: Item, other: Item)
    requires Agreement(st) && Ready(cfg, st) && !Clashes(st, item.sensor) && Absorbed(st, other)
    requires other.sensor.externalId != item.sensor.externalId
    ensures var r := SyncOne(cfg, st, item.sensor, item.readings, item.now).0; Agreement(r) && Absorbed(r, other)
  {
    var e := other.sensor.externalId;
    SyncOneCells(cfg, st, item.sensor, item.readings, item.now);
    OtherEntry(cfg, st, item.sensor, item.readings, item.now, e);
    IndexLeadsToSensors(st.cache);
    var r, v := SyncOne(cfg, st, item.sensor, item.readings, item.now).0, st.cache.externalIds[e];
    assert v != LocalSensor(st.cache, item.sensor).uuid;
    CalmerStaysAbsorbed(CellAt(st, v), CellAt(r, v), other.readings);
  }

  /** Synchronising an absorbed sensor again shows nothing new. */
  lemma SyncOneAgain(cfg: Config, st: State, item: Item)
    requires Agreement(st) && Ready(cfg, st) && Absorbed(st, item)
    ensures !Clashes(st, item.sensor)
    ensures var r := SyncOne(cfg, st, item.sensor, item.readings, item.now).0;
      Agreement(r) && Entries(r) == Entries(st) && r.cache.externalIds == st.cache.externalIds
  {
    SyncOneEffect(cfg, st, item.sensor, item.readings, item.now);
  }

  lemma {:induction false} SyncAbsorbs(cfg: Config, st: State, items: seq<Item>, done: seq<Item>)
    requires Agreement(st) && Ready(cfg, st) && DistinctItems(done + items)
    requires Runnable(cfg, st, Steps(items)) && AllAbsorbed(st, done)
    ensures AllAbsorbed(Run(cfg, st, Steps(items)), done + items) && Ready(cfg, Run(cfg, st, Steps(items)))
    decreases |items|
  {
    if items == [] {
      assert done + items == done;
    } else {
      var item := items[0];
      var r, more := SyncOne(cfg, st, item.sensor, item.readings, item.now).0, done + [item];
      assert Steps(items)[1..] == Steps(items[1..]);
      assert more + items[1..] == done + items;
      SyncOneCells(cfg, st, item.sensor, item.readings, item.now);
      forall i | 0 <= i < |more| ensures Absorbed(r, more[i]) {
        if i == |done| {
          SyncOneAbsorbs(cfg, st, item);
        } else {
          assert (done + items)[i] == done[i] && (done + items)[|done|] == item;
          SyncOneKeepsAbsorbed(cfg, st, item, done[i]);
        }
      }
      SyncAbsorbs(cfg, r, items[1..], more);
    }
  }

  lemma AbsorbedStep(cfg: Config, st: State, items: seq<Item>)
    requires Agreement(st) && Ready(cfg, st) && DistinctItems(items) && AllAbsorbed(st, items) && items != []
    ensures !Clashes(st, items[0].sensor)
    ensures var r := SyncOne(cfg, st, items[0].sensor, items[0].readings, items[0].now).0;
      Agreement(r) && Ready(cfg, r) && Entries(r) == Entries(st) && AllAbsorbed(r, items[1..])
  {
    var item, rest := items[0], items[1..];
    assert Absorbed(st, item);
    SyncOneAgain(cfg, st, item);
    SyncOneCells(cfg, st, item.sensor, item.readings, item.now);
    var r := SyncOne(cfg, st, item.sensor, item.readings, item.now).0;
    forall i | 0 <= i < |rest| ensures Absorbed(r, rest[i]) {
      assert rest[i] == items[i + 1] && Absorbed(st, items[i + 1]);
      SyncOneKeepsAbsorbed(cfg, st, item, items[i + 1]);
    }
  }

  /** A run of a sync is its first item and the others. */
  lemma {:induction false} FirstItem(cfg: Config, st: State, items: seq<Item>)
    requires Agreement(st) && Ready(cfg, st) && items != [] && !Clashes(st, items[0].sensor)
    ensures var r := SyncOne(cfg, st, items[0].sensor, items[0].readings, items[0].now).0;
      && Agreement(r)
      && (Runnable(cfg, st, Steps(items)) <==> Runnable(cfg, r, Steps(items[1..])))
      && (Runnable(cfg, st, Steps(items)) ==> Run(cfg, st, Steps(items)) == Run(cfg, r, Steps(items[1..])))
  {
    var steps := Steps(items);
    assert steps[1..] == Steps(items[1..]);
    ApplyKeepsAgreement(cfg, st, steps[0]);
    assert Apply(cfg, st, steps[0]) == SyncOne(cfg, st, items[0].sensor, items[0].readings, items[0].now);
  }

  lemma {:induction false} AbsorbedSyncShowsNothing(cfg: Config, st: State, items: seq<Item>)
    requires Agreement(st) && Ready(cfg, st) && DistinctItems(items) && AllAbsorbed(st, items)
    ensures Runnable(cfg, st, Steps(items)) && Entries(Run(cfg, st, Steps(items))) == Entries(st)
    decreases |items|
  {
    if items != [] {
      AbsorbedStep(cfg, st, items);
      ItemsTail(items);
      FirstItem(cfg, st, items);
      AbsorbedSyncShowsNothing(cfg, SyncOne(cfg, st, items[0].sensor, items[0].readings, items[0].now).0, items[1..]);
    }
  }

  /** Flushes and reads by other clients of the target. */
  predicate Settling(steps: seq<Step>) {
    forall i :: 0 <= i < |steps| ==> steps[i].Flush? || steps[i].Read?
  }

  lemma SettlingStep(cfg: Config, st: State, step: Step)
    requires Agreement(st) && (step.Flush? || step.Read?)
    ensures var r := Apply(cfg, st, step).0;
      && Agreement(r) && r.cache.sensors == st.cache.sensors && r.cache.externalIds == st.cache.externalIds
      && r.snapshot == st.snapshot
      && forall v :: v in st.cache.sensors ==> Calmer(CellAt(st, v), CellAt(r, v))
  {
    ApplyKeepsAgreement(cfg, st, step);
  }

  lemma SettlingStepKeeps(cfg: Config, st: State, step: Step, items: seq<Item>)
    requires Agreement(st) && (step.Flush? || step.Read?) && AllAbsorbed(st, items)
    ensures var r := Apply(cfg, st, step).0; Agreement(r) && Entries(r) == Entries(st) && AllAbsorbed(r, items)
  {
    SettlingStep(cfg, st, step);
    var r := Apply(cfg, st, step).0;
    IndexLeadsToSensors(st.cache);
    forall e | e in st.cache.externalIds ensures EntryAt(r, e) == EntryAt(st, e) {
      CalmerShowsTheSame(CellAt(st, st.cache.externalIds[e]), CellAt(r, st.cache.externalIds[e]));
    }
    forall i | 0 <= i < |items| ensures Absorbed(r, items[i]) {
      var u := st.cache.externalIds[items[i].sensor.externalId];
      assert Absorbed(st, items[i]);
      CalmerStaysAbsorbed(CellAt(st, u), CellAt(r, u), items[i].readings);
    }
  }

  lemma {:induction false} SettlingRunKeeps(cfg: Config, st: State, steps: seq<Step>, items: seq<Item>)
    requires Agreement(st) && Settling(steps) && AllAbsorbed(st, items)
    ensures Runnable(cfg, st, steps)
    ensures var r := Run(cfg, st, steps);
      Entries(r) == Entries(st) && AllAbsorbed(r, items) && r.snapshot == st.snapshot
    decreases |steps|
  {
    if steps != [] {
      SettlingStep(cfg, st, steps[0]);
      SettlingStepKeeps(cfg, st, steps[0], items);
      SettlingRunKeeps(cfg, Apply(cfg, st, steps[0]).0, steps[1..], items);
    }
  }

  predicate Brings(items: seq<Item>, item: Item) {
    exists j :: 0 <= j < |items| && items[j].sensor == item.sensor && items[j].readings == item.readings
  }

  lemma AbsorbedAgain(st: State, items: seq<Item>, again: seq<Item>)
    requires Agreement(st) && AllAbsorbed(st, items)
    requires forall i :: 0 <= i < |again| ==> Brings(items, again[i])
    ensures AllAbsorbed(st, again)
  {
    forall i | 0 <= i < |again| ensures Absorbed(st, again[i]) {
      assert Brings(items, again[i]);
      var j :| 0 <= j < |items| && items[j].sensor == again[i].sensor && items[j].readings == again[i].readings;
      assert Absorbed(st, items[j]);
    }
  }

  /** Repeating a sync shows nothing new, whatever was flushed or read in between, and even though
      the repetition discards what the first one left pending. */
  lemma {:induction false} SyncIsIdempotent(cfg: Config, st: State, items: seq<Item>, between: seq<Step>,
                                           again: seq<Item>)
    requires Agreement(st) && Ready(cfg, st) && DistinctItems(items) && Runnable(cfg, st, Steps(items))
    requires Settling(between)
    requires DistinctItems(again)
    requires forall i :: 0 <= i < |again| ==> Brings(items, again[i])
    ensures var once := Run(cfg, st, Steps(items));
      && Runnable(cfg, once, between) && Runnable(cfg, Run(cfg, once, between), Steps(again))
      && Entries(Run(cfg, Run(cfg, once, between), Steps(again))) == Entries(once)
  {
    assert [] + items == items;
    SyncAbsorbs(cfg, st, items, []);
    var once := Run(cfg, st, Steps(items));
    SettlingRunKeeps(cfg, once, between, items);
    AbsorbedAgain(Run(cfg, once, between), items, again);
    AbsorbedSyncShowsNothing(cfg, Run(cfg, once, between), again);
  }

  // ---------- which sensor is which ----------

  /** The target keeps its uuid for an external id it knew; otherwise it takes over the source's. */
  function KeptId(before: map<ExternalId, Uuid>, s: Sensor): Uuid {
    if s.externalId in before then before[s.externalId] else s.uuid
  }

  ghost predicate MergedIds(before: map<ExternalId, Uuid>, items: seq<Item>, after: map<ExternalId, Uuid>) {
    && (forall e :: e in after <==> e in before || ListsId(items, e))
    && (forall i {:trigger items[i]} :: 0 <= i < |items| ==>
         after[items[i].sensor.externalId] == KeptId(before, items[i].sensor))
    && (forall e :: e in before ==> after[e] == before[e])
  }

  lemma {:induction false} SyncKeepsUuids(cfg: Config, st: State, items: seq<Item>)
    requires Agreement(st) && Ready(cfg, st) && DistinctItems(items) && Runnable(cfg, st, Steps(items))
    ensures MergedIds(st.cache.externalIds, items, Run(cfg, st, Steps(items)).cache.externalIds)
    decreases |items|
  {
    if items != [] {
      var item, rest := items[0], items[1..];
      var r := SyncOne(cfg, st, item.sensor, item.readings, item.now).0;
      assert Steps(items)[1..] == Steps(rest);
      SyncOneCells(cfg, st, item.sensor, item.readings, item.now);
      ItemsTail(items);
      SyncKeepsUuids(cfg, r, rest);
      MergeOneId(st.cache.externalIds, items, r.cache.externalIds, Run(cfg, st, Steps(items)).cache.externalIds);
    }
  }

  lemma MergeOneId(before: map<ExternalId, Uuid>, items: seq<Item>, one: map<ExternalId, Uuid>,
                   after: map<ExternalId, Uuid>)
    requires items != [] && DistinctItems(items) && MergedIds(one, items[1..], after)
    requires one == before[items[0].sensor.externalId := KeptId(before, items[0].sensor)]
    ensures MergedIds(before, items, after)
  {
    ItemsTail(items);
    var rest := items[1..];
    forall i | 0 <= i < |items|
      ensures ListsId(items, items[i].sensor.externalId)
      ensures after[items[i].sensor.externalId] == KeptId(before, items[i].sensor)
    {
      assert ListsId(items, items[i].sensor.externalId);
      if i > 0 { assert rest[i - 1] == items[i]; }
    }
  }

  // ---------- the items of a source ----------

  ghost predicate IsEntryOf(source: State, item: Item)
    requires Agreement(source)
  {
    var s := item.sensor;
    && Owns(source.db.sensors, s.uuid, s.externalId)
    && s.externalId in Entries(source)
    && Entries(source)[s.externalId] == Entry(s.meta, item.readings)
  }

  lemma ItemsOfAreDistinct(items: seq<Item>, source: State)
    requires Agreement(source) && ItemsOf(items, source)
    ensures DistinctItems(items)
  {
    var order := seq(|items|, i requires 0 <= i < |items| => items[i].sensor);
    forall i, j | 0 <= i < j < |items|
      ensures items[i].sensor.externalId != items[j].sensor.externalId && items[i].sensor.uuid != items[j].sensor.uuid
    {
      var s, t := order[i], order[j];
      assert s.uuid != t.uuid;
      assert Owns(source.db.sensors, s.uuid, s.externalId) && Owns(source.db.sensors, t.uuid, t.externalId);
    }
  }

  lemma ItemsAreTheSource(items: seq<Item>, source: State)
    requires Agreement(source) && ItemsOf(items, source)
    ensures DistinctItems(items)
    ensures forall e :: ListsId(items, e) <==> e in Entries(source)
    ensures forall i :: 0 <= i < |items| ==> IsEntryOf(source, items[i])
  {
    var order := seq(|items|, i requires 0 <= i < |items| => items[i].sensor);
    forall i | 0 <= i < |items|
      ensures IsEntryOf(source, items[i])
    {
      var s := order[i];
      assert Owns(source.db.sensors, s.uuid, s.externalId);
      assert LeadsTo(source.cache.externalIds, s.externalId, s.uuid);
    }
    ItemsOfAreDistinct(items, source);
    forall e | e in Entries(source) ensures ListsId(items, e) {
      EveryEntryIsListed(items, source, e);
    }
    forall e | ListsId(items, e) ensures e in Entries(source) {
      var i :| 0 <= i < |items| && items[i].sensor.externalId == e;
      assert IsEntryOf(source, items[i]);
    }
  }

  lemma EveryEntryIsListed(items: seq<Item>, source: State, e: ExternalId)
    requires Agreement(source) && ItemsOf(items, source) && e in source.cache.externalIds
    ensures ListsId(items, e)
  {
    var order := seq(|items|, i requires 0 <= i < |items| => items[i].sensor);
    var u := source.cache.externalIds[e];
    assert LeadsTo(source.cache.externalIds, e, u) && Owns(source.db.sensors, u, e);
    var i :| 0 <= i < |order| && order[i] == source.db.sensors[u];
    assert items[i].sensor.externalId == e;
  }

  // ---------- a sync as it runs ----------

  /** A sync that has thrown after these items, with automatic commits: the database is rolled back. */
  ghost function Aborted(cfg: Config, st: State, items: seq<Item>): State
    requires Agreement(st) && Runnable(cfg, st, Steps(items))
  {
    Run(cfg, st, Steps(items)).(db := st.db)
  }

  lemma {:induction false} StepsAppend(items: seq<Item>, item: Item)
    ensures Steps(items + [item]) == Steps(items) + Steps([item])
  {
    if items == [] {
      assert [] + [item] == [item];
    } else {
      assert (items + [item])[1..] == items[1..] + [item];
      StepsAppend(items[1..], item);
    }
  }

  /** One more sensor of the source. */
  lemma {:induction false} SyncAppend(cfg: Config, st: State, items: seq<Item>, item: Item)
    requires Agreement(st) && Runnable(cfg, st, Steps(items))
    requires !Clashes(Run(cfg, st, Steps(items)), item.sensor)
    ensures Runnable(cfg, st, Steps(items + [item]))
    ensures Run(cfg, st, Steps(items + [item]))
         == SyncOne(cfg, Run(cfg, st, Steps(items)), item.sensor, item.readings, item.now).0
    decreases |items|
  {
    if items == [] {
      var step := SyncItem(item.sensor, item.readings, item.now);
      assert [] + [item] == [item];
      assert Steps([item]) == [step] && [step][1..] == [];
      ApplyKeepsAgreement(cfg, st, step);
    } else {
      assert (items + [item])[1..] == items[1..] + [item];
      assert Steps(items)[1..] == Steps(items[1..]) && Steps(items + [item])[1..] == Steps(items[1..] + [item]);
      ApplyKeepsAgreement(cfg, st, Steps(items)[0]);
      SyncAppend(cfg, Apply(cfg, st, Steps(items)[0]).0, items[1..], item);
    }
  }

  /** Whether a sensor of the source clashes does not depend on those synchronised before it. */
  lemma {:induction false} ClashesStay(cfg: Config, st: State, items: seq<Item>, t: Sensor)
    requires Agreement(st) && Ready(cfg, st) && Runnable(cfg, st, Steps(items))
    requires forall i :: 0 <= i < |items| ==>
      t.externalId != items[i].sensor.externalId && t.uuid != items[i].sensor.uuid
    ensures Clashes(Run(cfg, st, Steps(items)), t) <==> Clashes(st, t)
    ensures Ready(cfg, Run(cfg, st, Steps(items)))
    decreases |items|
  {
    if items != [] {
      assert Steps(items)[1..] == Steps(items[1..]);
      assert items[0] in items;
      SyncOneCells(cfg, st, items[0].sensor, items[0].readings, items[0].now);
      SyncOneFrame(cfg, st, items[0].sensor, items[0].readings, items[0].now, t);
      ClashesStay(cfg, SyncOne(cfg, st, items[0].sensor, items[0].readings, items[0].now).0, items[1..], t);
    }
  }

  lemma WriteInsideATransaction(cfg: Config, st: State, snapshot: Option<Database>, u: Uuid, batch: Readings, now: int)
    requires cfg.autoCommit && Agreement(st) && (snapshot.Some? ==> snapshot.value.Consistent())
    ensures var inside := st.(snapshot := snapshot);
      && Agreement(inside)
      && WriteReadings(cfg, inside, u, true, batch, now).0 ==
           WriteReadings(cfg, st, u, true, batch, now).0.(snapshot := snapshot)
  {
    FlushInsideATransaction(st, snapshot);
    if batch != map[] && u in st.cache.sensors {
      var b := Buffer(st, u, true, batch);
      ReadingsDoNotMatter(st, b);
      FlushInsideATransaction(b, snapshot);
    }
  }

  lemma SyncOneInsideATransaction(cfg: Config, st: State, snapshot: Option<Database>, s: Sensor, batch: Readings,
                                  now: int)
    requires cfg.autoCommit && Agreement(st) && !Clashes(st, s) && (snapshot.Some? ==> snapshot.value.Consistent())
    ensures var inside := st.(snapshot := snapshot);
      && Agreement(inside)
      && SyncOne(cfg, inside, s, batch, now).0 == SyncOne(cfg, st, s, batch, now).0.(snapshot := snapshot)
  {
    FlushInsideATransaction(st, snapshot);
    var inside, synced := st.(snapshot := snapshot), SyncSensor(st, s);
    SyncSensorKeepsAgreement(st, s);
    assert SyncSensor(inside, s) == synced.(snapshot := snapshot);
    WriteInsideATransaction(cfg, synced, snapshot, LocalSensor(st.cache, s).uuid, batch, now);
  }

  /** With automatic commits the outer transaction of a sync changes nothing but itself. */
  lemma {:induction false} SyncInsideATransaction(cfg: Config, st: State, snapshot: Option<Database>, items: seq<Item>)
    requires cfg.autoCommit && Agreement(st) && (snapshot.Some? ==> snapshot.value.Consistent())
    ensures var inside := st.(snapshot := snapshot);
      && Agreement(inside)
      && (Runnable(cfg, inside, Steps(items)) <==> Runnable(cfg, st, Steps(items)))
      && (Runnable(cfg, st, Steps(items)) ==>
            Run(cfg, inside, Steps(items)) == Run(cfg, st, Steps(items)).(snapshot := snapshot))
    decreases |items|
  {
    FlushInsideATransaction(st, snapshot);
    if items != [] && !Clashes(st, items[0].sensor) {
      var item := items[0];
      assert Steps(items)[1..] == Steps(items[1..]);
      ApplyKeepsAgreement(cfg, st, Steps(items)[0]);
      SyncOneInsideATransaction(cfg, st, snapshot, item.sensor, item.readings, item.now);
      SyncInsideATransaction(cfg, SyncOne(cfg, st, item.sensor, item.readings, item.now).0, snapshot, items[1..]);
    }
  }
}
