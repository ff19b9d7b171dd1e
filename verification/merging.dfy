/** What becomes of the readings of both stores in a sync, down to the flushes of the timer. */
module Merging {
  import opened Types
  import opened Databases
  import opened Caches
  import opened StoreModel
  import opened Synchronisation
  import Cells

  // ---------- what registering discards ----------

  /** Each reading held back is stored already or overridden by the batch. */
  predicate LosesNothing(c: Cells.Cell, batch: Readings) {
    && (forall t :: t in c.pending.inserts && t !in c.pending.updates ==> t in c.stored || t in batch)
    && (forall t :: t in c.pending.updates ==> t in batch || (t in c.stored && c.stored[t] == c.pending.updates[t]))
  }

  lemma DiscardedIff(c: Cells.Cell, batch: Readings)
    ensures c.stored + batch == c.Visible() + batch <==> LosesNothing(c, batch)
  {
    var kept, shown := c.stored + batch, c.Visible() + batch;
    if kept == shown {
      forall t | t in c.pending.inserts && t !in c.pending.updates ensures t in c.stored || t in batch {
        assert t in shown;
      }
      forall t | t in c.pending.updates ensures t in batch || (t in c.stored && c.stored[t] == c.pending.updates[t]) {
        assert t in shown;
      }
    }
  }

  /** Synchronising a known sensor shows the own readings overridden by the source's exactly if that is so. */
  lemma WhatASyncLoses(cfg: Config, st: State, s: Sensor, batch: Readings, now: int)
    requires Agreement(st) && Ready(cfg, st) && s.externalId in st.cache.externalIds
    ensures var e := s.externalId; var u := st.cache.externalIds[e]; var r := SyncOne(cfg, st, s, batch, now).0;
      && u in st.cache.sensors && Agreement(r) && e in r.cache.externalIds
      && (EntryAt(r, e) == Entry(s.meta, Visible(st, u) + batch) <==> LosesNothing(CellAt(st, u), batch))
  {
    IndexLeadsToSensors(st.cache);
    SyncedEntry(cfg, st, s, batch, now);
    DiscardedIff(CellAt(st, st.cache.externalIds[s.externalId]), batch);
  }

  lemma DiscardedAll(c: Cells.Cell)
    ensures Cells.Cell(c.stored, Cells.NOTHING).Visible() == c.Visible() <==> LosesNothing(c, map[])
  {
    var none: Readings := map[];
    Cells.NothingPendingShowsTheStored(c.stored);
    DiscardedIff(c, none);
    assert c.stored + none == c.stored && c.Visible() + none == c.Visible();
  }

  /** An update of a sensor that goes through leaves what readers see exactly if that is so. */
  lemma WhatAnUpdateLoses(cfg: Config, st: State, s: Sensor)
    requires Agreement(st) && Enabled(cfg, st, UpdateSensor(s)) && Apply(cfg, st, UpdateSensor(s)).1.Ok?
    ensures var r := Apply(cfg, st, UpdateSensor(s)).0;
      && Agreement(r) && s.uuid in st.cache.sensors && s.uuid in r.cache.sensors
      && (Visible(r, s.uuid) == Visible(st, s.uuid) <==> LosesNothing(CellAt(st, s.uuid), map[]))
  {
    ApplyKeepsAgreement(cfg, st, UpdateSensor(s));
    RegisteredCells(st, Apply(cfg, st, UpdateSensor(s)).0, s);
    DiscardedAll(CellAt(st, s.uuid));
  }

  /** A sensor with a reading held back is updated, by itself: the reading is gone. */
  lemma UpdateDropsAReading(cfg: Config, meta: Metadata)
    requires cfg.autoCommit
    ensures var st := OneSensor(meta); var u := Uuid(1); var r := Apply(cfg, st, UpdateSensor(Sensor(u, "a", meta)));
      && Agreement(st) && Visible(st, u) == map[1 := 1.0]
      && r.1.Ok? && Agreement(r.0) && u in r.0.cache.sensors && Visible(r.0, u) != Visible(st, u)
  {
    var st, s := OneSensor(meta), Sensor(Uuid(1), "a", meta);
    OneSensorAgrees(meta);
    assert Owns(st.db.sensors, Uuid(1), "a");
    assert 1 in CellAt(st, Uuid(1)).pending.inserts;
    WhatAnUpdateLoses(cfg, st, s);
  }

  /** A sync that goes through does the same: its source knows the sensor, and has no readings of it. */
  lemma SyncDropsAReading(cfg: Config, meta: Metadata, now: int)
    requires cfg.autoCommit
    ensures var st := OneSensor(meta); var r := SyncOne(cfg, st, Sensor(Uuid(2), "a", meta), map[], now);
      && Agreement(st) && "a" in st.cache.externalIds && EntryAt(st, "a") == Entry(meta, map[1 := 1.0])
      && r.1.Ok? && Agreement(r.0) && "a" in r.0.cache.externalIds && EntryAt(r.0, "a") != EntryAt(st, "a")
  {
    var st, none: Readings := OneSensor(meta), map[];
    OneSensorAgrees(meta);
    assert 1 in CellAt(st, Uuid(1)).pending.inserts;
    assert Visible(st, Uuid(1)) + none == Visible(st, Uuid(1));
    WhatASyncLoses(cfg, st, Sensor(Uuid(2), "a", meta), none, now);
    SyncOneCells(cfg, st, Sensor(Uuid(2), "a", meta), none, now);
  }

  // ---------- the timer during a sync ----------

  /** The timer is due when this item has arrived, if it has not flushed since `lastFlush`. */
  predicate Flushes(cfg: Config, lastFlush: int, item: Item) {
    item.readings != map[] && cfg.autoFlush && item.now - lastFlush >= cfg.flushTimeout
  }

  predicate TimedFlush(cfg: Config, lastFlush: int, items: seq<Item>) {
    exists i :: 0 <= i < |items| && Flushes(cfg, lastFlush, items[i])
  }

  function FlushedCell(c: Cells.Cell): Cells.Cell {
    Cells.Cell(c.Visible(), Cells.NOTHING)
  }

  lemma FlushedTwice(c: Cells.Cell)
    ensures FlushedCell(FlushedCell(c)) == FlushedCell(c)
  {
    Cells.NothingPendingShowsTheStored(c.Visible());
  }

  lemma AutoFlushExactly(cfg: Config, st: State, now: int)
    requires Agreement(st) && Ready(cfg, st)
    ensures var r := AutoFlush(cfg, st, now).0;
      && Agreement(r) && r.cache.sensors == st.cache.sensors
      && r.lastFlush == (if Due(cfg, st, now) then now else st.lastFlush)
      && forall v :: v in st.cache.sensors ==>
           CellAt(r, v) == if Due(cfg, st, now) then FlushedCell(CellAt(st, v)) else CellAt(st, v)
  {
    AutoFlushCalms(cfg, st, now);
  }

  lemma WriteExactly(cfg: Config, st: State, u: Uuid, batch: Readings, now: int)
    requires Agreement(st) && Ready(cfg, st) && u in st.cache.sensors && CellAt(st, u).pending == Cells.NOTHING
    ensures var r := WriteReadings(cfg, st, u, true, batch, now).0; var due := batch != map[] && Due(cfg, st, now);
      && Agreement(r) && r.cache.sensors == st.cache.sensors
      && r.lastFlush == (if due then now else st.lastFlush)
      && CellAt(r, u) == Arrived(CellAt(st, u).stored, batch, due)
      && forall v :: v in st.cache.sensors && v != u ==>
           CellAt(r, v) == if due then FlushedCell(CellAt(st, v)) else CellAt(st, v)
  {
    if batch != map[] {
      var b := Buffer(st, u, true, batch);
      ReadingsDoNotMatter(st, b);
      UpdatesOverStored(CellAt(st, u).stored, batch);
      assert CellAt(b, u) == Cells.Cell(CellAt(st, u).stored, Cells.Pending(map[], batch));
      forall v | v in st.cache.sensors && v != u ensures CellAt(b, v) == CellAt(st, v) {
      }
      AutoFlushExactly(cfg, b, now);
    }
  }

  /** A sensor whose readings have just been taken over. */
  function Arrived(stored: Readings, batch: Readings, flushed: bool): Cells.Cell {
    if flushed then Cells.Cell(stored + batch, Cells.NOTHING) else Cells.Cell(stored, Cells.Pending(map[], batch))
  }

  /** The state after one item; `SyncOne` with the item in one piece. */
  ghost function Next(cfg: Config, st: State, item: Item): (r: State)
    requires Agreement(st) && Ready(cfg, st) && !Clashes(st, item.sensor)
    ensures Agreement(r) && Ready(cfg, r)
  {
    SyncOneCells(cfg, st, item.sensor, item.readings, item.now);
    SyncOne(cfg, st, item.sensor, item.readings, item.now).0
  }

  lemma NextExactly(cfg: Config, st: State, item: Item)
    requires Agreement(st) && Ready(cfg, st) && !Clashes(st, item.sensor)
    ensures var r := Next(cfg, st, item); var u := LocalSensor(st.cache, item.sensor).uuid;
      && r.lastFlush == (if Flushes(cfg, st.lastFlush, item) then item.now else st.lastFlush)
      && u in r.cache.sensors
      && CellAt(r, u) == Arrived(StoredAt(st, u), item.readings, Flushes(cfg, st.lastFlush, item))
      && st.cache.sensors.Keys <= r.cache.sensors.Keys
      && forall v :: v in st.cache.sensors && v != u ==>
           CellAt(r, v) == if Flushes(cfg, st.lastFlush, item) then FlushedCell(CellAt(st, v)) else CellAt(st, v)
  {
    var local, synced := LocalSensor(st.cache, item.sensor), SyncSensor(st, item.sensor);
    SyncSensorKeepsAgreement(st, item.sensor);
    SyncRegisters(st, item.sensor);
    RegisteredCells(st, synced, local);
    WriteExactly(cfg, synced, local.uuid, item.readings, item.now);
  }

  lemma TimedFlushTail(cfg: Config, lastFlush: int, items: seq<Item>)
    requires items != []
    ensures TimedFlush(cfg, lastFlush, items) <==>
      Flushes(cfg, lastFlush, items[0]) || TimedFlush(cfg, lastFlush, items[1..])
  {
    if TimedFlush(cfg, lastFlush, items) {
      var i :| 0 <= i < |items| && Flushes(cfg, lastFlush, items[i]);
      if i > 0 { assert items[1..][i - 1] == items[i]; }
    }
    if TimedFlush(cfg, lastFlush, items[1..]) {
      var i :| 0 <= i < |items| - 1 && Flushes(cfg, lastFlush, items[1..][i]);
      assert items[i + 1] == items[1..][i];
    }
  }

  // ---------- what a whole sync does to one sensor ----------

  lemma {:induction false} RunSplit(cfg: Config, st: State, a: seq<Item>, b: seq<Item>)
    requires Agreement(st) && Runnable(cfg, st, Steps(a + b))
    ensures Runnable(cfg, st, Steps(a)) && Runnable(cfg, Run(cfg, st, Steps(a)), Steps(b))
    ensures Run(cfg, st, Steps(a + b)) == Run(cfg, Run(cfg, st, Steps(a)), Steps(b))
    decreases |a|
  {
    if a == [] {
      assert a + b == b;
    } else {
      assert (a + b)[1..] == a[1..] + b;
      assert Steps(a)[1..] == Steps(a[1..]) && Steps(a + b)[1..] == Steps(a[1..] + b);
      assert Steps(a)[0] == Steps(a + b)[0];
      ApplyKeepsAgreement(cfg, st, Steps(a)[0]);
      RunSplit(cfg, Apply(cfg, st, Steps(a)[0]).0, a[1..], b);
    }
  }

  lemma {:induction false} RunNext(cfg: Config, st: State, items: seq<Item>)
    requires Agreement(st) && Ready(cfg, st) && items != [] && Runnable(cfg, st, Steps(items))
    ensures !Clashes(st, items[0].sensor) && Runnable(cfg, Next(cfg, st, items[0]), Steps(items[1..]))
    ensures Run(cfg, st, Steps(items)) == Run(cfg, Next(cfg, st, items[0]), Steps(items[1..]))
  {
    FirstItem(cfg, st, items);
  }

  /** The sensor of an external id that this item does not have. */
  lemma NextUntouched(cfg: Config, st: State, item: Item, e: ExternalId)
    requires Agreement(st) && Ready(cfg, st) && !Clashes(st, item.sensor)
    requires e in st.cache.externalIds && e != item.sensor.externalId
    ensures var r := Next(cfg, st, item); var u := st.cache.externalIds[e];
      && LeadsTo(r.cache.externalIds, e, u) && u in st.cache.sensors && u in r.cache.sensors
      && r.cache.sensors[u] == st.cache.sensors[u]
      && CellAt(r, u) == if Flushes(cfg, st.lastFlush, item) then FlushedCell(CellAt(st, u)) else CellAt(st, u)
  {
    IndexLeadsToSensors(st.cache);
    SyncOneCells(cfg, st, item.sensor, item.readings, item.now);
    NextExactly(cfg, st, item);
    assert st.cache.externalIds[e] != LocalSensor(st.cache, item.sensor).uuid;
  }

  /** A sensor that the source does not have is flushed if the timer becomes due, and not touched otherwise. */
  lemma {:induction false} UntouchedCell(cfg: Config, st: State, items: seq<Item>, e: ExternalId)
    requires Agreement(st) && Ready(cfg, st) && Runnable(cfg, st, Steps(items))
    requires e in st.cache.externalIds && forall i :: 0 <= i < |items| ==> items[i].sensor.externalId != e
    ensures var r := Run(cfg, st, Steps(items)); var u := st.cache.externalIds[e];
      && LeadsTo(r.cache.externalIds, e, u) && u in st.cache.sensors && u in r.cache.sensors
      && r.cache.sensors[u] == st.cache.sensors[u]
      && CellAt(r, u) == if TimedFlush(cfg, st.lastFlush, items) then FlushedCell(CellAt(st, u)) else CellAt(st, u)
    decreases |items|
  {
    IndexLeadsToSensors(st.cache);
    if items != [] {
      RunNext(cfg, st, items);
      NextExactly(cfg, st, items[0]);
      NextUntouched(cfg, st, items[0], e);
      UntouchedCell(cfg, Next(cfg, st, items[0]), items[1..], e);
      TimedFlushTail(cfg, st.lastFlush, items);
      FlushedTwice(CellAt(st, st.cache.externalIds[e]));
    }
  }

  lemma {:induction false} UntouchedEntry(cfg: Config, st: State, items: seq<Item>, e: ExternalId)
    requires Agreement(st) && Ready(cfg, st) && Runnable(cfg, st, Steps(items))
    requires e in st.cache.externalIds && forall i :: 0 <= i < |items| ==> items[i].sensor.externalId != e
    ensures var r := Run(cfg, st, Steps(items)); e in r.cache.externalIds && EntryAt(r, e) == EntryAt(st, e)
  {
    UntouchedCell(cfg, st, items, e);
    var r, u := Run(cfg, st, Steps(items)), st.cache.externalIds[e];
    CalmerShowsTheSame(CellAt(st, u), CellAt(r, u));
  }

  lemma {:induction false} StaysReady(cfg: Config, st: State, items: seq<Item>)
    requires Agreement(st) && Ready(cfg, st) && Runnable(cfg, st, Steps(items))
    ensures Ready(cfg, Run(cfg, st, Steps(items)))
    decreases |items|
  {
    if items != [] {
      RunNext(cfg, st, items);
      StaysReady(cfg, Next(cfg, st, items[0]), items[1..]);
    }
  }

  /** The own readings that item `j` finds: those stored, or all that were visible if the timer has
      flushed by then. */
  ghost function Base(cfg: Config, st: State, items: seq<Item>, j: nat): Readings
    requires Agreement(st) && j < |items|
  {
    IndexLeadsToSensors(st.cache);
    var e := items[j].sensor.externalId;
    if e !in st.cache.externalIds then map[]
    else
      var u := st.cache.externalIds[e];
      if TimedFlush(cfg, st.lastFlush, items[..j]) then Visible(st, u) else CellAt(st, u).stored
  }

  /** What is stored for an external id when the first of the items that has it arrives. */
  lemma {:induction false} StoredBefore(cfg: Config, st: State, before: seq<Item>, s: Sensor)
    requires Agreement(st) && Ready(cfg, st) && DistinctItems(before) && Runnable(cfg, st, Steps(before))
    requires forall i :: 0 <= i < |before| ==> before[i].sensor.externalId != s.externalId
    requires !Clashes(Run(cfg, st, Steps(before)), s)
    ensures var r := Run(cfg, st, Steps(before)); var e := s.externalId;
      if e in st.cache.externalIds
      then e in r.cache.externalIds && st.cache.externalIds[e] in st.cache.sensors
        && StoredAt(r, LocalSensor(r.cache, s).uuid) ==
             (var c := CellAt(st, st.cache.externalIds[e]);
              if TimedFlush(cfg, st.lastFlush, before) then c.Visible() else c.stored)
      else StoredAt(r, LocalSensor(r.cache, s).uuid) == map[]
  {
    if s.externalId in st.cache.externalIds {
      UntouchedCell(cfg, st, before, s.externalId);
    } else {
      SyncKeepsUuids(cfg, st, before);
    }
  }

  lemma {:induction false} BeforeItem(cfg: Config, st: State, items: seq<Item>, j: nat)
    requires Agreement(st) && Ready(cfg, st) && DistinctItems(items) && Runnable(cfg, st, Steps(items)) && j < |items|
    ensures Runnable(cfg, st, Steps(items[..j]))
    ensures var before := Run(cfg, st, Steps(items[..j]));
      && Ready(cfg, before) && Runnable(cfg, before, Steps(items[j..]))
      && Run(cfg, before, Steps(items[j..])) == Run(cfg, st, Steps(items))
      && !Clashes(before, items[j].sensor)
  {
    assert items[..j] + items[j..] == items;
    RunSplit(cfg, st, items[..j], items[j..]);
    StaysReady(cfg, st, items[..j]);
    RunNext(cfg, Run(cfg, st, Steps(items[..j])), items[j..]);
  }

  lemma {:induction false} AfterItem(cfg: Config, st: State, items: seq<Item>)
    requires Agreement(st) && Ready(cfg, st) && DistinctItems(items) && Runnable(cfg, st, Steps(items)) && items != []
    ensures var r := Run(cfg, st, Steps(items)); var s := items[0].sensor;
      && !Clashes(st, s) && s.externalId in r.cache.externalIds
      && EntryAt(r, s.externalId) == Entry(s.meta, StoredAt(st, LocalSensor(st.cache, s).uuid) + items[0].readings)
  {
    RunNext(cfg, st, items);
    SyncedEntry(cfg, st, items[0].sensor, items[0].readings, items[0].now);
    ItemsTail(items);
    assert forall i :: 0 <= i < |items[1..]| ==> items[1..][i] == items[i + 1];
    UntouchedEntry(cfg, Next(cfg, st, items[0]), items[1..], items[0].sensor.externalId);
  }

  lemma {:induction false} BaseIsStored(cfg: Config, st: State, items: seq<Item>, j: nat)
    requires Agreement(st) && Ready(cfg, st) && DistinctItems(items) && j < |items|
    requires Runnable(cfg, st, Steps(items[..j])) && !Clashes(Run(cfg, st, Steps(items[..j])), items[j].sensor)
    ensures var before := Run(cfg, st, Steps(items[..j]));
      StoredAt(before, LocalSensor(before.cache, items[j].sensor).uuid) == Base(cfg, st, items, j)
  {
    StoredBefore(cfg, st, items[..j], items[j].sensor);
  }

  /** What one item makes of its external id, whatever comes before and after it. */
  lemma {:induction false} EffectOfItem(cfg: Config, st: State, items: seq<Item>, j: nat)
    requires Agreement(st) && Ready(cfg, st) && DistinctItems(items) && Runnable(cfg, st, Steps(items)) && j < |items|
    ensures var r := Run(cfg, st, Steps(items)); var s := items[j].sensor;
      && s.externalId in r.cache.externalIds
      && EntryAt(r, s.externalId) == Entry(s.meta, Base(cfg, st, items, j) + items[j].readings)
  {
    BeforeItem(cfg, st, items, j);
    BaseIsStored(cfg, st, items, j);
    var rest := items[j..];
    assert rest[0] == items[j] && DistinctItems(rest);
    AfterItem(cfg, Run(cfg, st, Steps(items[..j])), rest);
  }

  // ---------- what a whole sync shows ----------

  predicate MergedItem(before: map<ExternalId, Entry>, item: Item, after: map<ExternalId, Entry>) {
    var e := item.sensor.externalId;
    e in after && after[e] == Entry(item.sensor.meta, ReadingsIn(before, e) + item.readings)
  }

  /** No entries but those of the items are new, and none but theirs have changed. */
  ghost predicate Framed(before: map<ExternalId, Entry>, items: seq<Item>, after: map<ExternalId, Entry>) {
    && (forall e :: e in after <==> e in before || ListsId(items, e))
    && (forall e :: e in before && !ListsId(items, e) ==> after[e] == before[e])
  }

  /** `after` is `before` overridden, external id by external id, by the items. */
  ghost predicate Merged(before: map<ExternalId, Entry>, items: seq<Item>, after: map<ExternalId, Entry>) {
    Framed(before, items, after) && forall i :: 0 <= i < |items| ==> MergedItem(before, items[i], after)
  }

  /** What `j` finds of the own readings is all that matters: the timer has flushed, or nothing is lost. */
  ghost predicate KeepsOwn(cfg: Config, st: State, items: seq<Item>, j: nat)
    requires Agreement(st) && j < |items|
  {
    IndexLeadsToSensors(st.cache);
    var e := items[j].sensor.externalId;
    e in st.cache.externalIds ==>
      || TimedFlush(cfg, st.lastFlush, items[..j])
      || LosesNothing(CellAt(st, st.cache.externalIds[e]), items[j].readings)
  }

  lemma KeepsOwnIff(cfg: Config, st: State, items: seq<Item>, j: nat)
    requires Agreement(st) && j < |items|
    ensures KeepsOwn(cfg, st, items, j) <==>
      Base(cfg, st, items, j) + items[j].readings ==
        ReadingsIn(Entries(st), items[j].sensor.externalId) + items[j].readings
  {
    IndexLeadsToSensors(st.cache);
    var e := items[j].sensor.externalId;
    if e in st.cache.externalIds {
      DiscardedIff(CellAt(st, st.cache.externalIds[e]), items[j].readings);
    }
  }

  lemma {:induction false} SyncFrames(cfg: Config, st: State, items: seq<Item>)
    requires Agreement(st) && Ready(cfg, st) && DistinctItems(items) && Runnable(cfg, st, Steps(items))
    ensures Framed(Entries(st), items, Entries(Run(cfg, st, Steps(items))))
  {
    SyncKeepsUuids(cfg, st, items);
    var before, after := Entries(st), Entries(Run(cfg, st, Steps(items)));
    forall e | e in before && !ListsId(items, e) ensures after[e] == before[e] {
      UntouchedEntry(cfg, st, items, e);
    }
  }

  lemma {:induction false} MergesItemIff(cfg: Config, st: State, items: seq<Item>, j: nat)
    requires Agreement(st) && Ready(cfg, st) && DistinctItems(items) && Runnable(cfg, st, Steps(items)) && j < |items|
    ensures KeepsOwn(cfg, st, items, j) <==> MergedItem(Entries(st), items[j], Entries(Run(cfg, st, Steps(items))))
  {
    EffectOfItem(cfg, st, items, j);
    KeepsOwnIff(cfg, st, items, j);
  }

  /** Effect and frame of a sync: every external id of the source shows the source's metadata and its own
      readings overridden by the source's, and all others stay as they were, exactly if for no sensor of
      the source a reading was lost that was held back. */
  lemma {:induction false} SyncMergesIff(cfg: Config, st: State, items: seq<Item>)
    requires Agreement(st) && Ready(cfg, st) && DistinctItems(items) && Runnable(cfg, st, Steps(items))
    ensures Merged(Entries(st), items, Entries(Run(cfg, st, Steps(items)))) <==>
      forall j :: 0 <= j < |items| ==> KeepsOwn(cfg, st, items, j)
  {
    SyncFrames(cfg, st, items);
    forall j | 0 <= j < |items|
      ensures KeepsOwn(cfg, st, items, j) <==> MergedItem(Entries(st), items[j], Entries(Run(cfg, st, Steps(items))))
    {
      MergesItemIff(cfg, st, items, j);
    }
  }

  // ---------- syncing both ways ----------

  /** The target's entries overridden by the source's. */
  ghost function Override(target: map<ExternalId, Entry>, source: map<ExternalId, Entry>): map<ExternalId, Entry> {
    map e | e in target.Keys + source.Keys ::
      if e in source then Entry(source[e].meta, ReadingsIn(target, e) + source[e].readings) else target[e]
  }

  ghost predicate AreTheSource(items: seq<Item>, source: map<ExternalId, Entry>) {
    && (forall e :: ListsId(items, e) <==> e in source)
    && forall i {:trigger items[i]} :: 0 <= i < |items| ==>
         source[items[i].sensor.externalId] == Entry(items[i].sensor.meta, items[i].readings)
  }

  lemma ItemsMakeTheSource(items: seq<Item>, source: State)
    requires Agreement(source) && ItemsOf(items, source)
    ensures DistinctItems(items) && AreTheSource(items, Entries(source))
  {
    ItemsAreTheSource(items, source);
    forall i | 0 <= i < |items|
      ensures Entries(source)[items[i].sensor.externalId] == Entry(items[i].sensor.meta, items[i].readings)
    {
      assert IsEntryOf(source, items[i]);
    }
  }

  lemma MergedIsOverride(before: map<ExternalId, Entry>, items: seq<Item>, after: map<ExternalId, Entry>,
                         source: map<ExternalId, Entry>)
    requires AreTheSource(items, source)
    ensures Merged(before, items, after) <==> after == Override(before, source)
  {
    var o := Override(before, source);
    forall i | 0 <= i < |items| ensures MergedItem(before, items[i], o) {
      assert ListsId(items, items[i].sensor.externalId);
    }
    if Merged(before, items, after) {
      assert after.Keys == o.Keys;
      forall e | e in after ensures after[e] == o[e] {
        if ListsId(items, e) {
          var i :| 0 <= i < |items| && items[i].sensor.externalId == e;
          assert MergedItem(before, items[i], after) && MergedItem(before, items[i], o);
        }
      }
    }
  }

  /** A successful sync overrides the target's entries by the source's exactly if nothing is lost. */
  lemma {:induction false} SyncOverridesIff(cfg: Config, st: State, source: State, items: seq<Item>)
    requires Agreement(st) && Agreement(source) && Ready(cfg, st) && ItemsOf(items, source)
    requires Runnable(cfg, st, Steps(items))
    ensures Entries(Run(cfg, st, Steps(items))) == Override(Entries(st), Entries(source)) <==>
      forall j :: 0 <= j < |items| ==> KeepsOwn(cfg, st, items, j)
  {
    ItemsMakeTheSource(items, source);
    SyncMergesIff(cfg, st, items);
    MergedIsOverride(Entries(st), items, Entries(Run(cfg, st, Steps(items))), Entries(source));
  }

  /** After a sync the target shows at least what the source shows. */
  ghost predicate Covers(view: map<ExternalId, Entry>, source: map<ExternalId, Entry>) {
    forall e {:trigger CoversAt(view, source, e)} :: e in source ==> CoversAt(view, source, e)
  }

  predicate CoversAt(view: map<ExternalId, Entry>, source: map<ExternalId, Entry>, e: ExternalId)
    requires e in source
  {
    e in view && view[e].meta == source[e].meta && source[e].readings + view[e].readings == view[e].readings
  }

  lemma OverriddenAlready(base: Readings, rs: Readings)
    ensures rs + (base + rs) == base + rs
  {
  }

  lemma {:induction false} SyncCovers(cfg: Config, st: State, source: State, items: seq<Item>)
    requires Agreement(st) && Agreement(source) && Ready(cfg, st) && ItemsOf(items, source)
    requires Runnable(cfg, st, Steps(items))
    ensures Covers(Entries(Run(cfg, st, Steps(items))), Entries(source))
  {
    ItemsMakeTheSource(items, source);
    var view, brought := Entries(Run(cfg, st, Steps(items))), Entries(source);
    forall e | e in brought ensures CoversAt(view, brought, e) {
      var j :| 0 <= j < |items| && items[j].sensor.externalId == e;
      EffectOfItem(cfg, st, items, j);
      assert brought[items[j].sensor.externalId] == Entry(items[j].sensor.meta, items[j].readings);
      OverriddenAlready(Base(cfg, st, items, j), items[j].readings);
    }
  }

  lemma OverrideByWhatCovers(b: map<ExternalId, Entry>, view: map<ExternalId, Entry>)
    requires Covers(view, b)
    ensures Override(b, view) == view
  {
    var o := Override(b, view);
    assert o.Keys == view.Keys by {
      forall e | e in b ensures e in view { assert CoversAt(view, b, e); }
    }
    forall e | e in view ensures o[e] == view[e] {
      if e in b {
        assert CoversAt(view, b, e);
      } else {
        var none: Readings := map[];
        assert none + view[e].readings == view[e].readings;
      }
    }
  }

  /** The source has been read sensor by sensor: flushed, and showing the same. */
  lemma ReadingFlushesTheSource(cfg: Config, source: State, items: seq<Item>)
    requires Agreement(source)
    ensures Agreement(FlushAll(source)) && Entries(FlushAll(source)) == Entries(source)
    ensures forall j :: 0 <= j < |items| ==> KeepsOwn(cfg, FlushAll(source), items, j)
  {
    FlushKeepsAgreement(source);
    IndexLeadsToSensors(source.cache);
    var f := FlushAll(source);
    forall e | e in source.cache.externalIds ensures EntryAt(f, e) == EntryAt(source, e) {
      var u := source.cache.externalIds[e];
      CalmerShowsTheSame(CellAt(source, u), CellAt(f, u));
    }
    EntryByEntry(f, Entries(source));
  }

  /** Uuids shared by the two stores belong to the same external id. */
  ghost predicate NoUuidClash(a: State, b: State) {
    forall u :: u in a.db.sensors && u in b.db.sensors ==> a.db.sensors[u].externalId == b.db.sensors[u].externalId
  }

  /** No sensor of the source clashes. */
  ghost predicate Welcome(st: State, source: State) {
    forall u :: u in source.cache.sensors ==> !Clashes(st, source.cache.sensors[u])
  }

  lemma NoUuidClashNoItemClash(st: State, source: State)
    requires Agreement(st) && Agreement(source) && NoUuidClash(st, source)
    ensures Welcome(st, source)
  {
    forall u | u in source.cache.sensors ensures !Clashes(st, source.cache.sensors[u]) {
      var s := source.cache.sensors[u];
      assert Owns(source.cache.sensors, u, s.externalId);
      if u in st.cache.sensors {
        assert Owns(st.cache.sensors, u, s.externalId);
        assert LeadsTo(st.cache.externalIds, s.externalId, u);
      }
    }
  }

  lemma WelcomeItems(st: State, source: State, items: seq<Item>)
    requires Agreement(source) && ItemsOf(items, source) && Welcome(st, source)
    ensures NoClash(st, items)
  {
    ItemsAreTheSource(items, source);
    forall i | 0 <= i < |items| ensures !Clashes(st, items[i].sensor) {
      var order := seq(|items|, i requires 0 <= i < |items| => items[i].sensor);
      assert order[i].uuid in source.db.sensors && source.db.sensors[order[i].uuid] == order[i];
    }
  }

  /** The first sync does not prevent the second: what it adds here, the other store knows. */
  lemma {:induction false} NoClashOnTheWayBack(cfg: Config, a: State, b: State, fromB: seq<Item>)
    requires Agreement(a) && Agreement(b) && Ready(cfg, a) && NoUuidClash(a, b) && ItemsOf(fromB, b)
    requires Runnable(cfg, a, Steps(fromB))
    ensures Welcome(FlushAll(b), Run(cfg, a, Steps(fromB)))
  {
    var a1 := Run(cfg, a, Steps(fromB));
    ItemsAreTheSource(fromB, b);
    SyncKeepsUuids(cfg, a, fromB);
    forall u | u in a1.cache.sensors ensures !Clashes(FlushAll(b), a1.cache.sensors[u]) {
      var t := a1.cache.sensors[u];
      assert Owns(a1.cache.sensors, u, t.externalId);
      assert LeadsTo(a1.cache.externalIds, t.externalId, u);
      if t.externalId !in b.cache.externalIds {
        assert t.externalId !in Entries(b);
        assert LeadsTo(a.cache.externalIds, t.externalId, u);
        assert Owns(a.db.sensors, u, t.externalId);
        if u in b.db.sensors {
          assert Owns(b.db.sensors, u, t.externalId);
        }
      }
    }
  }

  /** Two-way sync converges: neither sync throws, and after A.sync(B) and B.sync(A) both stores show the
      same. What they show is A's entries overridden by B's exactly if A loses nothing it holds back. */
  lemma {:induction false} TwoWaySyncConverges(cfgA: Config, cfgB: Config, a: State, b: State, fromB: seq<Item>,
                                              fromA: seq<Item>)
    requires Agreement(a) && Agreement(b) && Ready(cfgA, a) && Ready(cfgB, b)
    requires NoUuidClash(a, b) && ItemsOf(fromB, b)
    requires Runnable(cfgA, a, Steps(fromB)) ==> ItemsOf(fromA, Run(cfgA, a, Steps(fromB)))
    ensures Runnable(cfgA, a, Steps(fromB))
    ensures Agreement(FlushAll(b)) && Runnable(cfgB, FlushAll(b), Steps(fromA))
    ensures var a2 := FlushAll(Run(cfgA, a, Steps(fromB))); var b2 := Run(cfgB, FlushAll(b), Steps(fromA));
      && Agreement(a2) && Entries(a2) == Entries(b2)
      && (Entries(a2) == Override(Entries(a), Entries(b)) <==>
            forall j :: 0 <= j < |fromB| ==> KeepsOwn(cfgA, a, fromB, j))
  {
    NoUuidClashNoItemClash(a, b);
    WelcomeItems(a, b, fromB);
    ItemsAreTheSource(fromB, b);
    SyncSucceedsWithoutClash(cfgA, a, fromB);
    var a1 := Run(cfgA, a, Steps(fromB));
    SyncOverridesIff(cfgA, a, b, fromB);
    SyncCovers(cfgA, a, b, fromB);
    ReadingFlushesTheSource(cfgB, b, fromA);
    ItemsAreTheSource(fromA, a1);
    NoClashOnTheWayBack(cfgA, a, b, fromB);
    WelcomeItems(FlushAll(b), a1, fromA);
    SyncSucceedsWithoutClash(cfgB, FlushAll(b), fromA);
    SyncOverridesIff(cfgB, FlushAll(b), a1, fromA);
    ReadingFlushesTheSource(cfgA, a1, fromA);
    OverrideByWhatCovers(Entries(b), Entries(a1));
  }
}
