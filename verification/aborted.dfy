/**
 * A sync that throws with automatic commits: the database is rolled back, the buffers keep what the
 * items before the clash have made of them.
 */
module AbortedSyncs {
  import opened Types
  import opened Databases
  import opened Caches
  import opened StoreModel
  import opened Synchronisation
  import opened Merging
  import Cells

  /** The sensor is here already, with these properties. */
  predicate Known(c: Cache, s: Sensor) {
    && s.externalId in c.externalIds && c.externalIds[s.externalId] in c.sensors
    && c.sensors[c.externalIds[s.externalId]].meta == s.meta
  }

  ghost predicate AllKnown(c: Cache, items: seq<Item>) {
    forall i :: 0 <= i < |items| ==> Known(c, items[i].sensor)
  }

  // ---------- cache and database ----------

  lemma NextKnown(cfg: Config, st: State, item: Item)
    requires Agreement(st) && Ready(cfg, st) && Known(st.cache, item.sensor)
    ensures !Clashes(st, item.sensor)
    ensures var r := Next(cfg, st, item);
      r.cache.sensors == st.cache.sensors && r.cache.externalIds == st.cache.externalIds
  {
    var s, u := item.sensor, st.cache.externalIds[item.sensor.externalId];
    SyncOneCells(cfg, st, s, item.readings, item.now);
    IndexLeadsToSensors(st.cache);
    assert st.cache.sensors[u] == s.(uuid := u);
    Overwritten(st.cache.sensors, u, s, s);
    Overwritten(st.cache.externalIds, s.externalId, u, u);
  }

  lemma {:induction false} KnownSensorsStay(cfg: Config, st: State, items: seq<Item>)
    requires Agreement(st) && Ready(cfg, st) && Runnable(cfg, st, Steps(items)) && AllKnown(st.cache, items)
    ensures Run(cfg, st, Steps(items)).cache.sensors == st.cache.sensors
    decreases |items|
  {
    if items != [] {
      RunNext(cfg, st, items);
      NextKnown(cfg, st, items[0]);
      assert forall i :: 0 <= i < |items[1..]| ==> items[1..][i] == items[i + 1];
      KnownSensorsStay(cfg, Next(cfg, st, items[0]), items[1..]);
    }
  }

  /** After an aborted sync cache and database agree exactly if every sensor that had been synchronised was
      known before, with the same properties. */
  lemma {:induction false} AbortedSyncAgreesIff(cfg: Config, st: State, items: seq<Item>)
    requires Agreement(st) && Ready(cfg, st) && DistinctItems(items) && Runnable(cfg, st, Steps(items))
    ensures Agreement(Aborted(cfg, st, items)) <==> AllKnown(st.cache, items)
  {
    var r := Run(cfg, st, Steps(items));
    if AllKnown(st.cache, items) {
      KnownSensorsStay(cfg, st, items);
      ReadingsDoNotMatter(r, r.(db := st.db));
    }
    if Agreement(Aborted(cfg, st, items)) {
      ExactIndexIsUnique(r.cache, st.cache);
      IndexLeadsToSensors(st.cache);
      forall i | 0 <= i < |items| ensures Known(st.cache, items[i].sensor) {
        EffectOfItem(cfg, st, items, i);
      }
    }
  }

  /** A sync that is undone is part of a run exactly in that case. */
  lemma {:induction false} AbortedSyncIsARun(cfg: Config, st: State, items: seq<Item>)
    requires cfg.autoCommit && Agreement(st) && DistinctItems(items) && Runnable(cfg, st, Steps(items))
    ensures var steps := Steps(items) + [SyncUndone(st.db)];
      && (Runnable(cfg, st, steps) <==> AllKnown(st.cache, items))
      && (Runnable(cfg, st, steps) ==> Run(cfg, st, steps) == Aborted(cfg, st, items))
  {
    RunLast(cfg, st, Steps(items), SyncUndone(st.db));
    ApplyAgreesIff(cfg, Run(cfg, st, Steps(items)), SyncUndone(st.db));
    AbortedSyncAgreesIff(cfg, st, items);
  }

  // ---------- readers ----------

  /** What is held back under external id `e` after the items, if it was `p` before: the readings of its
      own item, as long as the timer does not flush them. */
  function HeldAfter(cfg: Config, lastFlush: int, items: seq<Item>, e: ExternalId, p: Cells.Pending)
    : Cells.Pending
    decreases |items|
  {
    if items == [] then p
    else
      var item := items[0];
      var q := if item.sensor.externalId == e then Cells.Pending(map[], item.readings) else p;
      if Flushes(cfg, lastFlush, item) then HeldAfter(cfg, item.now, items[1..], e, Cells.NOTHING)
      else HeldAfter(cfg, lastFlush, items[1..], e, q)
  }

  lemma NextHolds(cfg: Config, st: State, item: Item, u: Uuid)
    requires Agreement(st) && Ready(cfg, st) && !Clashes(st, item.sensor) && u in st.cache.sensors
    ensures var r := Next(cfg, st, item); var e := st.cache.sensors[u].externalId;
      && u in r.cache.sensors && r.cache.sensors[u].externalId == e
      && r.lastFlush == (if Flushes(cfg, st.lastFlush, item) then item.now else st.lastFlush)
      && r.cache.pending[u] ==
           if Flushes(cfg, st.lastFlush, item) then Cells.NOTHING
           else if item.sensor.externalId == e then Cells.Pending(map[], item.readings) else st.cache.pending[u]
  {
    var r, e := Next(cfg, st, item), st.cache.sensors[u].externalId;
    assert Owns(st.cache.sensors, u, e) && LeadsTo(st.cache.externalIds, e, u);
    NextExactly(cfg, st, item);
    SyncOneCells(cfg, st, item.sensor, item.readings, item.now);
    IndexLeadsToSensors(st.cache);
    assert CellAt(r, u).pending == r.cache.pending[u];
  }

  lemma {:induction false} SyncHolds(cfg: Config, st: State, items: seq<Item>, u: Uuid)
    requires Agreement(st) && Ready(cfg, st) && Runnable(cfg, st, Steps(items)) && u in st.cache.sensors
    ensures var r := Run(cfg, st, Steps(items));
      && u in r.cache.sensors
      && r.cache.pending[u] == HeldAfter(cfg, st.lastFlush, items, st.cache.sensors[u].externalId, st.cache.pending[u])
    decreases |items|
  {
    if items != [] {
      RunNext(cfg, st, items);
      NextHolds(cfg, st, items[0], u);
      SyncHolds(cfg, Next(cfg, st, items[0]), items[1..], u);
    }
  }

  /** The items bring readings for `e`, or the timer flushes. */
  predicate Touched(cfg: Config, lastFlush: int, items: seq<Item>, e: ExternalId) {
    ListsId(items, e) || TimedFlush(cfg, lastFlush, items)
  }

  lemma {:induction false} TouchedOrHeld(cfg: Config, lastFlush: int, items: seq<Item>, e: ExternalId, p: Cells.Pending)
    ensures var q := HeldAfter(cfg, lastFlush, items, e, p);
      if Touched(cfg, lastFlush, items, e) then q.inserts == map[] else q == p
    decreases |items|
  {
    if items != [] {
      TimedFlushTail(cfg, lastFlush, items);
      ListsTail(items, e);
      var q := if items[0].sensor.externalId == e then Cells.Pending(map[], items[0].readings) else p;
      TouchedOrHeld(cfg, items[0].now, items[1..], e, Cells.NOTHING);
      TouchedOrHeld(cfg, lastFlush, items[1..], e, q);
    }
  }

  lemma ListsTail(items: seq<Item>, e: ExternalId)
    requires items != []
    ensures ListsId(items, e) <==> items[0].sensor.externalId == e || ListsId(items[1..], e)
  {
    if i :| 0 <= i < |items| && items[i].sensor.externalId == e {
      if i > 0 { assert items[1..][i - 1].sensor.externalId == e; }
    }
    if i :| 0 <= i < |items| - 1 && items[1..][i].sensor.externalId == e {
      assert items[i + 1].sensor.externalId == e;
    }
  }

  /** What is left of a sensor's readings, after those held back have been replaced by the updates `batch`
      and what was stored since has been rolled back, is what was visible. */
  predicate ShowsTheSame(c: Cells.Cell, batch: Readings) {
    LosesNothing(c, batch) && forall t :: t in batch ==> t in c.Visible() && c.Visible()[t] == batch[t]
  }

  lemma ReplacedIff(c: Cells.Cell, batch: Readings)
    ensures c.stored + batch == c.Visible() <==> ShowsTheSame(c, batch)
  {
    DiscardedIff(c, batch);
    var shown := c.Visible();
    if c.stored + batch == shown {
      assert forall t :: t in batch ==> t in c.stored + batch;
      assert shown + batch == shown;
    }
    if ShowsTheSame(c, batch) {
      assert shown + batch == shown;
    }
  }

  /** Readers of a sensor see the same after an aborted sync as before it exactly if neither an item nor
      the timer has touched it, or if what is held back now, over what was stored, is what was visible. */
  lemma {:induction false} AbortedSyncLosesIff(cfg: Config, st: State, items: seq<Item>, u: Uuid)
    requires Agreement(st) && Ready(cfg, st) && Runnable(cfg, st, Steps(items)) && u in st.cache.sensors
    ensures var after := Aborted(cfg, st, items); var e := st.cache.sensors[u].externalId;
      && u in after.cache.pending && u in after.db.readings
      && (Cells.Flushed(after.db.readings[u], after.cache.pending[u]) == Visible(st, u) <==>
            || !Touched(cfg, st.lastFlush, items, e)
            || ShowsTheSame(CellAt(st, u), HeldAfter(cfg, st.lastFlush, items, e, st.cache.pending[u]).updates))
  {
    var e, p := st.cache.sensors[u].externalId, st.cache.pending[u];
    SyncHolds(cfg, st, items, u);
    TouchedOrHeld(cfg, st.lastFlush, items, e, p);
    var q := HeldAfter(cfg, st.lastFlush, items, e, p);
    if Touched(cfg, st.lastFlush, items, e) {
      assert q == Cells.Pending(map[], q.updates);
      UpdatesOverStored(st.db.readings[u], q.updates);
      ReplacedIff(CellAt(st, u), q.updates);
    }
  }

  // ---------- without replaying the items ----------

  /** When the timer has flushed last. */
  function FlushTime(cfg: Config, lastFlush: int, items: seq<Item>): int
    decreases |items|
  {
    if items == [] then lastFlush
    else FlushTime(cfg, if Flushes(cfg, lastFlush, items[0]) then items[0].now else lastFlush, items[1..])
  }

  /** The timer flushes when item `i` has arrived, or a later one. */
  predicate FlushesFrom(cfg: Config, lastFlush: int, items: seq<Item>, i: nat)
    requires i <= |items|
  {
    TimedFlush(cfg, FlushTime(cfg, lastFlush, items[..i]), items[i..])
  }

  lemma {:induction false} HeldUnlisted(cfg: Config, lastFlush: int, items: seq<Item>, e: ExternalId, p: Cells.Pending)
    requires !ListsId(items, e)
    ensures HeldAfter(cfg, lastFlush, items, e, p) == if TimedFlush(cfg, lastFlush, items) then Cells.NOTHING else p
    decreases |items|
  {
    if items != [] {
      TimedFlushTail(cfg, lastFlush, items);
      ListsTail(items, e);
      HeldUnlisted(cfg, items[0].now, items[1..], e, Cells.NOTHING);
      HeldUnlisted(cfg, lastFlush, items[1..], e, p);
    }
  }

  lemma FlushesFromTail(cfg: Config, lastFlush: int, items: seq<Item>, i: nat)
    requires 0 < i <= |items|
    ensures FlushesFrom(cfg, lastFlush, items, i) <==>
      FlushesFrom(cfg, if Flushes(cfg, lastFlush, items[0]) then items[0].now else lastFlush, items[1..], i - 1)
  {
    assert items[..i][1..] == items[1..][..i-1] && items[1..][i-1..] == items[i..];
  }

  /** What is held back for a sensor of the source is nothing if the timer has flushed it, else its item. */
  lemma {:induction false} HeldListed(cfg: Config, lastFlush: int, items: seq<Item>, i: nat, p: Cells.Pending)
    requires DistinctItems(items) && i < |items|
    ensures HeldAfter(cfg, lastFlush, items, items[i].sensor.externalId, p) ==
      if FlushesFrom(cfg, lastFlush, items, i) then Cells.NOTHING else Cells.Pending(map[], items[i].readings)
    decreases |items|
  {
    var e, rest := items[i].sensor.externalId, items[1..];
    ItemsTail(items);
    if i == 0 {
      assert items[..0] == [] && items[0..] == items;
      TimedFlushTail(cfg, lastFlush, items);
      HeldUnlisted(cfg, items[0].now, rest, e, Cells.NOTHING);
      HeldUnlisted(cfg, lastFlush, rest, e, Cells.Pending(map[], items[0].readings));
    } else {
      FlushesFromTail(cfg, lastFlush, items, i);
      assert rest[i - 1] == items[i] && items[0].sensor.externalId != e;
      HeldListed(cfg, items[0].now, rest, i - 1, Cells.NOTHING);
      HeldListed(cfg, lastFlush, rest, i - 1, p);
    }
  }

  /** What was visible is stored, but for the readings of the own item, if the timer does not flush them. */
  ghost predicate StaysVisible(cfg: Config, lastFlush: int, items: seq<Item>, e: ExternalId, c: Cells.Cell) {
    && (forall i :: 0 <= i < |items| && items[i].sensor.externalId == e ==>
          ShowsTheSame(c, if FlushesFrom(cfg, lastFlush, items, i) then map[] else items[i].readings))
    && (!ListsId(items, e) && TimedFlush(cfg, lastFlush, items) ==> ShowsTheSame(c, map[]))
  }

  lemma {:induction false} AbortedSyncShowsTheSameIff(cfg: Config, st: State, items: seq<Item>, u: Uuid)
    requires Agreement(st) && Ready(cfg, st) && DistinctItems(items) && Runnable(cfg, st, Steps(items))
    requires u in st.cache.sensors
    ensures var after := Aborted(cfg, st, items); var e := st.cache.sensors[u].externalId;
      && u in after.cache.pending && u in after.db.readings
      && (Cells.Flushed(after.db.readings[u], after.cache.pending[u]) == Visible(st, u) <==>
            StaysVisible(cfg, st.lastFlush, items, e, CellAt(st, u)))
  {
    var e, p, c := st.cache.sensors[u].externalId, st.cache.pending[u], CellAt(st, u);
    AbortedSyncLosesIff(cfg, st, items, u);
    if i :| 0 <= i < |items| && items[i].sensor.externalId == e {
      HeldListed(cfg, st.lastFlush, items, i, p);
    } else {
      HeldUnlisted(cfg, st.lastFlush, items, e, p);
    }
  }

  // ---------- two syncs that throw ----------

  /** The first sensor of the source is new, the second one clashes: the first stays cached only. */
  lemma {:induction false} AbortedSyncGoesStale(cfg: Config, meta: Metadata)
    requires cfg.autoCommit
    ensures var st := OneSensor(meta); var first := Item(Sensor(Uuid(2), "b", meta), map[], 0);
      && Agreement(st) && Runnable(cfg, st, Steps([first]))
      && Clashes(Run(cfg, st, Steps([first])), Sensor(Uuid(1), "c", meta))
      && !Agreement(Aborted(cfg, st, [first]))
  {
    var st, first := OneSensor(meta), Item(Sensor(Uuid(2), "b", meta), map[], 0);
    OneSensorAgrees(meta);
    assert "b"[0] != "a"[0] && "b"[0] != "c"[0];
    ClashingSecond(cfg, st, first, Sensor(Uuid(1), "c", meta));
    AbortedSyncAgreesIff(cfg, st, [first]);
    assert !Known(st.cache, [first][0].sensor);
  }

  lemma {:induction false} ClashingSecond(cfg: Config, st: State, first: Item, second: Sensor)
    requires Agreement(st) && Ready(cfg, st) && NoClash(st, [first]) && Clashes(st, second)
    requires first.sensor.externalId != second.externalId && first.sensor.uuid != second.uuid
    ensures Runnable(cfg, st, Steps([first])) && Clashes(Run(cfg, st, Steps([first])), second)
  {
    SyncSucceedsWithoutClash(cfg, st, [first]);
    ClashesStay(cfg, st, [first], second);
  }

  /** The first sensor of the source is known, the second one clashes: what was held back for the first
      is gone, and nothing has been stored. */
  lemma {:induction false} AbortedSyncLosesAReading(cfg: Config, meta: Metadata)
    requires cfg.autoCommit
    ensures var st := OneSensor(meta); var first := Item(Sensor(Uuid(2), "a", meta), map[], 0); var u := Uuid(1);
      && Agreement(st) && Runnable(cfg, st, Steps([first]))
      && Clashes(Run(cfg, st, Steps([first])), Sensor(Uuid(1), "c", meta))
      && Agreement(Aborted(cfg, st, [first])) && u in Aborted(cfg, st, [first]).cache.sensors
      && Visible(st, u) == map[1 := 1.0] && Visible(Aborted(cfg, st, [first]), u) != Visible(st, u)
  {
    var st, first, u := OneSensor(meta), Item(Sensor(Uuid(2), "a", meta), map[], 0), Uuid(1);
    OneSensorAgrees(meta);
    assert "a"[0] != "c"[0];
    ClashingSecond(cfg, st, first, Sensor(u, "c", meta));
    assert [first][0].sensor.externalId == "a";
    assert Agreement(Aborted(cfg, st, [first])) by {
      AbortedSyncAgreesIff(cfg, st, [first]);
    }
    assert !ShowsTheSame(CellAt(st, u), map[]) by {
      assert 1 in st.cache.pending[u].inserts;
    }
    AbortedSyncShowsTheSameIff(cfg, st, [first], u);
  }
}
