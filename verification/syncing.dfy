/** Where the loop of a sync stands. */
module Syncing {
  import opened Types
  import opened Databases
  import opened StoreModel
  import opened Synchronisation
  import AbortedSyncs

  function Uuids(records: seq<Sensor>, i: nat): set<Uuid>
    requires i <= |records|
  {
    set j | 0 <= j < i :: records[j].uuid
  }

  ghost predicate Fetched(theirs: State, records: seq<Sensor>, items: seq<Item>)
    requires Agreement(theirs)
  {
    |items| <= |records| && forall j {:trigger items[j]} :: 0 <= j < |items| ==>
      && items[j].sensor == records[j] && records[j].uuid in theirs.cache.sensors
      && items[j].readings == Visible(theirs, records[j].uuid)
  }

  /** What the first records of the source have made of the target; none of them clashed with it. */
  ghost predicate Arrived(cfg: Config, st0: State, st: State, records: seq<Sensor>, items: seq<Item>)
    requires |items| <= |records|
  {
    && Agreement(st0)
    && (forall j {:trigger records[j]} :: 0 <= j < |items| ==> !Clashes(st0, records[j]))
    && Runnable(cfg, st0, Steps(items)) && st == Run(cfg, st0, Steps(items))
  }

  /** The same records have been read, which flushed them at the source. */
  ghost predicate Gathered(theirs: State, source: State, records: seq<Sensor>, items: seq<Item>) {
    && Agreement(theirs) && Enumerates(records, theirs.db.sensors)
    && Fetched(theirs, records, items)
    && source == FlushSome(theirs, Uuids(records, |items|))
  }

  lemma SyncBegins(cfg: Config, st0: State, theirs: State, records: seq<Sensor>)
    requires Agreement(st0) && Agreement(theirs) && Enumerates(records, theirs.db.sensors)
    ensures Arrived(cfg, st0, st0, records, []) && Gathered(theirs, theirs, records, [])
  {
    FlushNone(theirs);
    assert Uuids(records, 0) == {};
  }

  lemma NextRecord(theirs: State, source: State, records: seq<Sensor>, items: seq<Item>)
    requires Gathered(theirs, source, records, items) && |items| < |records|
    ensures var u := records[|items|].uuid;
      && Agreement(source) && u in theirs.cache.sensors && u in source.cache.sensors
      && Visible(source, u) == Visible(theirs, u)
  {
    FlushSomeCells(theirs, Uuids(records, |items|));
    assert records[|items|].uuid !in Uuids(records, |items|);
  }

  lemma SourceAdvances(theirs: State, source: State, records: seq<Sensor>, items: seq<Item>, item: Item)
    requires Gathered(theirs, source, records, items) && |items| < |records|
    requires item.sensor == records[|items|]
    requires Agreement(source) && item.sensor.uuid in source.cache.sensors
    requires item.readings == Visible(source, item.sensor.uuid)
    ensures Gathered(theirs, FlushOne(source, item.sensor.uuid), records, items + [item])
  {
    NextRecord(theirs, source, records, items);
    OneMoreRead(theirs, source, records, |items|);
    FetchedOneMore(theirs, records, items, item);
    GatheredNow(theirs, FlushOne(source, item.sensor.uuid), records, items + [item], |items| + 1);
  }

  lemma GatheredNow(theirs: State, source: State, records: seq<Sensor>, items: seq<Item>, n: nat)
    requires Agreement(theirs) && Enumerates(records, theirs.db.sensors) && Fetched(theirs, records, items)
    requires n == |items| && source == FlushSome(theirs, Uuids(records, n))
    ensures Gathered(theirs, source, records, items)
  {
  }

  lemma OneMoreRead(theirs: State, source: State, records: seq<Sensor>, i: nat)
    requires Agreement(theirs) && Enumerates(records, theirs.db.sensors) && i < |records|
    requires source == FlushSome(theirs, Uuids(records, i))
    ensures Agreement(source) && FlushOne(source, records[i].uuid) == FlushSome(theirs, Uuids(records, i + 1))
  {
    var done, u := Uuids(records, i), records[i].uuid;
    assert u !in done;
    assert Uuids(records, i + 1) == done + {u};
    FlushOneMore(theirs, done, u);
  }

  lemma FetchedOneMore(theirs: State, records: seq<Sensor>, items: seq<Item>, item: Item)
    requires Agreement(theirs) && Fetched(theirs, records, items) && |items| < |records|
    requires item.sensor == records[|items|] && item.sensor.uuid in theirs.cache.sensors
    requires item.readings == Visible(theirs, item.sensor.uuid)
    ensures Fetched(theirs, records, items + [item])
  {
  }

  lemma RecordsDiffer(sensors: SensorTable, records: seq<Sensor>, i: nat, j: nat)
    requires UniqueExternalIds(sensors) && Enumerates(records, sensors) && i < j < |records|
    ensures records[i].externalId != records[j].externalId && records[i].uuid != records[j].uuid
  {
    var s, t := records[i], records[j];
    assert Owns(sensors, s.uuid, s.externalId) && Owns(sensors, t.uuid, t.externalId);
  }

  lemma FetchedAreDistinct(theirs: State, records: seq<Sensor>, items: seq<Item>)
    requires Agreement(theirs) && Enumerates(records, theirs.db.sensors) && Fetched(theirs, records, items)
    ensures DistinctItems(items)
  {
    forall i, j | 0 <= i < j < |items|
      ensures items[i].sensor.externalId != items[j].sensor.externalId && items[i].sensor.uuid != items[j].sensor.uuid
    {
      RecordsDiffer(theirs.db.sensors, records, i, j);
    }
  }

  /** Whether the next record clashes was decided before the sync began. */
  lemma NextClashes(cfg: Config, st0: State, st: State, theirs: State, source: State, records: seq<Sensor>,
                    items: seq<Item>)
    requires Gathered(theirs, source, records, items) && |items| < |records|
    requires Arrived(cfg, st0, st, records, items) && Ready(cfg, st0)
    ensures Agreement(st) && Ready(cfg, st)
    ensures Clashes(st, records[|items|]) <==> Clashes(st0, records[|items|])
  {
    var s := records[|items|];
    forall j | 0 <= j < |items| ensures s.externalId != items[j].sensor.externalId && s.uuid != items[j].sensor.uuid {
      RecordsDiffer(theirs.db.sensors, records, j, |items|);
    }
    ClashesStay(cfg, st0, items, s);
  }

  lemma TargetAdvances(cfg: Config, st0: State, st: State, records: seq<Sensor>, items: seq<Item>, item: Item,
                       r: (State, Outcome))
    requires |items| < |records| && item.sensor == records[|items|]
    requires Arrived(cfg, st0, st, records, items) && Ready(cfg, st)
    requires Clashes(st, item.sensor) <==> Clashes(st0, item.sensor)
    requires Agreement(st) && r == SyncOne(cfg, st, item.sensor, item.readings, item.now)
    ensures r.1 == if Clashes(st0, item.sensor) then Err(SensorConflict) else Ok
    ensures if r.1.Ok? then Arrived(cfg, st0, r.0, records, items + [item]) else r.0 == st
  {
    if !Clashes(st, item.sensor) {
      var more := items + [item];
      assert r.1.Ok? by {
        SyncOneCells(cfg, st, item.sensor, item.readings, item.now);
      }
      SyncAppend(cfg, st0, items, item);
      forall j {:trigger records[j]} | 0 <= j < |more| ensures !Clashes(st0, records[j]) {
        assert j == |items| ==> records[j] == item.sensor;
      }
    }
  }

  lemma SyncEnds(theirs: State, source: State, records: seq<Sensor>, items: seq<Item>)
    requires Gathered(theirs, source, records, items) && |items| == |records|
    ensures ItemsOf(items, theirs) && source == FlushAll(theirs)
  {
    assert seq(|items|, i requires 0 <= i < |items| => items[i].sensor) == records;
    AllRead(theirs.cache.sensors, records);
    FlushEach(theirs, Uuids(records, |records|));
  }

  lemma AllRead(sensors: SensorTable, records: seq<Sensor>)
    requires Enumerates(records, sensors) && KeyedByUuid(sensors)
    ensures Uuids(records, |records|) == sensors.Keys
  {
    forall u | u in sensors ensures u in Uuids(records, |records|) {
      var j :| 0 <= j < |records| && records[j] == sensors[u];
      assert records[j].uuid == u;
    }
  }

  /** Every sensor of the source has its place among the records. */
  lemma ClashingRecord(st: State, sensors: SensorTable, records: seq<Sensor>)
    requires Enumerates(records, sensors)
    ensures (forall u :: u in sensors ==> !Clashes(st, sensors[u])) <==>
      (forall j :: 0 <= j < |records| ==> !Clashes(st, records[j]))
  {
    if forall j :: 0 <= j < |records| ==> !Clashes(st, records[j]) {
      forall u | u in sensors ensures !Clashes(st, sensors[u]) {
        var j :| 0 <= j < |records| && records[j] == sensors[u];
      }
    }
    if forall u :: u in sensors ==> !Clashes(st, sensors[u]) {
      forall j | 0 <= j < |records| ensures !Clashes(st, records[j]) {
        assert records[j].uuid in sensors;
      }
    }
  }

  /** The end of the transaction around a sync: with automatic commits it is committed or rolled back. */
  function Ended(cfg: Config, st: State, r: Outcome): State {
    if !cfg.autoCommit then st
    else if r.Err? && st.snapshot.Some? then st.(db := st.snapshot.value, snapshot := None)
    else st.(snapshot := None)
  }

  /** The state that a sync leaves behind. */
  ghost function Finished(cfg: Config, st: State, items: seq<Item>, r: Outcome): State
    requires Agreement(st) && Runnable(cfg, st, Steps(items))
  {
    if r.Err? && cfg.autoCommit then Aborted(cfg, st, items) else Run(cfg, st, Steps(items))
  }

  /** The transaction around a sync makes no difference to what arrives. */
  lemma {:induction false} InsideAndOutside(cfg: Config, st: State, inside: Option<Database>, items: seq<Item>,
                                           r: Outcome)
    requires Agreement(st) && (cfg.autoCommit ==> st.snapshot.None?)
    requires inside == if cfg.autoCommit then Some(st.db) else st.snapshot
    requires Agreement(st.(snapshot := inside)) && Runnable(cfg, st.(snapshot := inside), Steps(items))
    ensures Runnable(cfg, st, Steps(items))
    ensures Ended(cfg, Run(cfg, st.(snapshot := inside), Steps(items)), r) == Finished(cfg, st, items, r)
  {
    if cfg.autoCommit {
      SyncInsideATransaction(cfg, st, inside, items);
      SyncInsideATransaction(cfg, st, None, items);
      assert st.(snapshot := None) == st;
    } else {
      assert st.(snapshot := inside) == st;
    }
  }

  /** The items have arrived one after the other, all of them between two times. */
  ghost predicate During(items: seq<Item>, t0: int, t1: int) {
    && t0 <= t1 && (forall i :: 0 <= i < |items| ==> t0 <= items[i].now <= t1)
    && (forall i, j :: 0 <= i < j < |items| ==> items[i].now <= items[j].now)
  }

  lemma DuringNext(items: seq<Item>, item: Item, t0: int, t1: int)
    requires During(items, t0, t1) && t1 <= item.now
    ensures During(items + [item], t0, item.now) && During(items, t0, item.now)
  {
  }

  /** Everything the loop does, given the sensors of the source in its order: it throws at the first one that
      clashes, and otherwise takes over all of them. */
  ghost predicate Looped(cfg: Config, st0: State, theirs: State, source: State, records: seq<Sensor>,
                         items: seq<Item>, r: Outcome)
    requires Agreement(st0) && Agreement(theirs)
  {
    && Fetched(theirs, records, items) && Runnable(cfg, st0, Steps(items))
    && (r.Ok? <==> forall j :: 0 <= j < |records| ==> !Clashes(st0, records[j]))
    && (r.Ok? ==> ItemsOf(items, theirs) && source == FlushAll(theirs))
    && (r.Err? ==>
          && r == Err(SensorConflict) && |items| < |records| && Clashes(st0, records[|items|])
          && source == FlushSome(theirs, Uuids(records, |items| + 1)))
  }

  /** Where the loop stands after these items. */
  ghost predicate Progress(cfg: Config, st0: State, st: State, theirs: State, source: State, records: seq<Sensor>,
                           items: seq<Item>, began: int, now: int)
    requires |items| <= |records|
  {
    && Arrived(cfg, st0, st, records, items) && Gathered(theirs, source, records, items)
    && During(items, began, now)
  }

  /** What the loop leaves behind. */
  ghost predicate Left(cfg: Config, st0: State, st: State, theirs: State, source: State, records: seq<Sensor>,
                       items: seq<Item>, r: Outcome, began: int, now: int)
    requires Agreement(st0) && Agreement(theirs)
  {
    && Looped(cfg, st0, theirs, source, records, items, r) && st == Run(cfg, st0, Steps(items))
    && During(items, began, now)
  }

  lemma LoopBegins(cfg: Config, st0: State, theirs: State, records: seq<Sensor>, began: int)
    requires Agreement(st0) && Agreement(theirs) && Enumerates(records, theirs.db.sensors)
    ensures Progress(cfg, st0, st0, theirs, theirs, records, [], began, began)
  {
    SyncBegins(cfg, st0, theirs, records);
  }

  lemma {:induction false} LoopEnds(cfg: Config, st0: State, st: State, theirs: State, source: State,
                                    records: seq<Sensor>, items: seq<Item>, began: int, now: int)
    requires |items| == |records| && Progress(cfg, st0, st, theirs, source, records, items, began, now)
    ensures Left(cfg, st0, st, theirs, source, records, items, Ok, began, now)
  {
    SyncEnds(theirs, source, records, items);
  }

  lemma LoopThrows(cfg: Config, st0: State, st: State, theirs: State, source: State, records: seq<Sensor>,
                   items: seq<Item>, began: int, now: int)
    requires |items| < |records| && Clashes(st0, records[|items|])
    requires Arrived(cfg, st0, st, records, items) && Agreement(theirs) && Fetched(theirs, records, items)
    requires source == FlushSome(theirs, Uuids(records, |items| + 1)) && During(items, began, now)
    ensures Left(cfg, st0, st, theirs, source, records, items, Err(SensorConflict), began, now)
  {
  }

  /** One round of the loop: the next record of the source has been read and offered to the target. */
  lemma NextRound(cfg: Config, st0: State, st: State, theirs: State, source: State, records: seq<Sensor>,
                  items: seq<Item>, item: Item, r: (State, Outcome), began: int, now: int)
    requires |items| < |records| && Progress(cfg, st0, st, theirs, source, records, items, began, now)
    requires Agreement(source) && item.sensor == records[|items|] && item.sensor.uuid in source.cache.sensors
    requires item.readings == Visible(source, item.sensor.uuid) && now <= item.now
    requires Agreement(st) && Ready(cfg, st0) && r == SyncOne(cfg, st, item.sensor, item.readings, item.now)
    ensures var after := FlushOne(source, item.sensor.uuid);
      if Clashes(st0, item.sensor)
      then
        r == (st, Err(SensorConflict)) && Left(cfg, st0, st, theirs, after, records, items, r.1, began, item.now)
      else r.1.Ok? && Progress(cfg, st0, r.0, theirs, after, records, items + [item], began, item.now)
  {
    NextClashes(cfg, st0, st, theirs, source, records, items);
    TargetAdvances(cfg, st0, st, records, items, item, r);
    DuringNext(items, item, began, now);
    if Clashes(st0, item.sensor) {
      assert FlushOne(source, item.sensor.uuid) == FlushSome(theirs, Uuids(records, |items| + 1)) by {
        OneMoreRead(theirs, source, records, |items|);
      }
      LoopThrows(cfg, st0, st, theirs, FlushOne(source, item.sensor.uuid), records, items, began, item.now);
    } else {
      assert Gathered(theirs, FlushOne(source, item.sensor.uuid), records, items + [item]) by {
        SourceAdvances(theirs, source, records, items, item);
      }
    }
  }

  /** What has arrived within the transaction of the sync is what has arrived. */
  lemma {:induction false} LoopedInside(cfg: Config, st: State, inside: Option<Database>, theirs: State,
                                        source: State, records: seq<Sensor>, items: seq<Item>, r: Outcome)
    requires Agreement(st) && Agreement(theirs) && Ready(cfg, st) && (cfg.autoCommit ==> st.snapshot.None?)
    requires inside == if cfg.autoCommit then Some(st.db) else st.snapshot
    requires Agreement(st.(snapshot := inside)) && Enumerates(records, theirs.db.sensors)
    requires Looped(cfg, st.(snapshot := inside), theirs, source, records, items, r)
    ensures var next := Ended(cfg, Run(cfg, st.(snapshot := inside), Steps(items)), r);
      && Outcomes(cfg, st, next, theirs, source, records, items, r)
      && (Agreement(next) <==> r.Ok? || !cfg.autoCommit || AbortedSyncs.AllKnown(st.cache, items))
  {
    assert forall s :: Clashes(st.(snapshot := inside), s) == Clashes(st, s);
    InsideAndOutside(cfg, st, inside, items, r);
    ClashingRecord(st, theirs.db.sensors, records);
    FetchedAreDistinct(theirs, records, items);
    AbortedSyncs.AbortedSyncAgreesIff(cfg, st, items);
  }

  /** The same for the whole sync, which ends its transaction. */
  ghost predicate Outcomes(cfg: Config, st: State, next: State, theirs: State, source: State, records: seq<Sensor>,
                           items: seq<Item>, r: Outcome)
    requires Agreement(st) && Agreement(theirs)
  {
    && Enumerates(records, theirs.db.sensors) && Fetched(theirs, records, items)
    && Runnable(cfg, st, Steps(items)) && next == Finished(cfg, st, items, r)
    && (r.Ok? <==> forall u :: u in theirs.cache.sensors ==> !Clashes(st, theirs.cache.sensors[u]))
    && (r.Ok? ==> ItemsOf(items, theirs) && source == FlushAll(theirs))
    && (r.Err? ==>
          && r == Err(SensorConflict) && |items| < |records| && Clashes(st, records[|items|])
          && source == FlushSome(theirs, Uuids(records, |items| + 1)))
  }
}
