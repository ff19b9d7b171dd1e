/**
 * The store as a state machine over values: its three buffers, the database under them and the
 * transaction that may be open. Class `Store` is proved to take exactly these steps.
 */
module StoreModel {
  import opened Types
  import opened Databases
  import opened Caches
  import Batches
  import Cells

  datatype Config = Config(
    autoCommit: bool, autoFlush: bool, flushTimeout: int, minBulkSize: nat, maxBulkSize: nat)

  /** `snapshot` is the database at the start of the open transaction. */
  datatype State = State(cache: Cache, db: Database, snapshot: Option<Database>, lastFlush: int)

  datatype Step =
    | AddSensor(sensor: Sensor)
    | RemoveSensor(sensor: Sensor)
    | UpdateSensor(sensor: Sensor)
    | Write(uuid: Uuid, isUpdate: bool, batch: Readings, now: int)
    | Flush                                               // ignoring errors
    | StrictFlush(done: set<Uuid>, bad: Uuid)             // not ignoring them: see `StopsAt`
    | Read(uuid: Uuid)
    | SyncItem(sensor: Sensor, batch: Readings, now: int)   // one sensor of the source of a sync
    | SyncUndone(db: Database)                            // the end of a sync that threw: `db` is as before it
    | Start
    | Commit(done: set<Uuid>, bad: Uuid)                  // strict where the timer is off
    | Rollback
    | Rotate

  // ---------- agreement of cache and database ----------

  /** The sensor cache is the sensors table, each cached sensor has its readings table and its
      buffers, and the external ids are the exact inverse index. */
  ghost predicate Agreement(st: State) {
    && st.db.Consistent()
    && st.cache.sensors == st.db.sensors
    && Exact(st.cache)
    && (st.snapshot.Some? ==> st.snapshot.value.Consistent())
  }

  /** What the sensor shows to a reader. */
  ghost function CellAt(st: State, u: Uuid): Cells.Cell
    requires Agreement(st) && u in st.cache.sensors
  {
    Cells.Cell(st.db.readings[u], st.cache.pending[u])
  }

  ghost function Visible(st: State, u: Uuid): Readings
    requires Agreement(st) && u in st.cache.sensors
  {
    CellAt(st, u).Visible()
  }

  /** Statements may run: commits are automatic, or the client has started a transaction. */
  predicate Ready(cfg: Config, st: State) {
    cfg.autoCommit || st.snapshot.Some?
  }

  predicate Due(cfg: Config, st: State, now: int) {
    cfg.autoFlush && now - st.lastFlush >= cfg.flushTimeout
  }

  // ---------- the parts of a step ----------

  ghost function FlushOne(st: State, u: Uuid): State
    requires u in st.cache.pending && u in st.db.readings
  {
    st.(db := st.db.WithReadings(u, Cells.Flushed(st.db.readings[u], st.cache.pending[u])),
        cache := st.cache.(pending := st.cache.pending[u := Cells.NOTHING]))
  }

  ghost function FlushAll(st: State): State
    requires Agreement(st)
  {
    st.(db := st.db.(readings := map u | u in st.db.readings :: Visible(st, u)),
        cache := st.cache.(pending := map u | u in st.cache.pending :: Cells.NOTHING))
  }

  /** The state after some of the sensors have been flushed. */
  ghost function FlushSome(st: State, done: set<Uuid>): State
    requires Agreement(st)
  {
    st.(db := st.db.(readings :=
          map u | u in st.db.readings :: if u in done then Visible(st, u) else st.db.readings[u]),
        cache := st.cache.(pending :=
          map u | u in st.cache.pending :: if u in done then Cells.NOTHING else st.cache.pending[u]))
  }

  /** An insertion held back for `u` meets a stored reading. */
  ghost predicate Conflicts(st: State, u: Uuid)
    requires u in st.cache.pending && u in st.db.readings
  {
    !Batches.Disjoint(st.cache.pending[u].inserts, st.db.readings[u])
  }

  /** A flush of `u` that does not ignore errors has met its first duplicate: what came before it is
      in the table, and everything is still held back. */
  ghost function FlushFailed(st: State, u: Uuid): State
    requires u in st.cache.pending && u in st.db.readings
  {
    st.(db := st.db.WithReadings(u, Batches.Inserted(st.db.readings[u], st.cache.pending[u].inserts, false)))
  }

  /** A flush that does not ignore errors can stop at `bad`, having flushed `done` without an error. */
  ghost predicate StopsAt(st: State, done: set<Uuid>, bad: Uuid)
    requires Agreement(st)
  {
    && done <= st.cache.sensors.Keys && bad in st.cache.sensors && bad !in done
    && Conflicts(st, bad) && forall u :: u in done ==> !Conflicts(st, u)
  }

  /** ... and then `bad` and the sensors that were not reached still have everything held back. */
  ghost function Stopped(st: State, done: set<Uuid>, bad: Uuid): State
    requires Agreement(st) && StopsAt(st, done, bad)
  {
    FlushSomeCells(st, done);
    FlushFailed(FlushSome(st, done), bad)
  }

  ghost predicate Unconflicted(st: State)
    requires Agreement(st)
  {
    forall u :: u in st.cache.sensors ==> !Conflicts(st, u)
  }

  /** What a flush is told about where it stops is either of no importance or possible. */
  ghost predicate Stoppable(st: State, done: set<Uuid>, bad: Uuid)
    requires Agreement(st)
  {
    Unconflicted(st) || StopsAt(st, done, bad)
  }

  ghost function FlushStrictly(st: State, done: set<Uuid>, bad: Uuid): (State, Outcome)
    requires Agreement(st)
  {
    if Unconflicted(st) then (FlushAll(st), Ok)
    else if StopsAt(st, done, bad) then (Stopped(st, done, bad), Err(DuplicateReading))
    else (st, Err(DuplicateReading))
  }

  ghost function FlushedAs(st: State, ignoreErrors: bool, done: set<Uuid>, bad: Uuid): (State, Outcome)
    requires Agreement(st)
  {
    if ignoreErrors then (FlushAll(st), Ok) else FlushStrictly(st, done, bad)
  }

  /** With automatic commits what threw is rolled back, though not in the buffers. */
  ghost function Undone(cfg: Config, st: State, r: (State, Outcome)): (State, Outcome) {
    if cfg.autoCommit && r.1.Err? then (r.0.(db := st.db), r.1) else r
  }

  ghost function AutoFlush(cfg: Config, st: State, now: int): (State, Outcome)
    requires Agreement(st)
  {
    if !Due(cfg, st, now) then (st, Ok)
    else if !Ready(cfg, st) then (st, Err(NoTransaction))
    else (FlushAll(st).(lastFlush := now), Ok)
  }

  function Buffer(st: State, u: Uuid, isUpdate: bool, batch: Readings): State
    requires u in st.cache.pending
  {
    st.(cache := st.cache.(pending := st.cache.pending[u := Cells.Buffered(st.cache.pending[u], isUpdate, batch)]))
  }

  ghost function WriteReadings(cfg: Config, st: State, u: Uuid, isUpdate: bool, batch: Readings, now: int)
    : (State, Outcome)
    requires Agreement(st)
  {
    if batch == map[] then (st, Ok)
    else if u !in st.cache.sensors then (st, Err(UnknownSensor))
    else AutoFlush(cfg, Buffer(st, u, isUpdate, batch), now)
  }

  /** A statement on the sensors table inside its own transaction: undone if it throws while commits
      are automatic. */
  ghost function Settled(cfg: Config, st: State, record: (Database, Outcome), cache: Cache): (State, Outcome) {
    if !Ready(cfg, st) then (st, Err(NoTransaction))
    else if record.1.Ok? then (st.(db := record.0, cache := cache), Ok)
    else (if cfg.autoCommit then st else st.(db := record.0), record.1)
  }

  /** The sensor a synchronised sensor becomes here: the external id decides which one it is. */
  function LocalSensor(c: Cache, s: Sensor): Sensor {
    if s.externalId in c.externalIds then s.(uuid := c.externalIds[s.externalId]) else s
  }

  /** The source's uuid is taken here by a sensor with another external id. */
  predicate Clashes(st: State, s: Sensor) {
    s.externalId !in st.cache.externalIds && s.uuid in st.cache.sensors
  }

  function SyncSensor(st: State, s: Sensor): State {
    var local := LocalSensor(st.cache, s);
    var readings := if local.uuid in st.db.readings then st.db.readings else st.db.readings[local.uuid := map[]];
    st.(db := Database(st.db.sensors[local.uuid := local], readings), cache := SetBuffers(st.cache, local))
  }

  ghost function SyncOne(cfg: Config, st: State, s: Sensor, batch: Readings, now: int): (State, Outcome)
    requires Agreement(st)
  {
    if !Ready(cfg, st) then (st, Err(NoTransaction))
    else if Clashes(st, s) then (st, Err(SensorConflict))
    else
      SyncSensorKeepsAgreement(st, s);
      WriteReadings(cfg, SyncSensor(st, s), LocalSensor(st.cache, s).uuid, true, batch, now)
  }

  // ---------- steps and runs ----------

  /** Whether a step keeps cache and database in agreement. The sensor to remove or to update must be
      registered, to be updated, and under this external id. A sync that is undone must have known all
      sensors that it came to. */
  ghost predicate Keeps(cfg: Config, st: State, step: Step) {
    match step
    case RemoveSensor(s) => !Ready(cfg, st) || Stable(st.cache, s)
    case UpdateSensor(s) =>
      || !Ready(cfg, st)
      || (s.uuid in st.db.sensors && (Stable(st.cache, s) || UsedByAnother(st.db.sensors, s.uuid, s.externalId)))
    case SyncUndone(db) => cfg.autoCommit ==> db.Consistent() && db.sensors == st.cache.sensors
    case _ => true
  }

  /** The steps of a run: they keep the agreement, a flush stops only where it can, and a sensor to be
      synchronised is one of a sync that goes through. */
  ghost predicate Enabled(cfg: Config, st: State, step: Step)
    requires Agreement(st)
  {
    && Keeps(cfg, st, step)
    && match step
       case SyncItem(s, _, _) => !Clashes(st, s)
       case StrictFlush(done, bad) => Ready(cfg, st) ==> Stoppable(st, done, bad)
       case Commit(done, bad) => cfg.autoCommit || cfg.autoFlush || Stoppable(st, done, bad)
       case _ => true
  }

  ghost function Apply(cfg: Config, st: State, step: Step): (State, Outcome)
    requires Agreement(st)
  {
    match step
    case AddSensor(s) => Settled(cfg, st, st.db.AddSensorRecord(s), SetBuffers(st.cache, s))
    case RemoveSensor(s) => Settled(cfg, st, st.db.RemoveSensorRecord(s), ClearBuffers(st.cache, s))
    case UpdateSensor(s) => Settled(cfg, st, st.db.UpdateSensorRecord(s), SetBuffers(st.cache, s))
    case Write(u, isUpdate, batch, now) => WriteReadings(cfg, st, u, isUpdate, batch, now)
    case Flush => if Ready(cfg, st) then (FlushAll(st), Ok) else (st, Err(NoTransaction))
    case StrictFlush(done, bad) =>
      if Ready(cfg, st) then Undone(cfg, st, FlushStrictly(st, done, bad)) else (st, Err(NoTransaction))
    case Read(u) => if u in st.cache.sensors then (FlushOne(st, u), Ok) else (st, Err(UnknownSensor))
    case SyncItem(s, batch, now) => SyncOne(cfg, st, s, batch, now)
    case SyncUndone(db) => (if cfg.autoCommit then st.(db := db) else st, Err(SensorConflict))
    case Start =>
      if cfg.autoCommit then (st, Err(AutoCommitOn))
      else (st.(snapshot := if st.snapshot.None? then Some(st.db) else st.snapshot), Ok)
    case Commit(done, bad) =>
      if cfg.autoCommit then (st, Err(AutoCommitOn)) else Concluded(FlushedAs(st, cfg.autoFlush, done, bad))
    case Rollback =>
      if cfg.autoCommit then (st, Err(AutoCommitOn))
      else (RolledBack(st), Ok)
    case Rotate => if st.snapshot.Some? then (st, Err(NotOpen)) else (Rotated(st), Ok)
  }

  /** When the flush throws, the transaction stays open. */
  function Concluded(r: (State, Outcome)): (State, Outcome) {
    if r.1.Ok? then (r.0.(snapshot := None), Ok) else r
  }

  ghost function RolledBack(st: State): State
    requires Agreement(st)
  {
    var db := if st.snapshot.Some? then st.snapshot.value else st.db;
    State(CacheOf(db.sensors), db, None, st.lastFlush)
  }

  ghost predicate Runnable(cfg: Config, st: State, steps: seq<Step>)
    requires Agreement(st)
    decreases |steps|
  {
    steps == [] ||
    (Enabled(cfg, st, steps[0]) &&
     (ApplyKeepsAgreement(cfg, st, steps[0]); Runnable(cfg, Apply(cfg, st, steps[0]).0, steps[1..])))
  }

  /** Cache and database agree in every state a run reaches. */
  ghost function Run(cfg: Config, st: State, steps: seq<Step>): (r: State)
    requires Agreement(st) && Runnable(cfg, st, steps)
    ensures Agreement(r)
    decreases |steps|
  {
    if steps == [] then st
    else ApplyKeepsAgreement(cfg, st, steps[0]); Run(cfg, Apply(cfg, st, steps[0]).0, steps[1..])
  }

  // ---------- every step keeps the agreement ----------

  /** A store just opened: nothing held back, no transaction. */
  ghost function Opened(db: Database): State
    requires db.Consistent()
  {
    State(CacheOf(db.sensors), db, None, 0)
  }

  lemma OpeningAgrees(db: Database)
    requires db.Consistent()
    ensures Agreement(Opened(db))
  {
    CacheOfIsExact(db.sensors);
  }

  /** The agreement is about which sensors there are, not about their readings. */
  lemma ReadingsDoNotMatter(st: State, next: State)
    requires Agreement(st)
    requires next.db.sensors == st.db.sensors && next.db.readings.Keys == st.db.readings.Keys
    requires next.cache.sensors == st.cache.sensors && next.cache.externalIds == st.cache.externalIds
    requires next.cache.pending.Keys == st.cache.pending.Keys && next.snapshot == st.snapshot
    ensures Agreement(next)
  {
  }

  lemma FlushKeepsAgreement(st: State)
    requires Agreement(st)
    ensures Agreement(FlushAll(st))
  {
    ReadingsDoNotMatter(st, FlushAll(st));
  }

  /** The insertions that went in without an error, as `flush` leaves them before it looks at the updates. */
  ghost function InsertsFlushed(st: State, u: Uuid): State
    requires u in st.cache.pending && u in st.db.readings
  {
    var p := st.cache.pending[u];
    st.(db := st.db.WithReadings(u, p.inserts + st.db.readings[u]),
        cache := st.cache.(pending := st.cache.pending[u := p.(inserts := map[])]))
  }

  /** Insertions first, then updates: together that is one flush of the sensor. */
  lemma FlushInTwoParts(st: State, u: Uuid)
    requires u in st.cache.pending && u in st.db.readings
    ensures var half := InsertsFlushed(st, u); var p := st.cache.pending[u];
      && FlushOne(st, u) == half.(db := half.db.WithReadings(u, half.db.readings[u] + p.updates),
                                  cache := half.cache.(pending := half.cache.pending[u := Cells.NOTHING]))
      && (p.updates == map[] ==> FlushOne(st, u) == half)
  {
    var half, p := InsertsFlushed(st, u), st.cache.pending[u];
    LastWriteStays(st.db, u, half.db.readings[u], half.db.readings[u] + p.updates);
    assert half.cache.pending[u := Cells.NOTHING] == st.cache.pending[u := Cells.NOTHING];
    if p.updates == map[] {
      assert p.(inserts := map[]) == Cells.NOTHING;
      assert half.db.readings[u] + p.updates == half.db.readings[u];
    }
  }

  lemma FlushSomeCells(st: State, done: set<Uuid>)
    requires Agreement(st)
    ensures Agreement(FlushSome(st, done))
    ensures forall u :: u in st.cache.sensors && u !in done ==> CellAt(FlushSome(st, done), u) == CellAt(st, u)
  {
    ReadingsDoNotMatter(st, FlushSome(st, done));
  }

  /** Whichever sensors have been flushed, readers see the same, and nothing is taken from the others. */
  lemma FlushSomeShowsTheSame(st: State, done: set<Uuid>, u: Uuid)
    requires Agreement(st) && u in st.cache.sensors
    ensures var r := FlushSome(st, done);
      && Agreement(r) && r.cache.sensors == st.cache.sensors && r.cache.externalIds == st.cache.externalIds
      && Visible(r, u) == Visible(st, u)
      && (u !in done ==> CellAt(r, u) == CellAt(st, u))
  {
    FlushSomeCells(st, done);
    Cells.NothingPendingShowsTheStored(Visible(st, u));
  }

  /** Flushing the sensors one after the other, in any order, is flushing them all. */
  lemma FlushOneMore(st: State, done: set<Uuid>, u: Uuid)
    requires Agreement(st) && u in st.cache.sensors && u !in done
    ensures Agreement(FlushSome(st, done))
    ensures FlushOne(FlushSome(st, done), u) == FlushSome(st, done + {u})
  {
    FlushSomeCells(st, done);
    var some, more := FlushSome(st, done), FlushSome(st, done + {u});
    assert Visible(some, u) == Visible(st, u);
    assert more.db.readings == some.db.readings[u := Visible(st, u)];
    assert more.cache.pending == some.cache.pending[u := Cells.NOTHING];
  }

  lemma FlushNone(st: State)
    requires Agreement(st)
    ensures FlushSome(st, {}) == st
  {
    var none := FlushSome(st, {});
    assert none.db.readings == st.db.readings && none.cache.pending == st.cache.pending;
  }

  lemma FlushEach(st: State, done: set<Uuid>)
    requires Agreement(st) && done == st.cache.sensors.Keys
    ensures FlushSome(st, done) == FlushAll(st)
  {
    var all := FlushSome(st, done);
    assert all.db.readings == FlushAll(st).db.readings && all.cache.pending == FlushAll(st).cache.pending;
  }

  /** The loop of a flush has come to its end. */
  lemma FlushedEach(st: State, ignoreErrors: bool, done: set<Uuid>, bad: Uuid)
    requires Agreement(st) && done == st.cache.sensors.Keys
    requires ignoreErrors || forall u :: u in done ==> !Conflicts(st, u)
    ensures FlushedAs(st, ignoreErrors, done, bad) == (FlushSome(st, done), Ok)
    ensures ignoreErrors || Stoppable(st, done, bad)
  {
    FlushEach(st, done);
  }

  /** ... or has been left early. */
  lemma FlushedUpTo(st: State, done: set<Uuid>, bad: Uuid)
    requires Agreement(st) && StopsAt(st, done, bad)
    ensures Agreement(FlushSome(st, done)) && bad in FlushSome(st, done).cache.sensors
    ensures FlushedAs(st, false, done, bad) == (FlushFailed(FlushSome(st, done), bad), Err(DuplicateReading))
    ensures Stoppable(st, done, bad)
  {
    FlushSomeCells(st, done);
  }

  lemma WriteKeepsAgreement(cfg: Config, st: State, u: Uuid, isUpdate: bool, batch: Readings, now: int)
    requires Agreement(st)
    ensures Agreement(WriteReadings(cfg, st, u, isUpdate, batch, now).0)
  {
    if u in st.cache.sensors {
      var b := Buffer(st, u, isUpdate, batch);
      ReadingsDoNotMatter(st, b);
      FlushKeepsAgreement(b);
      ReadingsDoNotMatter(FlushAll(b), FlushAll(b).(lastFlush := now));
    }
  }

  /** The index answers what the unique index of the sensors table would. */
  lemma IndexFindsTheOwner(st: State, e: ExternalId)
    requires Agreement(st)
    ensures e in st.cache.externalIds <==> HasExternalId(st.db.sensors, e)
    ensures forall u :: Owns(st.db.sensors, u, e) <==> LeadsTo(st.cache.externalIds, e, u)
  {
    if e in st.cache.externalIds {
      assert LeadsTo(st.cache.externalIds, e, st.cache.externalIds[e]);
    }
    if u :| Owns(st.db.sensors, u, e) {
      assert LeadsTo(st.cache.externalIds, e, u);
    }
  }

  lemma SyncSensorKeepsAgreement(st: State, s: Sensor)
    requires Agreement(st) && !Clashes(st, s)
    ensures Agreement(SyncSensor(st, s))
    ensures LocalSensor(st.cache, s).uuid in SyncSensor(st, s).cache.sensors
  {
    var local := LocalSensor(st.cache, s);
    IndexFindsTheOwner(st, s.externalId);
    assert s.externalId in st.cache.externalIds ==> LeadsTo(st.cache.externalIds, s.externalId, local.uuid);
    SetBuffersKeepsExact(st.cache, local);
    SetBuffersFrame(st.cache, local);
    OneMoreSensor(st.db.sensors, local);
  }

  lemma AddKeepsAgreement(cfg: Config, st: State, s: Sensor)
    requires Agreement(st)
    ensures Agreement(Apply(cfg, st, AddSensor(s)).0)
  {
    RecordsKeepConsistency(st.db, s);
    if st.db.AddSensorRecord(s).1.Ok? {
      IndexFindsTheOwner(st, s.externalId);
      SetBuffersKeepsExact(st.cache, s);
      SetBuffersFrame(st.cache, s);
    }
  }

  lemma RemoveKeepsAgreement(cfg: Config, st: State, s: Sensor)
    requires Agreement(st) && Stable(st.cache, s)
    ensures Agreement(Apply(cfg, st, RemoveSensor(s)).0)
  {
    RecordsKeepConsistency(st.db, s);
    if s.uuid in st.cache.sensors {
      ClearBuffersKeepsExact(st.cache, s);
    }
  }

  /** Removing a sensor under another external id than its own leaves an index entry behind. */
  lemma RemoveAgreesIff(cfg: Config, st: State, s: Sensor)
    requires Agreement(st)
    ensures Agreement(Apply(cfg, st, RemoveSensor(s)).0) <==> Keeps(cfg, st, RemoveSensor(s))
  {
    if Stable(st.cache, s) {
      RemoveKeepsAgreement(cfg, st, s);
    } else if Ready(cfg, st) {
      var next, e := Apply(cfg, st, RemoveSensor(s)).0, st.cache.sensors[s.uuid].externalId;
      assert Owns(st.cache.sensors, s.uuid, e) && LeadsTo(st.cache.externalIds, e, s.uuid);
      assert LeadsTo(next.cache.externalIds, e, s.uuid) && !Owns(next.cache.sensors, s.uuid, e);
    }
  }

  lemma UpdateKeepsAgreement(cfg: Config, st: State, s: Sensor)
    requires Agreement(st) && s.uuid in st.cache.sensors && Stable(st.cache, s)
    ensures Agreement(Apply(cfg, st, UpdateSensor(s)).0)
  {
    RecordsKeepConsistency(st.db, s);
    SetBuffersKeepsExact(st.cache, s);
    SetBuffersFrame(st.cache, s);
  }

  /** Updating caches what the table does not have, or leaves an index entry behind, unless the sensor is
      registered under this external id or the update is refused. */
  lemma UpdateAgreesIff(cfg: Config, st: State, s: Sensor)
    requires Agreement(st)
    ensures Agreement(Apply(cfg, st, UpdateSensor(s)).0) <==> Keeps(cfg, st, UpdateSensor(s))
  {
    if s.uuid in st.cache.sensors && Ready(cfg, st) {
      if Stable(st.cache, s) {
        UpdateKeepsAgreement(cfg, st, s);
      } else {
        UnstableIdGoesStale(st.cache, s);
      }
    }
  }

  /** An unknown sensor is accepted, cached and not stored. */
  lemma UnknownSensorIsCached(cfg: Config, s: Sensor)
    requires cfg.autoCommit
    ensures Agreement(Opened(EMPTY_DATABASE))
    ensures var r := Apply(cfg, Opened(EMPTY_DATABASE), UpdateSensor(s));
      r.1.Ok? && s.uuid in r.0.cache.sensors && r.0.db == EMPTY_DATABASE && !Agreement(r.0)
  {
    OpeningAgrees(EMPTY_DATABASE);
    UpdateAgreesIff(cfg, Opened(EMPTY_DATABASE), s);
  }

  /** What an update does to a registered sensor, under its external id or a new one that no other sensor
      has: its row is replaced, and no readings table changes. Under a new one nothing is lost: what was
      held back still is, and a store opened on the file finds the sensor. */
  lemma UpdateEffect(cfg: Config, st: State, s: Sensor)
    requires Agreement(st) && Ready(cfg, st) && s.uuid in st.cache.sensors
    requires !UsedByAnother(st.cache.sensors, s.uuid, s.externalId)
    ensures var r := Apply(cfg, st, UpdateSensor(s));
      && r.1.Ok? && r.0.snapshot == st.snapshot && r.0.lastFlush == st.lastFlush
      && r.0.db.sensors == st.db.sensors[s.uuid := s] && r.0.db.readings == st.db.readings
      && r.0.cache.sensors == r.0.db.sensors && LeadsTo(r.0.cache.externalIds, s.externalId, s.uuid)
      && (!Stable(st.cache, s) ==> r.0.cache.pending == st.cache.pending)
      && r.0.db.Consistent() && Agreement(Opened(r.0.db))
      && LeadsTo(Opened(r.0.db).cache.externalIds, s.externalId, s.uuid)
      && (!Stable(st.cache, s) ==> st.cache.sensors[s.uuid].externalId !in Opened(r.0.db).cache.externalIds)
  {
    var db, e := Apply(cfg, st, UpdateSensor(s)).0.db, st.cache.sensors[s.uuid].externalId;
    UpdatedCache(st, s);
    RecordsKeepConsistency(st.db, s);
    OpeningAgrees(db);
    assert Owns(db.sensors, s.uuid, s.externalId);
    forall u ensures e != s.externalId ==> !Owns(db.sensors, u, e) {
      assert Owns(st.db.sensors, s.uuid, e) && (u != s.uuid && Owns(db.sensors, u, e) ==> Owns(st.db.sensors, u, e));
    }
  }

  /** ... and to one that is unknown: there is no row to change, and yet it is cached. */
  lemma UnknownUpdateEffect(cfg: Config, st: State, s: Sensor)
    requires Agreement(st) && Ready(cfg, st) && s.uuid !in st.cache.sensors
    ensures var r := Apply(cfg, st, UpdateSensor(s));
      && r.1.Ok? && r.0.db == st.db && r.0.snapshot == st.snapshot && r.0.lastFlush == st.lastFlush
      && s.uuid in r.0.cache.sensors && r.0.cache.sensors[s.uuid] == s
      && LeadsTo(r.0.cache.externalIds, s.externalId, s.uuid)
  {
  }

  lemma UpdatedCache(st: State, s: Sensor)
    requires Agreement(st) && s.uuid in st.cache.sensors && !UsedByAnother(st.cache.sensors, s.uuid, s.externalId)
    ensures SetBuffers(st.cache, s).sensors == st.cache.sensors[s.uuid := s]
    ensures !Stable(st.cache, s) ==> SetBuffers(st.cache, s).pending == st.cache.pending
  {
    if s.externalId in st.cache.externalIds {
      assert LeadsTo(st.cache.externalIds, s.externalId, st.cache.externalIds[s.externalId]);
    }
    assert Previous(st.cache, s) <= {s.uuid};
  }

  /** What a removal does, whatever external id it is asked for. */
  lemma RemoveEffect(cfg: Config, st: State, s: Sensor)
    requires Agreement(st) && Ready(cfg, st)
    ensures var r := Apply(cfg, st, RemoveSensor(s));
      if s.uuid in st.cache.sensors
      then
        && r.1.Ok? && r.0.snapshot == st.snapshot && r.0.lastFlush == st.lastFlush
        && r.0.db.sensors == st.db.sensors - {s.uuid} && r.0.db.readings == st.db.readings - {s.uuid}
        && r.0.cache.sensors == r.0.db.sensors && r.0.cache.pending == st.cache.pending - {s.uuid}
        && r.0.cache.externalIds == st.cache.externalIds - {s.externalId}
      else r.1 == Err(MissingTable) && r.0 == st
  {
    if s.uuid !in st.cache.sensors {
      assert st.db.sensors - {s.uuid} == st.db.sensors;
    }
  }

  /** A store with one sensor, which holds back an insertion at time 1. */
  function OneSensor(meta: Metadata): State {
    var sensors: SensorTable := map[Uuid(1) := Sensor(Uuid(1), "a", meta)];
    State(Cache(sensors, map["a" := Uuid(1)], map[Uuid(1) := Cells.Pending(map[1 := 1.0], map[])]),
          Database(sensors, map[Uuid(1) := map[]]), None, 0)
  }

  lemma OneSensorAgrees(meta: Metadata)
    ensures Agreement(OneSensor(meta)) && Clashes(OneSensor(meta), Sensor(Uuid(1), "c", meta))
    ensures Visible(OneSensor(meta), Uuid(1)) == map[1 := 1.0]
  {
    IndexedIdsAreUnique(OneSensor(meta).cache);
    assert "a"[0] != "c"[0];
  }

  /** Removed under another external id, the sensor leaves its index entry behind. */
  lemma RemovalGoesStale(cfg: Config, meta: Metadata)
    requires cfg.autoCommit
    ensures var st := OneSensor(meta); var r := Apply(cfg, st, RemoveSensor(Sensor(Uuid(1), "c", meta)));
      && Agreement(st) && r.1.Ok? && r.0.db == EMPTY_DATABASE && LeadsTo(r.0.cache.externalIds, "a", Uuid(1))
      && !Agreement(r.0)
  {
    var st, s := OneSensor(meta), Sensor(Uuid(1), "c", meta);
    OneSensorAgrees(meta);
    RemoveAgreesIff(cfg, st, s);
    assert "a"[0] != "c"[0];
    assert !Owns(st.cache.sensors, Uuid(1), "c");
  }

  /** `next` is `st` with `s` registered under the external id it has, or newly. */
  predicate Registers(st: State, next: State, s: Sensor) {
    && Stable(st.cache, s) && (s.uuid in st.cache.sensors || s.externalId !in st.cache.externalIds)
    && next.cache == SetBuffers(st.cache, s) && next.db.sensors == st.db.sensors[s.uuid := s]
    && next.db.readings == (if s.uuid in st.db.readings then st.db.readings else st.db.readings[s.uuid := map[]])
    && next.snapshot == st.snapshot && next.lastFlush == st.lastFlush
  }

  lemma SyncRegisters(st: State, s: Sensor)
    requires Agreement(st) && !Clashes(st, s)
    ensures Registers(st, SyncSensor(st, s), LocalSensor(st.cache, s))
  {
    if s.externalId in st.cache.externalIds {
      assert LeadsTo(st.cache.externalIds, s.externalId, st.cache.externalIds[s.externalId]);
    }
  }

  /** The record of a known external id can be updated; where nothing differs there is nothing to do. */
  lemma KnownRecordUpdates(st: State, s: Sensor)
    requires Agreement(st) && s.externalId in st.cache.externalIds
    ensures var local := LocalSensor(st.cache, s);
      && local.uuid in st.cache.sensors && local.uuid in st.db.readings
      && st.db.UpdateSensorRecord(local) == (SyncSensor(st, s).db, Ok)
      && (st.cache.sensors[local.uuid].meta == s.meta ==> SyncSensor(st, s).db == st.db)
  {
    var local := LocalSensor(st.cache, s);
    IndexFindsTheOwner(st, s.externalId);
    assert LeadsTo(st.cache.externalIds, s.externalId, local.uuid);
    assert !UsedByAnother(st.db.sensors, local.uuid, s.externalId) by {
      forall v | Owns(st.db.sensors, v, s.externalId) ensures v == local.uuid {
        assert LeadsTo(st.cache.externalIds, s.externalId, v);
      }
    }
    Overwritten(st.db.sensors, local.uuid, local, local);
  }

  lemma RegisteredCells(st: State, next: State, s: Sensor)
    requires Agreement(st) && Agreement(next) && Registers(st, next, s)
    ensures next.cache.sensors.Keys == st.cache.sensors.Keys + {s.uuid}
    ensures CellAt(next, s.uuid) ==
      Cells.Cell(if s.uuid in st.db.readings then st.db.readings[s.uuid] else map[], Cells.NOTHING)
    ensures forall v :: v in st.cache.sensors && v != s.uuid ==> CellAt(next, v) == CellAt(st, v)
  {
    SetBuffersFrame(st.cache, s);
  }

  /** A flush that stops takes nothing from the sensor at fault. */
  lemma StoppedKeeps(st: State, done: set<Uuid>, bad: Uuid)
    requires Agreement(st) && StopsAt(st, done, bad)
    ensures Stopped(st, done, bad).cache.pending[bad] == st.cache.pending[bad]
    ensures Agreement(Stopped(st, done, bad)) && Agreement(Stopped(st, done, bad).(db := st.db))
  {
    FlushSomeCells(st, done);
    ReadingsDoNotMatter(st, Stopped(st, done, bad));
    ReadingsDoNotMatter(st, Stopped(st, done, bad).(db := st.db));
  }

  /** Some flush can stop exactly where one must. */
  lemma SomeStop(st: State)
    requires Agreement(st)
    ensures Unconflicted(st) <==> !exists done, bad :: StopsAt(st, done, bad)
  {
    if !Unconflicted(st) {
      var bad :| bad in st.cache.sensors && Conflicts(st, bad);
      assert StopsAt(st, {}, bad);
    }
  }

  lemma StrictFlushKeepsAgreement(st: State, done: set<Uuid>, bad: Uuid)
    requires Agreement(st)
    ensures var r := FlushStrictly(st, done, bad).0;
      Agreement(r) && Agreement(r.(db := st.db)) && r.snapshot == st.snapshot
  {
    FlushKeepsAgreement(st);
    ReadingsDoNotMatter(st, FlushAll(st).(db := st.db));
    if StopsAt(st, done, bad) {
      StoppedKeeps(st, done, bad);
    }
  }

  lemma CommitKeepsAgreement(cfg: Config, st: State, done: set<Uuid>, bad: Uuid)
    requires Agreement(st)
    ensures Agreement(Apply(cfg, st, Commit(done, bad)).0)
  {
    var r := FlushedAs(st, cfg.autoFlush, done, bad).0;
    assert Agreement(r) by {
      StrictFlushKeepsAgreement(st, done, bad);
      FlushKeepsAgreement(st);
    }
    assert Agreement(r.(snapshot := None));
    assert Apply(cfg, st, Commit(done, bad)).0 in [st, r, r.(snapshot := None)];
  }

  lemma SyncKeepsAgreement(cfg: Config, st: State, s: Sensor, batch: Readings, now: int)
    requires Agreement(st)
    ensures Agreement(SyncOne(cfg, st, s, batch, now).0)
  {
    if !Clashes(st, s) {
      SyncSensorKeepsAgreement(st, s);
      WriteKeepsAgreement(cfg, SyncSensor(st, s), LocalSensor(st.cache, s).uuid, true, batch, now);
    }
  }

  /** Exactly which steps keep cache and database in agreement. */
  lemma ApplyAgreesIff(cfg: Config, st: State, step: Step)
    requires Agreement(st)
    ensures Agreement(Apply(cfg, st, step).0) <==> Keeps(cfg, st, step)
  {
    match step
    case AddSensor(s) => AddKeepsAgreement(cfg, st, s);
    case RemoveSensor(s) => RemoveAgreesIff(cfg, st, s);
    case UpdateSensor(s) => UpdateAgreesIff(cfg, st, s);
    case Write(u, isUpdate, batch, now) => WriteKeepsAgreement(cfg, st, u, isUpdate, batch, now);
    case SyncItem(s, batch, now) => SyncKeepsAgreement(cfg, st, s, batch, now);
    case Rollback =>
      if !cfg.autoCommit { CacheOfIsExact(RolledBack(st).db.sensors); }
    case Read(u) =>
      if u in st.cache.sensors { ReadingsDoNotMatter(st, FlushOne(st, u)); }
    case StrictFlush(done, bad) => StrictFlushKeepsAgreement(st, done, bad);
    case Commit(done, bad) => CommitKeepsAgreement(cfg, st, done, bad);
    case Rotate => RotatedAgrees(st);
    case _ =>
      FlushKeepsAgreement(st);
  }

  lemma ApplyKeepsAgreement(cfg: Config, st: State, step: Step)
    requires Agreement(st) && Enabled(cfg, st, step)
    ensures Agreement(Apply(cfg, st, step).0)
  {
    ApplyAgreesIff(cfg, st, step);
  }

  lemma {:induction false} RunLast(cfg: Config, st: State, steps: seq<Step>, last: Step)
    requires Agreement(st) && Runnable(cfg, st, steps)
    ensures Runnable(cfg, st, steps + [last]) <==> Enabled(cfg, Run(cfg, st, steps), last)
    ensures Runnable(cfg, st, steps + [last]) ==>
      Run(cfg, st, steps + [last]) == Apply(cfg, Run(cfg, st, steps), last).0
    decreases |steps|
  {
    var more := steps + [last];
    if steps == [] {
      assert more == [last] && more[1..] == [];
      if Enabled(cfg, st, last) { ApplyKeepsAgreement(cfg, st, last); }
    } else {
      assert more[1..] == steps[1..] + [last] && more[0] == steps[0];
      ApplyKeepsAgreement(cfg, st, steps[0]);
      RunLast(cfg, Apply(cfg, st, steps[0]).0, steps[1..], last);
    }
  }

  // ---------- inside a transaction ----------

  /** What a flush does has nothing to do with the transaction it is in. */
  lemma FlushInsideATransaction(st: State, snapshot: Option<Database>)
    requires Agreement(st) && (snapshot.Some? ==> snapshot.value.Consistent())
    ensures var inside := st.(snapshot := snapshot);
      && Agreement(inside)
      && FlushAll(inside) == FlushAll(st).(snapshot := snapshot)
      && (forall u :: u in st.cache.sensors ==> (Conflicts(inside, u) <==> Conflicts(st, u)))
  {
    var inside := st.(snapshot := snapshot);
    assert forall u :: u in st.cache.sensors ==> Visible(inside, u) == Visible(st, u);
    assert FlushAll(inside).db.readings == FlushAll(st).db.readings;
  }

  lemma StopInsideATransaction(st: State, snapshot: Option<Database>, done: set<Uuid>, bad: Uuid)
    requires Agreement(st) && (snapshot.Some? ==> snapshot.value.Consistent())
    ensures var inside := st.(snapshot := snapshot);
      && Agreement(inside)
      && (StopsAt(inside, done, bad) <==> StopsAt(st, done, bad))
      && (StopsAt(st, done, bad) ==> Stopped(inside, done, bad) == Stopped(st, done, bad).(snapshot := snapshot))
  {
    var inside := st.(snapshot := snapshot);
    FlushInsideATransaction(st, snapshot);
    if StopsAt(st, done, bad) {
      forall u | u in st.cache.sensors
        ensures FlushSome(inside, done).db.readings[u] == FlushSome(st, done).db.readings[u]
      {
        assert Visible(inside, u) == Visible(st, u);
      }
      assert FlushSome(inside, done).db.readings == FlushSome(st, done).db.readings;
      assert FlushSome(inside, done) == FlushSome(st, done).(snapshot := snapshot);
    }
  }

  lemma FlushedInsideATransaction(st: State, snapshot: Option<Database>, ignoreErrors: bool, done: set<Uuid>, bad: Uuid)
    requires Agreement(st) && (snapshot.Some? ==> snapshot.value.Consistent())
    ensures var inside := st.(snapshot := snapshot); var r := FlushedAs(st, ignoreErrors, done, bad);
      && Agreement(inside)
      && FlushedAs(inside, ignoreErrors, done, bad) == (r.0.(snapshot := snapshot), r.1)
      && (Stoppable(inside, done, bad) ==> Stoppable(st, done, bad))
  {
    FlushInsideATransaction(st, snapshot);
    StopInsideATransaction(st, snapshot, done, bad);
  }

  // ---------- rotation ----------

  /** The tables of some of the sensors, with no readings. */
  function TablesOf(sensors: SensorTable, some: set<Uuid>): Database {
    Database(map u | u in sensors && u in some :: sensors[u], map u | u in sensors && u in some :: map[])
  }

  function Rotated(st: State): State {
    State(st.cache, TablesOf(st.cache.sensors, st.cache.sensors.Keys), None, st.lastFlush)
  }

  /** Adding the record of one more cached sensor goes through. */
  lemma OneMoreTable(st: State, some: set<Uuid>, u: Uuid)
    requires Agreement(st) && some <= st.cache.sensors.Keys && u in st.cache.sensors && u !in some
    ensures TablesOf(st.cache.sensors, some).AddSensorRecord(st.cache.sensors[u])
         == (TablesOf(st.cache.sensors, some + {u}), Ok)
  {
    var sensors := st.cache.sensors;
    var few, more, s := TablesOf(sensors, some), TablesOf(sensors, some + {u}), sensors[u];
    assert !HasExternalId(few.sensors, s.externalId) by {
      forall v | v in few.sensors ensures !Owns(few.sensors, v, s.externalId) {
        assert Owns(sensors, v, sensors[v].externalId) && Owns(sensors, u, s.externalId);
      }
    }
    assert more.sensors == few.sensors[u := s];
    assert more.readings == few.readings[u := map[]];
  }

  lemma RotatedAgrees(st: State)
    requires Agreement(st)
    ensures Agreement(Rotated(st))
  {
    assert Rotated(st).db.sensors == st.db.sensors;
  }

  /** Rotation loses nothing: what was held back is all that the new file can still show, and with the
      old file it makes up what readers saw before. */
  lemma RotationLosesNothing(st: State, u: Uuid)
    requires Agreement(st) && u in st.cache.sensors
    ensures Agreement(Rotated(st)) && u in Rotated(st).cache.sensors
    ensures Rotated(st).cache == st.cache && Rotated(st).db.sensors == st.db.sensors
    ensures Visible(st, u).Keys == st.db.readings[u].Keys + Visible(Rotated(st), u).Keys
    ensures Visible(st, u) == Visible(Rotated(st), u) + st.db.readings[u] + st.cache.pending[u].updates
  {
    RotatedAgrees(st);
    var p, stored := st.cache.pending[u], st.db.readings[u];
    assert CellAt(Rotated(st), u) == Cells.Cell(map[], p);
    var none: Readings := map[];
    assert p.inserts + none == p.inserts;
    assert (p.inserts + p.updates) + stored + p.updates == p.inserts + stored + p.updates;
  }
}
