/**
 * Read your writes: a store without buffers or caches that every run of the real one refines.
 * Per sensor it keeps what readers see, what would survive losing the buffers, and what has been
 * inserted and which time stamps have been updated since the last flush.
 */
module Refinement {
  import opened Types
  import opened Databases
  import opened Caches
  import opened StoreModel
  import Batches
  import Cells

  datatype Shown = Shown(durable: Readings, visible: Readings, inserted: Readings, updated: set<Timestamp>)

  datatype View = View(sensors: SensorTable, shown: map<Uuid, Shown>, saved: Option<Database>, lastFlush: int)

  const NOTHING_SHOWN := Shown(map[], map[], map[], {})

  // ---------- the reference store ----------

  function Durable(v: View): Database {
    Database(v.sensors, map u | u in v.shown :: v.shown[u].durable)
  }

  predicate Open(cfg: Config, v: View) {
    cfg.autoCommit || v.saved.Some?
  }

  /** An insertion is put-if-absent; an update is put, unless the time stamp was already updated
      since the last flush. */
  function Written(s: Shown, isUpdate: bool, batch: Readings): Shown {
    if isUpdate then s.(visible := s.visible + (batch - s.updated), updated := s.updated + batch.Keys)
    else s.(visible := batch + s.visible, inserted := batch + s.inserted)
  }

  function Persisted(s: Shown): Shown {
    Shown(s.visible, s.visible, map[], {})
  }

  /** Registering a sensor again forgets what was not flushed. */
  function Forgotten(s: Shown): Shown {
    Shown(s.durable, s.durable, map[], {})
  }

  function PersistAll(v: View): View {
    v.(shown := map u | u in v.shown :: Persisted(v.shown[u]))
  }

  /** An insertion since the last flush meets what is durable. */
  predicate Refuses(s: Shown) {
    !Batches.Disjoint(s.inserted, s.durable)
  }

  /** The insertions before the first one that is refused are durable. */
  function CutShort(s: Shown): Shown {
    s.(durable := Batches.Inserted(s.durable, s.inserted, false))
  }

  /** A strict flush has reached the sensors `done` and then `bad`, which refuses it. */
  function StoppedAt(v: View, done: set<Uuid>, bad: Uuid): View {
    v.(shown := map u | u in v.shown ::
         if u == bad then CutShort(v.shown[u]) else if u in done then Persisted(v.shown[u]) else v.shown[u])
  }

  /** ... and has been rolled back: what it had reached is forgotten. */
  function ForgottenAt(v: View, done: set<Uuid>): View {
    v.(shown := map u | u in v.shown :: if u in done then Forgotten(v.shown[u]) else v.shown[u])
  }

  /** What was not flushed, over something else that is durable. */
  function Rebased(s: Shown, durable: Readings): Shown {
    s.(durable := durable, visible := s.inserted + durable + (map t | t in s.visible && t in s.updated :: s.visible[t]))
  }

  /** The database is another one with tables for the same sensors. */
  function OnTopOf(v: View, readings: map<Uuid, Readings>): View {
    v.(shown := map u | u in v.shown :: Rebased(v.shown[u], if u in readings then readings[u] else map[]))
  }

  predicate Accepts(v: View) {
    forall u :: u in v.shown ==> !Refuses(v.shown[u])
  }

  function Tick(cfg: Config, v: View, now: int): (View, Outcome) {
    if !(cfg.autoFlush && now - v.lastFlush >= cfg.flushTimeout) then (v, Ok)
    else if !Open(cfg, v) then (v, Err(NoTransaction))
    else (PersistAll(v).(lastFlush := now), Ok)
  }

  function Put(cfg: Config, v: View, u: Uuid, isUpdate: bool, batch: Readings, now: int): (View, Outcome) {
    if batch == map[] then (v, Ok)
    else if u !in v.shown then (v, Err(UnknownSensor))
    else Tick(cfg, v.(shown := v.shown[u := Written(v.shown[u], isUpdate, batch)]), now)
  }

  ghost function Register(v: View, s: Sensor): View {
    View(v.sensors[s.uuid := s],
         v.shown[s.uuid := if s.uuid in v.shown then Forgotten(v.shown[s.uuid]) else NOTHING_SHOWN],
         v.saved, v.lastFlush)
  }

  ghost function Absorb(cfg: Config, v: View, s: Sensor, batch: Readings, now: int): (View, Outcome) {
    if !Open(cfg, v) then (v, Err(NoTransaction))
    else if HasExternalId(v.sensors, s.externalId) then
      var local := s.(uuid := OwnerOf(v.sensors, s.externalId));
      Put(cfg, Register(v, local), local.uuid, true, batch, now)
    else if s.uuid in v.sensors then (v, Err(SensorConflict))
    else Put(cfg, Register(v, s), s.uuid, true, batch, now)
  }

  ghost function Reference(cfg: Config, v: View, step: Step): (View, Outcome) {
    match step
    case AddSensor(s) =>
      if !Open(cfg, v) then (v, Err(NoTransaction))
      else if s.uuid in v.sensors || HasExternalId(v.sensors, s.externalId) then (v, Err(SensorConflict))
      else (Register(v, s), Ok)
    case RemoveSensor(s) =>
      if !Open(cfg, v) then (v, Err(NoTransaction))
      else if s.uuid !in v.sensors then (v, Err(MissingTable))
      else (v.(sensors := v.sensors - {s.uuid}, shown := v.shown - {s.uuid}), Ok)
    case UpdateSensor(s) =>
      if !Open(cfg, v) then (v, Err(NoTransaction))
      else if UsedByAnother(v.sensors, s.uuid, s.externalId) then (v, Err(SensorConflict))
      else (Register(v, s), Ok)
    case Write(u, isUpdate, batch, now) => Put(cfg, v, u, isUpdate, batch, now)
    case Flush => if Open(cfg, v) then (PersistAll(v), Ok) else (v, Err(NoTransaction))
    case StrictFlush(done, bad) =>
      if !Open(cfg, v) then (v, Err(NoTransaction))
      else if Accepts(v) then (PersistAll(v), Ok)
      else (if cfg.autoCommit then ForgottenAt(v, done) else StoppedAt(v, done, bad), Err(DuplicateReading))
    case Read(u) =>
      if u in v.shown then (v.(shown := v.shown[u := Persisted(v.shown[u])]), Ok) else (v, Err(UnknownSensor))
    case SyncItem(s, batch, now) => Absorb(cfg, v, s, batch, now)
    case SyncUndone(db) => (if cfg.autoCommit then OnTopOf(v, db.readings) else v, Err(SensorConflict))
    case Start =>
      if cfg.autoCommit then (v, Err(AutoCommitOn))
      else (v.(saved := if v.saved.None? then Some(Durable(v)) else v.saved), Ok)
    case Commit(done, bad) =>
      if cfg.autoCommit then (v, Err(AutoCommitOn))
      else if cfg.autoFlush || Accepts(v) then (PersistAll(v).(saved := None), Ok)
      else (StoppedAt(v, done, bad), Err(DuplicateReading))
    case Rollback =>
      if cfg.autoCommit then (v, Err(AutoCommitOn))
      else
        var db := if v.saved.Some? then v.saved.value else Durable(v);
        var cells := map u | u in db.readings :: Shown(db.readings[u], db.readings[u], map[], {});
        (View(db.sensors, cells, None, v.lastFlush), Ok)
    case Rotate => if v.saved.Some? then (v, Err(NotOpen)) else (OnTopOf(v, map[]), Ok)
  }

  ghost function ReferenceRun(cfg: Config, v: View, steps: seq<Step>): View
    decreases |steps|
  {
    if steps == [] then v else ReferenceRun(cfg, Reference(cfg, v, steps[0]).0, steps[1..])
  }

  // ---------- abstraction ----------

  function ShownBy(c: Cells.Cell): Shown {
    Shown(c.stored, c.Visible(), c.pending.inserts, c.pending.updates.Keys)
  }

  ghost function Abstract(st: State): View
    requires Agreement(st)
  {
    View(st.db.sensors, map u | u in st.cache.sensors :: ShownBy(CellAt(st, u)), st.snapshot, st.lastFlush)
  }

  // ---------- each step refines its reference ----------

  lemma BufferedCell(c: Cells.Cell, isUpdate: bool, batch: Readings)
    ensures ShownBy(Cells.Cell(c.stored, Cells.Buffered(c.pending, isUpdate, batch)))
      == Written(ShownBy(c), isUpdate, batch)
  {
    if isUpdate {
      Cells.UpdateShows(c, batch);
      assert Cells.Apply(c, Cells.Update(batch)) == Cells.Cell(c.stored, Cells.Buffered(c.pending, isUpdate, batch));
    } else {
      Cells.InsertShows(c, batch);
      assert Cells.Apply(c, Cells.Insert(batch)) == Cells.Cell(c.stored, Cells.Buffered(c.pending, isUpdate, batch));
    }
  }

  lemma EmptyBuffers(stored: Readings)
    ensures ShownBy(Cells.Cell(stored, Cells.NOTHING)) == Shown(stored, stored, map[], {})
  {
    Cells.NothingPendingShowsTheStored(stored);
  }

  /** A view is the abstraction of a state when it is so sensor by sensor. */
  lemma SensorBySensor(st: State, v: View)
    requires Agreement(st)
    requires v.sensors == st.db.sensors && v.saved == st.snapshot && v.lastFlush == st.lastFlush
    requires v.shown.Keys == st.cache.sensors.Keys
    requires forall u :: u in st.cache.sensors ==> v.shown[u] == ShownBy(CellAt(st, u))
    ensures Abstract(st) == v
  {
    assert Abstract(st).shown == v.shown;
  }

  lemma FlushRefines(st: State)
    requires Agreement(st)
    ensures Agreement(FlushAll(st)) && Abstract(FlushAll(st)) == PersistAll(Abstract(st))
  {
    FlushKeepsAgreement(st);
    var f, v := FlushAll(st), PersistAll(Abstract(st));
    forall u | u in f.cache.sensors ensures v.shown[u] == ShownBy(CellAt(f, u)) {
      EmptyBuffers(Visible(st, u));
    }
    SensorBySensor(f, v);
  }

  lemma ReadRefines(st: State, u: Uuid)
    requires Agreement(st) && u in st.cache.sensors
    ensures Agreement(FlushOne(st, u))
    ensures Abstract(FlushOne(st, u))
      == Abstract(st).(shown := Abstract(st).shown[u := Persisted(Abstract(st).shown[u])])
  {
    ReadingsDoNotMatter(st, FlushOne(st, u));
    EmptyBuffers(Visible(st, u));
    SensorBySensor(FlushOne(st, u), Abstract(st).(shown := Abstract(st).shown[u := Persisted(Abstract(st).shown[u])]));
  }

  lemma BufferRefines(st: State, u: Uuid, isUpdate: bool, batch: Readings)
    requires Agreement(st) && u in st.cache.sensors
    ensures var b := Buffer(st, u, isUpdate, batch);
      Agreement(b) &&
      Abstract(b) == Abstract(st).(shown := Abstract(st).shown[u := Written(Abstract(st).shown[u], isUpdate, batch)])
  {
    ReadingsDoNotMatter(st, Buffer(st, u, isUpdate, batch));
    BufferedCell(CellAt(st, u), isUpdate, batch);
    SensorBySensor(Buffer(st, u, isUpdate, batch),
      Abstract(st).(shown := Abstract(st).shown[u := Written(Abstract(st).shown[u], isUpdate, batch)]));
  }

  lemma TickRefines(cfg: Config, st: State, now: int)
    requires Agreement(st)
    ensures var r := AutoFlush(cfg, st, now);
      Agreement(r.0) && Tick(cfg, Abstract(st), now) == (Abstract(r.0), r.1)
  {
    FlushRefines(st);
    if Due(cfg, st, now) && Ready(cfg, st) {
      var f := FlushAll(st).(lastFlush := now);
      ReadingsDoNotMatter(FlushAll(st), f);
      forall u | u in f.cache.sensors ensures CellAt(f, u) == CellAt(FlushAll(st), u) {
      }
      SensorBySensor(f, Abstract(FlushAll(st)).(lastFlush := now));
    }
  }

  lemma WriteRefines(cfg: Config, st: State, u: Uuid, isUpdate: bool, batch: Readings, now: int)
    requires Agreement(st)
    ensures var r := WriteReadings(cfg, st, u, isUpdate, batch, now);
      Agreement(r.0) && Put(cfg, Abstract(st), u, isUpdate, batch, now) == (Abstract(r.0), r.1)
  {
    if batch != map[] && u in st.cache.sensors {
      BufferRefines(st, u, isUpdate, batch);
      TickRefines(cfg, Buffer(st, u, isUpdate, batch), now);
    }
  }

  /** Registering a sensor is the same whether it is new or was known under this external id. */
  lemma RegisterRefines(st: State, next: State, s: Sensor)
    requires Agreement(st) && Agreement(next) && Registers(st, next, s)
    ensures Abstract(next) == Register(Abstract(st), s)
  {
    var v := Register(Abstract(st), s);
    RegisteredCells(st, next, s);
    forall u | u in next.cache.sensors ensures v.shown[u] == ShownBy(CellAt(next, u)) {
      if u == s.uuid {
        EmptyBuffers(next.db.readings[u]);
      } else {
        assert CellAt(next, u) == CellAt(st, u);
      }
    }
    SensorBySensor(next, v);
  }

  lemma IndexAgreesWithOwner(st: State, e: ExternalId)
    requires Agreement(st)
    ensures e in st.cache.externalIds <==> HasExternalId(st.db.sensors, e)
    ensures HasExternalId(st.db.sensors, e) ==> OwnerOf(st.db.sensors, e) == st.cache.externalIds[e]
  {
    IndexFindsTheOwner(st, e);
    if HasExternalId(st.db.sensors, e) {
      assert LeadsTo(st.cache.externalIds, e, OwnerOf(st.db.sensors, e));
    }
  }

  lemma SyncRefines(cfg: Config, st: State, s: Sensor, batch: Readings, now: int)
    requires Agreement(st) && !Clashes(st, s)
    ensures var r := SyncOne(cfg, st, s, batch, now);
      Agreement(r.0) && Absorb(cfg, Abstract(st), s, batch, now) == (Abstract(r.0), r.1)
  {
    IndexAgreesWithOwner(st, s.externalId);
    SyncSensorKeepsAgreement(st, s);
    var local, synced := LocalSensor(st.cache, s), SyncSensor(st, s);
    SyncRegisters(st, s);
    RegisterRefines(st, synced, local);
    WriteRefines(cfg, synced, local.uuid, true, batch, now);
  }

  lemma AddRefines(cfg: Config, st: State, s: Sensor)
    requires Agreement(st)
    ensures var r := Apply(cfg, st, AddSensor(s));
      Agreement(r.0) && Reference(cfg, Abstract(st), AddSensor(s)) == (Abstract(r.0), r.1)
  {
    AddKeepsAgreement(cfg, st, s);
    IndexAgreesWithOwner(st, s.externalId);
    var r := Apply(cfg, st, AddSensor(s));
    if r.1.Ok? { RegisterRefines(st, r.0, s); }
  }

  lemma UpdateRefines(cfg: Config, st: State, s: Sensor)
    requires Agreement(st) && Enabled(cfg, st, UpdateSensor(s))
    ensures var r := Apply(cfg, st, UpdateSensor(s));
      Agreement(r.0) && Reference(cfg, Abstract(st), UpdateSensor(s)) == (Abstract(r.0), r.1)
  {
    ApplyKeepsAgreement(cfg, st, UpdateSensor(s));
    var r := Apply(cfg, st, UpdateSensor(s));
    if r.1.Ok? { RegisterRefines(st, r.0, s); }
  }

  lemma RemoveRefines(cfg: Config, st: State, s: Sensor)
    requires Agreement(st) && Enabled(cfg, st, RemoveSensor(s))
    ensures var r := Apply(cfg, st, RemoveSensor(s));
      Agreement(r.0) && Reference(cfg, Abstract(st), RemoveSensor(s)) == (Abstract(r.0), r.1)
  {
    ApplyKeepsAgreement(cfg, st, RemoveSensor(s));
    var r := Apply(cfg, st, RemoveSensor(s));
    if r.1.Ok? {
      forall v | v in r.0.cache.sensors ensures CellAt(r.0, v) == CellAt(st, v) {
      }
      SensorBySensor(r.0, Reference(cfg, Abstract(st), RemoveSensor(s)).0);
    }
  }

  lemma DurableIsTheDatabase(st: State)
    requires Agreement(st)
    ensures Durable(Abstract(st)) == st.db
  {
    assert Durable(Abstract(st)).readings == st.db.readings;
  }

  lemma RollbackRefines(cfg: Config, st: State)
    requires Agreement(st) && !cfg.autoCommit
    ensures Agreement(RolledBack(st))
    ensures Abstract(RolledBack(st)) == Reference(cfg, Abstract(st), Rollback).0
  {
    var r := RolledBack(st);
    CacheOfIsExact(r.db.sensors);
    DurableIsTheDatabase(st);
    forall u | u in r.cache.sensors
      ensures ShownBy(CellAt(r, u)) == Shown(r.db.readings[u], r.db.readings[u], map[], {})
    {
      EmptyBuffers(r.db.readings[u]);
    }
    SensorBySensor(r, Reference(cfg, Abstract(st), Rollback).0);
  }

  lemma StartRefines(cfg: Config, st: State)
    requires Agreement(st)
    ensures var r := Apply(cfg, st, Start);
      Agreement(r.0) && Reference(cfg, Abstract(st), Start) == (Abstract(r.0), r.1)
  {
    var r := Apply(cfg, st, Start);
    DurableIsTheDatabase(st);
    forall u | u in st.cache.sensors ensures CellAt(r.0, u) == CellAt(st, u) {
    }
    SensorBySensor(r.0, Reference(cfg, Abstract(st), Start).0);
  }

  lemma ConflictsRefine(st: State)
    requires Agreement(st)
    ensures Accepts(Abstract(st)) <==> Unconflicted(st)
  {
    forall u | u in st.cache.sensors ensures Refuses(Abstract(st).shown[u]) <==> Conflicts(st, u) {
    }
  }

  /** The insertions that went in before a duplicate change nothing that is visible. */
  lemma CutShortCell(c: Cells.Cell)
    ensures ShownBy(Cells.Cell(Batches.Inserted(c.stored, c.pending.inserts, false), c.pending)) == CutShort(ShownBy(c))
  {
    var ins, stored := c.pending.inserts, c.stored;
    assert ins + Batches.Inserted(stored, ins, false) == ins + stored by {
      var accepted := Batches.Accepted(stored, ins, false);
      assert forall t :: t in accepted ==> t in ins && ins[t] == accepted[t];
      if !Batches.Disjoint(ins, stored) {
        assert forall t :: t in accepted ==> t in stored ==> t in Batches.Duplicates(ins, stored);
      }
    }
  }

  lemma StopRefines(st: State, done: set<Uuid>, bad: Uuid)
    requires Agreement(st) && StopsAt(st, done, bad)
    ensures Agreement(Stopped(st, done, bad)) && Abstract(Stopped(st, done, bad)) == StoppedAt(Abstract(st), done, bad)
  {
    StoppedKeeps(st, done, bad);
    var r, v := Stopped(st, done, bad), StoppedAt(Abstract(st), done, bad);
    FlushSomeCells(st, done);
    forall u | u in r.cache.sensors ensures v.shown[u] == ShownBy(CellAt(r, u)) {
      EmptyBuffers(Visible(st, u));
      CutShortCell(CellAt(st, u));
    }
    SensorBySensor(r, v);
  }

  lemma UndoneStopRefines(st: State, done: set<Uuid>, bad: Uuid)
    requires Agreement(st) && StopsAt(st, done, bad)
    ensures Agreement(Stopped(st, done, bad).(db := st.db))
    ensures Abstract(Stopped(st, done, bad).(db := st.db)) == ForgottenAt(Abstract(st), done)
  {
    StoppedKeeps(st, done, bad);
    var r, v := Stopped(st, done, bad).(db := st.db), ForgottenAt(Abstract(st), done);
    forall u | u in r.cache.sensors ensures v.shown[u] == ShownBy(CellAt(r, u)) {
      EmptyBuffers(st.db.readings[u]);
    }
    SensorBySensor(r, v);
  }

  /** A strict flush that throws with automatic commits. */
  lemma UndoneFlushRefines(cfg: Config, st: State, done: set<Uuid>, bad: Uuid)
    requires Agreement(st) && StopsAt(st, done, bad) && cfg.autoCommit
    ensures var r := Apply(cfg, st, StrictFlush(done, bad));
      Agreement(r.0) && Reference(cfg, Abstract(st), StrictFlush(done, bad)) == (Abstract(r.0), r.1)
  {
    assert !Unconflicted(st);
    assert Apply(cfg, st, StrictFlush(done, bad)) == (Stopped(st, done, bad).(db := st.db), Err(DuplicateReading));
    ConflictsRefine(st);
    UndoneStopRefines(st, done, bad);
  }

  /** ... and with manual ones. */
  lemma StoppedFlushRefines(cfg: Config, st: State, done: set<Uuid>, bad: Uuid)
    requires Agreement(st) && StopsAt(st, done, bad) && !cfg.autoCommit && Ready(cfg, st)
    ensures var r := Apply(cfg, st, StrictFlush(done, bad));
      Agreement(r.0) && Reference(cfg, Abstract(st), StrictFlush(done, bad)) == (Abstract(r.0), r.1)
  {
    assert !Unconflicted(st);
    assert Apply(cfg, st, StrictFlush(done, bad)) == (Stopped(st, done, bad), Err(DuplicateReading));
    ConflictsRefine(st);
    StopRefines(st, done, bad);
  }

  lemma StrictFlushRefines(cfg: Config, st: State, done: set<Uuid>, bad: Uuid)
    requires Agreement(st) && Enabled(cfg, st, StrictFlush(done, bad))
    ensures var r := Apply(cfg, st, StrictFlush(done, bad));
      Agreement(r.0) && Reference(cfg, Abstract(st), StrictFlush(done, bad)) == (Abstract(r.0), r.1)
  {
    if Ready(cfg, st) {
      if Unconflicted(st) {
        ConflictsRefine(st);
        FlushRefines(st);
      } else if cfg.autoCommit {
        UndoneFlushRefines(cfg, st, done, bad);
      } else {
        StoppedFlushRefines(cfg, st, done, bad);
      }
    }
  }

  lemma RebasedCell(c: Cells.Cell, durable: Readings)
    ensures ShownBy(Cells.Cell(durable, c.pending)) == Rebased(ShownBy(c), durable)
  {
    var visible, updates := c.Visible(), c.pending.updates;
    assert (map t | t in visible && t in updates.Keys :: visible[t]) == updates;
  }

  lemma OnTopRefines(st: State, db: Database)
    requires Agreement(st) && db.Consistent() && db.sensors == st.db.sensors
    ensures Agreement(st.(db := db)) && Abstract(st.(db := db)) == OnTopOf(Abstract(st), db.readings)
  {
    var r, v := st.(db := db), OnTopOf(Abstract(st), db.readings);
    forall u | u in r.cache.sensors ensures v.shown[u] == ShownBy(CellAt(r, u)) {
      RebasedCell(CellAt(st, u), db.readings[u]);
    }
    SensorBySensor(r, v);
  }

  lemma RotateRefines(st: State)
    requires Agreement(st) && st.snapshot.None?
    ensures Agreement(Rotated(st)) && Abstract(Rotated(st)) == OnTopOf(Abstract(st), map[])
  {
    RotatedAgrees(st);
    OnTopRefines(st, Rotated(st).db);
    assert Rotated(st) == st.(db := Rotated(st).db);
    assert OnTopOf(Abstract(st), Rotated(st).db.readings).shown == OnTopOf(Abstract(st), map[]).shown;
  }

  lemma ClosingRefines(st: State)
    requires Agreement(st)
    ensures Agreement(st.(snapshot := None)) && Abstract(st.(snapshot := None)) == Abstract(st).(saved := None)
  {
    var f := st.(snapshot := None);
    forall u | u in f.cache.sensors ensures CellAt(f, u) == CellAt(st, u) {
    }
    SensorBySensor(f, Abstract(st).(saved := None));
  }

  /** A commit whose flush throws. */
  lemma StoppedCommitRefines(cfg: Config, st: State, done: set<Uuid>, bad: Uuid)
    requires Agreement(st) && StopsAt(st, done, bad) && !cfg.autoCommit && !cfg.autoFlush
    ensures var r := Apply(cfg, st, Commit(done, bad));
      Agreement(r.0) && Reference(cfg, Abstract(st), Commit(done, bad)) == (Abstract(r.0), r.1)
  {
    assert !Unconflicted(st);
    assert Apply(cfg, st, Commit(done, bad)) == (Stopped(st, done, bad), Err(DuplicateReading));
    ConflictsRefine(st);
    StopRefines(st, done, bad);
  }

  lemma CommitRefines(cfg: Config, st: State, done: set<Uuid>, bad: Uuid)
    requires Agreement(st) && Enabled(cfg, st, Commit(done, bad))
    ensures var r := Apply(cfg, st, Commit(done, bad));
      Agreement(r.0) && Reference(cfg, Abstract(st), Commit(done, bad)) == (Abstract(r.0), r.1)
  {
    if !cfg.autoCommit {
      if cfg.autoFlush || Unconflicted(st) {
        ConflictsRefine(st);
        FlushRefines(st);
        ClosingRefines(FlushAll(st));
        assert Apply(cfg, st, Commit(done, bad)) == (FlushAll(st).(snapshot := None), Ok);
      } else {
        StoppedCommitRefines(cfg, st, done, bad);
      }
    }
  }

  lemma ApplyRefines(cfg: Config, st: State, step: Step)
    requires Agreement(st) && Enabled(cfg, st, step)
    ensures Agreement(Apply(cfg, st, step).0)
    ensures Reference(cfg, Abstract(st), step) == (Abstract(Apply(cfg, st, step).0), Apply(cfg, st, step).1)
  {
    ApplyKeepsAgreement(cfg, st, step);
    match step
    case AddSensor(s) => AddRefines(cfg, st, s);
    case RemoveSensor(s) => RemoveRefines(cfg, st, s);
    case UpdateSensor(s) => UpdateRefines(cfg, st, s);
    case Write(u, isUpdate, batch, now) => WriteRefines(cfg, st, u, isUpdate, batch, now);
    case Flush => FlushRefines(st);
    case Read(u) => if u in st.cache.sensors { ReadRefines(st, u); }
    case SyncItem(s, batch, now) => SyncRefines(cfg, st, s, batch, now);
    case Start => StartRefines(cfg, st);
    case StrictFlush(done, bad) => StrictFlushRefines(cfg, st, done, bad);
    case Commit(done, bad) => CommitRefines(cfg, st, done, bad);
    case Rollback => if !cfg.autoCommit { RollbackRefines(cfg, st); }
    case SyncUndone(db) => if cfg.autoCommit { OnTopRefines(st, db); }
    case Rotate => if st.snapshot.None? { RotateRefines(st); }
  }

  /** Every run of the store, whatever it mixes, is a run of the reference store. */
  lemma {:induction false} RunRefines(cfg: Config, st: State, steps: seq<Step>)
    requires Agreement(st) && Runnable(cfg, st, steps)
    ensures Abstract(Run(cfg, st, steps)) == ReferenceRun(cfg, Abstract(st), steps)
    decreases |steps|
  {
    if steps != [] {
      ApplyRefines(cfg, st, steps[0]);
      RunRefines(cfg, Apply(cfg, st, steps[0]).0, steps[1..]);
    }
  }

  /** A reader sees exactly what the reference store holds. */
  lemma {:induction false} ReadYourWrites(cfg: Config, st: State, steps: seq<Step>, u: Uuid)
    requires Agreement(st) && Runnable(cfg, st, steps)
    requires u in Run(cfg, st, steps).cache.sensors
    ensures var v := ReferenceRun(cfg, Abstract(st), steps);
      u in v.shown && Visible(Run(cfg, st, steps), u) == v.shown[u].visible
    ensures FlushOne(Run(cfg, st, steps), u).db.readings[u] == Visible(Run(cfg, st, steps), u)
  {
    RunRefines(cfg, st, steps);
  }
}
