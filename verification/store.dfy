/** The store itself: the code that fills and empties the buffers, statement by statement. */
module Stores {
  import opened Types
  import opened Ascending
  import opened Batches
  import opened Databases
  import opened Inserting
  import opened SQLite
  import Caches
  import Cells
  import Handlers
  import Records
  import Model = StoreModel
  import Synchronisation
  import Clocks
  import AbortedSyncs
  import Syncing

  class Store {
    const cfg: Model.Config
    const clock: Clocks.Clock               // `time_converter`
    const transaction: SQLite3Transaction   // `_transaction`, the client's own
    var connection: Connection              // `_db`
    var sensors: SensorTable
    var externalIds: map<ExternalId, Uuid>
    var pending: map<Uuid, Cells.Pending>
    var lastFlush: int

    ghost function Buffers(): Caches.Cache
      reads this`sensors, this`externalIds, this`pending
    {
      Caches.Cache(sensors, externalIds, pending)
    }

    ghost function State(): Model.State
      reads this, connection
    {
      Model.State(Buffers(), connection.db, connection.snapshot, lastFlush)
    }

    /** Handlers and connection know each other; in automatic mode the client's own one stays idle. */
    ghost predicate Linked()
      reads this`connection, connection`handlers, connection`snapshot, connection.handlers
    {
      && connection.Valid() && transaction in connection.handlers
      && (cfg.autoCommit ==> !transaction.pending)
      && (!cfg.autoCommit ==> connection.handlers == {transaction})
      && 0 < cfg.maxBulkSize
    }

    /** Between public calls no handler is left over, so in automatic mode no transaction is open. */
    ghost predicate Idle()
      reads this`connection, connection`handlers, connection`snapshot, connection.handlers
    {
      && Linked() && connection.handlers == {transaction}
      && (cfg.autoCommit ==> connection.snapshot.None?)
    }

    ghost predicate Valid()
      reads this, connection, connection.handlers
    {
      Idle() && Model.Agreement(State())
    }

    lemma PendingIsOpen()
      requires Linked() && connection.handlers == {transaction}
      ensures connection.snapshot.Some? <==> transaction.pending
    {
      var flags := map h | h in connection.handlers :: h.pending;
      assert transaction in flags;
      if h :| h in flags && flags[h] {
        assert h == transaction;
      }
    }

    /** Nothing has been done to this store. */
    twostate lemma LeftAlone()
      requires old(Valid()) && unchanged(this) && unchanged(connection) && unchanged(connection.handlers)
      ensures Valid() && State() == old(State())
    {
    }

    /** `open` and `initialize` on a file that an earlier store has left behind, or on none. */
    constructor (cfg: Model.Config, clock: Clocks.Clock, file: Database)
      requires 0 < cfg.maxBulkSize
      ensures Idle() && fresh(connection) && fresh(transaction) && this.cfg == cfg && this.clock == clock
      ensures State() == Model.State(Caches.EMPTY_CACHE, file, None, 0)
    {
      var c := new Connection(file);
      var t := new SQLite3Transaction(c);
      this.cfg, this.clock, connection, transaction := cfg, clock, c, t;
      sensors, externalIds, pending, lastFlush := map[], map[], map[], 0;
    }

    /** What the store factory does: the buffers of the new store are those of the file. */
    static method Open(cfg: Model.Config, clock: Clocks.Clock, file: Database) returns (store: Store)
      requires file.Consistent() && 0 < cfg.maxBulkSize
      ensures fresh(store) && fresh(store.connection) && fresh(store.transaction)
      ensures store.Valid() && store.cfg == cfg && store.clock == clock && store.State() == Model.Opened(file)
    {
      store := new Store(cfg, clock, file);
      ghost var order := store.Prepare();
      Caches.PrepareBuildsTheCache(order, file.sensors);
      assert store.State() == Model.Opened(file);
      Model.OpeningAgrees(file);
    }

    // ---------- transactions ----------

    method AutoStartTransaction() returns (handler: SQLite3Transaction, r: Outcome)
      requires Linked()
      modifies connection
      ensures Linked() && handler in connection.handlers && connection.db == old(connection.db)
      ensures cfg.autoCommit ==>
        && r.Ok? && fresh(handler) && handler !in old(connection.handlers)
        && connection.handlers == old(connection.handlers) + {handler}
        && handler.pending == old(connection.snapshot).None?
        && connection.snapshot == if handler.pending then Some(connection.db) else old(connection.snapshot)
      ensures !cfg.autoCommit ==>
        && handler == transaction && connection.handlers == old(connection.handlers)
        && connection.snapshot == old(connection.snapshot)
        && r == if connection.snapshot.Some? then Ok else Err(NoTransaction)
    {
      r := Ok;
      if cfg.autoCommit {
        handler := new SQLite3Transaction(connection);
        r := handler.Start();
      } else {
        handler := transaction;
        PendingIsOpen();
        if !handler.pending {
          r := Err(NoTransaction);
        }
      }
    }

    method AutoCommitTransaction(handler: SQLite3Transaction)
      requires Linked() && handler in connection.handlers && (cfg.autoCommit <==> handler != transaction)
      modifies if cfg.autoCommit then {handler} else {}, connection
      ensures Linked() && connection.handlers == old(connection.handlers) && connection.db == old(connection.db)
      ensures cfg.autoCommit && old(handler.pending) ==>
        connection.snapshot.None? && old(connection.snapshot).Some? && !handler.pending
      ensures !(cfg.autoCommit && old(handler.pending)) ==>
        connection.snapshot == old(connection.snapshot) && handler.pending == old(handler.pending)
    {
      if cfg.autoCommit {
        ghost var was := connection.Link();
        assert Handlers.Pending(was, handler) == handler.pending;
        assert handler.pending ==> was.snapshot.Some?;
        handler.Commit();
        assert Handlers.Pending(connection.Link(), handler) == handler.pending;
        assert Handlers.Pending(was, transaction) == Handlers.Pending(connection.Link(), transaction)
            == transaction.pending;
      }
    }

    /** The shared pointer of an automatic handler goes out of scope. */
    method Release(handler: SQLite3Transaction)
      requires Linked() && handler in connection.handlers && (cfg.autoCommit <==> handler != transaction)
      modifies if cfg.autoCommit then {handler} else {}, connection
      ensures Linked()
      ensures !cfg.autoCommit ==>
        && connection.handlers == old(connection.handlers) && connection.db == old(connection.db)
        && connection.snapshot == old(connection.snapshot) && handler.pending == old(handler.pending)
      ensures cfg.autoCommit ==> connection.handlers == old(connection.handlers) - {handler}
      ensures cfg.autoCommit && old(handler.pending) ==>
        old(connection.snapshot).Some? && connection.db == old(connection.snapshot).value && connection.snapshot.None?
      ensures cfg.autoCommit && !old(handler.pending) ==>
        connection.db == old(connection.db) && connection.snapshot == old(connection.snapshot)
    {
      if cfg.autoCommit {
        ghost var was := connection.Link();
        assert Handlers.Pending(was, handler) == handler.pending;
        assert handler.pending ==> was.snapshot.Some?;
        handler.Destroy();
        assert Handlers.Pending(was, transaction) == Handlers.Pending(connection.Link(), transaction)
            == transaction.pending;
      }
    }

    /** The end of an operation that has nothing left to do after its commit. */
    method EndTransaction(handler: SQLite3Transaction, commit: bool)
      requires Linked() && handler in connection.handlers && (cfg.autoCommit <==> handler != transaction)
      modifies if cfg.autoCommit then {handler} else {}, connection
      ensures Linked()
      ensures connection.handlers == old(connection.handlers) - (if cfg.autoCommit then {handler} else {})
      ensures !(cfg.autoCommit && old(handler.pending)) ==>
        connection.db == old(connection.db) && connection.snapshot == old(connection.snapshot)
      ensures cfg.autoCommit && old(handler.pending) ==>
        && connection.snapshot.None? && old(connection.snapshot).Some?
        && connection.db == if commit then old(connection.db) else old(connection.snapshot).value
    {
      if commit {
        AutoCommitTransaction(handler);
      }
      Release(handler);
    }

    // ---------- buffers ----------

    method SetBuffers(sensor: Sensor)
      modifies this`sensors, this`externalIds, this`pending
      ensures Buffers() == Caches.SetBuffers(old(Buffers()), sensor)
    {
      ghost var was, replaced := Buffers(), Caches.Previous(Buffers(), sensor);
      if sensor.externalId in externalIds {
        var other := externalIds[sensor.externalId];
        sensors := sensors - {other};
        if other in pending {
          pending := pending[sensor.uuid := pending[other]];
          pending := pending - {other};
        }
      }
      assert sensors == was.sensors - replaced;
      if sensor.uuid !in pending {
        pending := pending[sensor.uuid := Cells.NOTHING];
      }
      assert pending[sensor.uuid] == Caches.Inherited(was, sensor);
      assert pending == (was.pending - replaced)[sensor.uuid := pending[sensor.uuid]];
      sensors := sensors[sensor.uuid := sensor];
      externalIds := externalIds[sensor.externalId := sensor.uuid];
    }

    method ClearSensorBuffers(sensor: Sensor)
      modifies this`sensors, this`externalIds, this`pending
      ensures Buffers() == Caches.ClearBuffers(old(Buffers()), sensor)
    {
      sensors := sensors - {sensor.uuid};
      externalIds := externalIds - {sensor.externalId};
      pending := pending - {sensor.uuid};
    }

    method ClearBuffers()
      modifies this`sensors, this`externalIds, this`pending
      ensures Buffers() == Caches.EMPTY_CACHE
    {
      sensors, externalIds, pending := map[], map[], map[];
    }

    method Prepare() returns (ghost order: seq<Sensor>)
      requires KeyedByUuid(connection.db.sensors)
      modifies this`sensors, this`externalIds, this`pending
      ensures Enumerates(order, connection.db.sensors)
      ensures Buffers() == Caches.Prepare(old(Buffers()), order)
    {
      var records := connection.SelectSensors();
      order := records;
      var i := 0;
      while i < |records|
        invariant 0 <= i <= |records|
        invariant Caches.Prepare(Buffers(), records[i..]) == Caches.Prepare(old(Buffers()), records)
      {
        assert records[i..][0] == records[i] && records[i..][1..] == records[i+1..];
        SetBuffers(records[i]);
        i := i + 1;
      }
    }

    // ---------- sensors ----------

    method AddSensor(sensor: Sensor) returns (r: Outcome)
      requires Valid()
      modifies this, connection
      ensures Valid() && connection == old(connection)
      ensures (State(), r) == Model.Apply(cfg, old(State()), Model.AddSensor(sensor))
    {
      ghost var was := State();
      var handler, started := AutoStartTransaction();
      if started.Err? {
        return started;
      }
      r := Records.AddSensorRecord(connection, sensor);
      if r.Ok? {
        AutoCommitTransaction(handler);
        SetBuffers(sensor);
      }
      Release(handler);
      assert Idle();
      assert (State(), r) ==
        Model.Settled(cfg, was, was.db.AddSensorRecord(sensor), Caches.SetBuffers(was.cache, sensor));
      assert Model.Agreement(State()) by {
        Model.ApplyKeepsAgreement(cfg, was, Model.AddSensor(sensor));
      }
    }

    /** What follows the start of its transaction. */
    method RemoveAndEnd(handler: SQLite3Transaction, sensor: Sensor) returns (r: Outcome)
      requires Linked() && handler in connection.handlers && (cfg.autoCommit <==> handler != transaction)
      requires cfg.autoCommit ==> handler.pending && connection.snapshot == Some(connection.db)
      modifies this`sensors, this`externalIds, this`pending, connection
      modifies if cfg.autoCommit then {handler} else {}
      ensures Linked() && connection.handlers == old(connection.handlers) - (if cfg.autoCommit then {handler} else {})
      ensures connection.snapshot == if cfg.autoCommit then None else old(connection.snapshot)
      ensures r == old(connection.db).RemoveSensorRecord(sensor).1
      ensures connection.db ==
        if r.Err? && cfg.autoCommit then old(connection.db) else old(connection.db).RemoveSensorRecord(sensor).0
      ensures Buffers() == if r.Ok? then Caches.ClearBuffers(old(Buffers()), sensor) else old(Buffers())
    {
      r := Records.RemoveSensorRecord(connection, sensor);
      if r.Ok? {
        AutoCommitTransaction(handler);
        ClearSensorBuffers(sensor);
      }
      Release(handler);
    }

    method RemoveSensor(sensor: Sensor) returns (r: Outcome)
      requires Valid()
      modifies this, connection
      ensures Idle() && connection == old(connection)
      ensures (State(), r) == Model.Apply(cfg, old(State()), Model.RemoveSensor(sensor))
      ensures Valid() <==> !Model.Ready(cfg, old(State())) || Caches.Stable(old(Buffers()), sensor)
    {
      ghost var was := State();
      var handler, started := AutoStartTransaction();
      if started.Err? {
        return started;
      }
      r := RemoveAndEnd(handler, sensor);
      Model.RemoveAgreesIff(cfg, was, sensor);
    }

    method UpdateSensor(sensor: Sensor) returns (r: Outcome)
      requires Valid()
      modifies this, connection
      ensures Idle() && connection == old(connection)
      ensures (State(), r) == Model.Apply(cfg, old(State()), Model.UpdateSensor(sensor))
      ensures Valid() <==> Model.Keeps(cfg, old(State()), Model.UpdateSensor(sensor))
    {
      ghost var was := State();
      var handler, started := AutoStartTransaction();
      if started.Err? {
        return started;
      }
      r := Records.UpdateSensorRecord(connection, sensor);
      if r.Ok? {
        AutoCommitTransaction(handler);
        SetBuffers(sensor);
      }
      Release(handler);
      assert Idle();
      assert (State(), r) ==
        Model.Settled(cfg, was, was.db.UpdateSensorRecord(sensor), Caches.SetBuffers(was.cache, sensor));
      assert Model.Agreement(State()) <==> Model.Keeps(cfg, was, Model.UpdateSensor(sensor)) by {
        Model.ApplyAgreesIff(cfg, was, Model.UpdateSensor(sensor));
      }
    }

    // ---------- flushing ----------

    /** `flush` of one sensor: insertions first, then updates; the buffers are emptied as each part
        has gone through. */
    method FlushSensor(sensor: Sensor, ignoreErrors: bool) returns (r: Outcome)
      requires sensor.uuid in pending ==> sensor.uuid in connection.db.readings
      requires 0 < cfg.maxBulkSize
      modifies this`pending, connection`db
      ensures sensor.uuid !in old(pending) ==> r == Err(UnknownSensor) && State() == old(State())
      ensures sensor.uuid in old(pending) ==>
        && r == (if ignoreErrors || !Model.Conflicts(old(State()), sensor.uuid) then Ok else Err(DuplicateReading))
        && State() ==
             if r.Ok? then Model.FlushOne(old(State()), sensor.uuid) else Model.FlushFailed(old(State()), sensor.uuid)
    {
      if sensor.uuid !in pending {
        return Err(UnknownSensor);
      }
      ghost var was, u := State(), sensor.uuid;
      var p := pending[sensor.uuid];
      if |p.inserts| <= cfg.minBulkSize {
        r := Records.AddSingleReadingRecords(connection, sensor, p.inserts, ignoreErrors);
      } else {
        ghost var calls;
        r, calls := Records.InsertInBulks(connection, sensor, p.inserts, cfg.maxBulkSize, ignoreErrors);
      }
      if r.Err? {
        return;
      }
      InsertedWithoutErrors(was.db.readings[u], p.inserts, ignoreErrors);
      pending := pending[sensor.uuid := p.(inserts := map[])];
      assert State() == Model.InsertsFlushed(was, u);
      Model.FlushInTwoParts(was, u);
      if |p.updates| > 0 {
        r := Records.UpdateReadingRecords(connection, sensor, p.updates, ignoreErrors);
        pending := pending[sensor.uuid := Cells.NOTHING];
      }
      assert State() == Model.FlushOne(was, u);
    }

    /** One more sensor, in the loop of `flush`. */
    method FlushNext(u: Uuid, ignoreErrors: bool, ghost was: Model.State, ghost done: set<Uuid>) returns (r: Outcome)
      requires Model.Agreement(was) && u in was.cache.sensors && u !in done && done <= was.cache.sensors.Keys
      requires State() == Model.FlushSome(was, done) && Model.Agreement(State()) && 0 < cfg.maxBulkSize
      requires ignoreErrors || forall v :: v in done ==> !Model.Conflicts(was, v)
      modifies this`pending, connection`db
      ensures r.Ok? ==>
        && State() == Model.FlushSome(was, done + {u}) && Model.Agreement(State())
        && (ignoreErrors || !Model.Conflicts(was, u))
      ensures r.Err? ==>
        && !ignoreErrors && (State(), r) == Model.FlushedAs(was, ignoreErrors, done, u) && Model.Stoppable(was, done, u)
    {
      assert Model.CellAt(State(), u) == Model.CellAt(was, u) by {
        Model.FlushSomeCells(was, done);
      }
      Model.FlushOneMore(was, done, u);
      assert sensors[u].uuid == u;
      r := FlushSensor(sensors[u], ignoreErrors);
      if r.Err? {
        Model.FlushedUpTo(was, done, u);
      } else {
        Model.FlushSomeCells(was, done + {u});
      }
    }

    /** Flushes the cached sensors in the order in which the hash map happens to hold them. */
    method FlushAll(ignoreErrors: bool) returns (r: Outcome, ghost done: set<Uuid>, ghost bad: Uuid)
      requires Model.Agreement(State()) && 0 < cfg.maxBulkSize
      modifies this`pending, connection`db
      ensures (State(), r) == Model.FlushedAs(old(State()), ignoreErrors, done, bad)
      ensures ignoreErrors || Model.Stoppable(old(State()), done, bad)
    {
      r, done, bad := Ok, {}, Uuid(0);
      ghost var was := State();
      Model.FlushNone(was);
      Model.FlushSomeCells(was, done);
      var left := sensors.Keys;
      while left != {}
        invariant r.Ok? && left <= sensors.Keys && done == sensors.Keys - left
        invariant Model.Agreement(was) && sensors == was.cache.sensors
        invariant State() == Model.FlushSome(was, done) && Model.Agreement(State())
        invariant ignoreErrors || forall u :: u in done ==> !Model.Conflicts(was, u)
        decreases left
      {
        var u :| u in left;
        r := FlushNext(u, ignoreErrors, was, done);
        if r.Err? {
          bad := u;
          return;
        }
        left, done := left - {u}, done + {u};
      }
      Model.FlushedEach(was, ignoreErrors, done, bad);
    }

    method FlushInTransaction(ignoreErrors: bool) returns (r: Outcome, ghost done: set<Uuid>, ghost bad: Uuid)
      requires Idle() && Model.Agreement(State())
      modifies this`pending, connection
      ensures Idle()
      ensures (State(), r) ==
        if Model.Ready(cfg, old(State()))
        then Model.Undone(cfg, old(State()), Model.FlushedAs(old(State()), ignoreErrors, done, bad))
        else (old(State()), Err(NoTransaction))
      ensures Model.Ready(cfg, old(State())) ==> ignoreErrors || Model.Stoppable(old(State()), done, bad)
    {
      done, bad := {}, Uuid(0);
      ghost var was := State();
      var handler, started := AutoStartTransaction();
      if started.Err? {
        return started, done, bad;
      }
      ghost var inside := connection.snapshot;
      assert State() == was.(snapshot := inside);
      assert Model.Agreement(State()) by {
        Model.FlushInsideATransaction(was, inside);
      }
      r, done, bad := FlushAll(ignoreErrors);
      EndTransaction(handler, r.Ok?);
      Model.FlushedInsideATransaction(was, inside, ignoreErrors, done, bad);
    }

    /** The public `flush`. Thrown with automatic commits: the database is as before and the sensor at
        fault keeps all that was held back for it, while sensors flushed before it have lost theirs. */
    method Flush(ignoreErrors: bool) returns (r: Outcome, ghost done: set<Uuid>, ghost bad: Uuid)
      requires Valid()
      modifies this`pending, connection
      ensures Valid()
      ensures var step := if ignoreErrors then Model.Flush else Model.StrictFlush(done, bad);
        (State(), r) == Model.Apply(cfg, old(State()), step) && Model.Enabled(cfg, old(State()), step)
      ensures Model.Ready(cfg, old(State())) ==>
        (r.Ok? <==> ignoreErrors || forall u :: u in old(sensors) ==> !Model.Conflicts(old(State()), u))
      ensures r.Err? && cfg.autoCommit ==>
        && connection.db == old(connection.db)
        && bad in old(pending) && bad in pending && pending[bad] == old(pending)[bad]
    {
      ghost var was := State();
      r, done, bad := FlushInTransaction(ignoreErrors);
      Model.ApplyKeepsAgreement(cfg, was, if ignoreErrors then Model.Flush else Model.StrictFlush(done, bad));
      if Model.StopsAt(was, done, bad) {
        Model.StoppedKeeps(was, done, bad);
      }
    }

    /** A flush that may take place within another operation. */
    method FlushNested() returns (r: Outcome)
      requires Linked() && Model.Agreement(State())
      modifies this`pending, connection
      ensures Linked() && connection.handlers == old(connection.handlers)
      ensures (State(), r) ==
        if Model.Ready(cfg, old(State())) then (Model.FlushAll(old(State())), Ok)
        else (old(State()), Err(NoTransaction))
    {
      ghost var was, others := State(), connection.handlers;
      var handler, started := AutoStartTransaction();
      if started.Err? {
        return started;
      }
      ghost var inside := connection.snapshot;
      assert State() == was.(snapshot := inside);
      assert Model.Agreement(State()) by {
        Model.FlushInsideATransaction(was, inside);
      }
      ghost var done, bad;
      r, done, bad := FlushAll(true);
      EndTransaction(handler, true);
      Model.FlushInsideATransaction(was, inside);
      if cfg.autoCommit {
        AddedAndRemoved(others, handler);
      }
    }

    /** The timer. When a transaction is open already, the handler opened here is a second one and stays
        idle: the flush becomes part of the outer transaction. */
    method AutoFlush() returns (r: Outcome, ghost now: int)
      requires Linked() && Model.Agreement(State())
      modifies this`pending, this`lastFlush, connection, clock
      ensures Linked() && connection.handlers == old(connection.handlers)
      ensures now == clock.time && old(clock.time) <= clock.time
      ensures (State(), r) == Model.AutoFlush(cfg, old(State()), now)
      ensures r.Ok? && cfg.autoFlush && 0 < cfg.flushTimeout ==> clock.time - lastFlush < cfg.flushTimeout
    {
      var time := clock.GetTimestamp();
      now, r := time, Ok;
      if cfg.autoFlush && time - lastFlush >= cfg.flushTimeout {
        r := FlushNested();
        if r.Err? {
          return;
        }
        lastFlush := time;
      }
    }

    // ---------- readings ----------

    /** `std::map::insert` of the readings one by one: a value that is there stays. `q` stands for the
        maps that the buffer's shared pointers lead to. */
    method InsertIntoBuffer(u: Uuid, readings: Readings, isUpdate: bool)
      requires u in pending
      modifies this`pending
      ensures pending == old(pending)[u := Cells.Buffered(old(pending)[u], isUpdate, readings)]
    {
      var keys, q := Enumerate(readings.Keys), pending[u];
      WholeBatch(readings);
      NothingBuffered(q, isUpdate, readings, keys);
      var i := 0;
      while i < |keys|
        invariant 0 <= i <= |keys|
        invariant pending == old(pending)
        invariant q == Cells.Buffered(pending[u], isUpdate, Part(readings, keys[..i]))
      {
        BufferedNext(pending[u], isUpdate, readings, keys, i);
        if isUpdate {
          if keys[i] !in q.updates {
            q := q.(updates := q.updates[keys[i] := readings[keys[i]]]);
          }
        } else if keys[i] !in q.inserts {
          q := q.(inserts := q.inserts[keys[i] := readings[keys[i]]]);
        }
        i := i + 1;
      }
      pending := pending[u := q];
    }

    method BufferReadings(sensor: Sensor, readings: Readings, isUpdate: bool) returns (r: Outcome, ghost now: int)
      requires Linked() && Model.Agreement(State())
      modifies this`pending, this`lastFlush, connection, clock
      ensures Linked() && Model.Agreement(State()) && connection.handlers == old(connection.handlers)
      ensures now == clock.time && old(clock.time) <= clock.time
      ensures (State(), r) == Model.WriteReadings(cfg, old(State()), sensor.uuid, isUpdate, readings, now)
      ensures r.Ok? && readings != map[] && cfg.autoFlush && 0 < cfg.flushTimeout ==>
        clock.time - lastFlush < cfg.flushTimeout
    {
      r, now := Ok, clock.time;
      if readings == map[] {
        return;
      }
      if sensor.uuid !in sensors {
        return Err(UnknownSensor), now;
      }
      ghost var was := State();
      InsertIntoBuffer(sensor.uuid, readings, isUpdate);
      assert State() == Model.Buffer(was, sensor.uuid, isUpdate, readings);
      Model.ReadingsDoNotMatter(was, State());
      r, now := AutoFlush();
      Model.WriteKeepsAgreement(cfg, was, sensor.uuid, isUpdate, readings, now);
    }

    /** After a write, the timer has flushed less than its timeout ago. */
    method AddReading(sensor: Sensor, t: Timestamp, v: real) returns (r: Outcome, ghost now: int)
      requires Valid()
      modifies this`pending, this`lastFlush, connection, clock
      ensures Valid() && now == clock.time && old(clock.time) <= clock.time
      ensures (State(), r) == Model.Apply(cfg, old(State()), Model.Write(sensor.uuid, false, map[t := v], now))
      ensures r.Ok? && cfg.autoFlush && 0 < cfg.flushTimeout ==> clock.time - lastFlush < cfg.flushTimeout
    {
      var readings: Readings := map[t := v];
      assert t in readings;
      r, now := BufferReadings(sensor, readings, false);
    }

    method AddReadings(sensor: Sensor, readings: Readings) returns (r: Outcome, ghost now: int)
      requires Valid()
      modifies this`pending, this`lastFlush, connection, clock
      ensures Valid() && now == clock.time && old(clock.time) <= clock.time
      ensures (State(), r) == Model.Apply(cfg, old(State()), Model.Write(sensor.uuid, false, readings, now))
      ensures r.Ok? && readings != map[] && cfg.autoFlush && 0 < cfg.flushTimeout ==>
        clock.time - lastFlush < cfg.flushTimeout
    {
      r, now := BufferReadings(sensor, readings, false);
    }

    method UpdateReadings(sensor: Sensor, readings: Readings) returns (r: Outcome, ghost now: int)
      requires Valid()
      modifies this`pending, this`lastFlush, connection, clock
      ensures Valid() && now == clock.time && old(clock.time) <= clock.time
      ensures (State(), r) == Model.Apply(cfg, old(State()), Model.Write(sensor.uuid, true, readings, now))
      ensures r.Ok? && readings != map[] && cfg.autoFlush && 0 < cfg.flushTimeout ==>
        clock.time - lastFlush < cfg.flushTimeout
    {
      r, now := BufferReadings(sensor, readings, true);
    }

    /** Readers see what is stored and what is held back: the sensor is flushed first. It must have its
        readings table, which it has, too, after an update that has given it a new external id. */
    method GetAllReadings(sensor: Sensor) returns (r: Outcome, readings: Readings)
      requires Idle() && (sensor.uuid in pending ==> sensor.uuid in connection.db.readings)
      modifies this`pending, connection`db
      ensures Idle() && (old(Valid()) ==> Valid())
      ensures if sensor.uuid in old(pending)
              then r.Ok? && State() == Model.FlushOne(old(State()), sensor.uuid)
                && readings == Cells.Flushed(old(connection.db.readings)[sensor.uuid], old(pending)[sensor.uuid])
              else r == Err(UnknownSensor) && State() == old(State())
      ensures old(Valid()) ==> (State(), r) == Model.Apply(cfg, old(State()), Model.Read(sensor.uuid))
    {
      readings := map[];
      ghost var was := State();
      r := FlushSensor(sensor, true);
      if r.Ok? {
        readings := connection.db.readings[sensor.uuid];
        if Model.Agreement(was) {
          Model.ReadingsDoNotMatter(was, State());
        }
      }
    }

    // ---------- the client's own transactions ----------

    method StartTransaction() returns (r: Outcome)
      requires Valid()
      modifies connection, transaction
      ensures Valid()
      ensures (State(), r) == Model.Apply(cfg, old(State()), Model.Start)
    {
      if cfg.autoCommit {
        return Err(AutoCommitOn);
      }
      PendingIsOpen();
      ghost var was := connection.Link();
      assert Handlers.Pending(was, transaction) == transaction.pending;
      r := transaction.Start();
    }

    /** When the flush throws, the transaction stays open. */
    method CommitTransaction() returns (r: Outcome, ghost done: set<Uuid>, ghost bad: Uuid)
      requires Valid()
      modifies this`pending, connection, transaction
      ensures Valid()
      ensures (State(), r) == Model.Apply(cfg, old(State()), Model.Commit(done, bad))
      ensures Model.Enabled(cfg, old(State()), Model.Commit(done, bad))
      ensures !cfg.autoCommit ==>
        (r.Ok? <==> cfg.autoFlush || forall u :: u in old(sensors) ==> !Model.Conflicts(old(State()), u))
    {
      done, bad := {}, Uuid(0);
      if cfg.autoCommit {
        return Err(AutoCommitOn), done, bad;
      }
      ghost var before := State();
      r, done, bad := FlushAll(cfg.autoFlush);
      Model.ApplyKeepsAgreement(cfg, before, Model.Commit(done, bad));
      if r.Ok? {
        PendingIsOpen();
        ghost var was := connection.Link();
        assert Handlers.Pending(was, transaction) == transaction.pending;
        transaction.Commit();
        assert Handlers.Pending(connection.Link(), transaction) == transaction.pending;
      }
    }

    method RollbackTransaction() returns (r: Outcome)
      requires Valid()
      modifies this`sensors, this`externalIds, this`pending, connection, transaction
      ensures Valid()
      ensures (State(), r) == Model.Apply(cfg, old(State()), Model.Rollback)
    {
      if cfg.autoCommit {
        return Err(AutoCommitOn);
      }
      ghost var before := State();
      PendingIsOpen();
      ghost var was := connection.Link();
      assert Handlers.Pending(was, transaction) == transaction.pending;
      transaction.Rollback();
      ClearBuffers();
      ghost var order := Prepare();
      Caches.PrepareBuildsTheCache(order, connection.db.sensors);
      r := Ok;
      Model.ApplyKeepsAgreement(cfg, before, Model.Rollback);
    }

    // ---------- synchronisation ----------

    /** The sensor of that external id is updated where its properties differ, or else added. */
    method SyncSensorRecord(sensor: Sensor) returns (r: Outcome, local: Sensor)
      requires Model.Agreement(State())
      modifies connection`db
      ensures local == Model.LocalSensor(Buffers(), sensor)
      ensures r == if Model.Clashes(old(State()), sensor) then Err(SensorConflict) else Ok
      ensures connection.db == if r.Ok? then Model.SyncSensor(old(State()), sensor).db else old(connection.db)
    {
      ghost var was := State();
      Model.IndexFindsTheOwner(was, sensor.externalId);
      if sensor.externalId in externalIds {
        var uuid := externalIds[sensor.externalId];
        assert Caches.LeadsTo(externalIds, sensor.externalId, uuid);
        var found := sensors[uuid];
        local, r := Sensor(uuid, sensor.externalId, sensor.meta), Ok;
        Model.KnownRecordUpdates(was, sensor);
        if found.meta != sensor.meta {
          r := Records.UpdateSensorRecord(connection, local);
        }
      } else {
        r := Records.AddSensorRecord(connection, sensor);
        local := sensor;
      }
    }

    /** The part of `sync_reading_records` that concerns the target. */
    method SyncInto(sensor: Sensor, readings: Readings) returns (r: Outcome, ghost now: int)
      requires Linked() && Model.Agreement(State()) && Model.Ready(cfg, State())
      modifies this`sensors, this`externalIds, this`pending, this`lastFlush, connection, clock
      ensures Linked() && connection.handlers == old(connection.handlers)
      ensures now == clock.time && old(clock.time) <= clock.time
      ensures (State(), r) == Model.SyncOne(cfg, old(State()), sensor, readings, now)
    {
      ghost var was := State();
      var local;
      r, local := SyncSensorRecord(sensor);
      now := clock.time;
      if r.Ok? {
        SetBuffers(local);
        Model.SyncSensorKeepsAgreement(was, sensor);
        assert State() == Model.SyncSensor(was, sensor);
        r, now := BufferReadings(local, readings, true);
      }
    }

    method SyncReadingRecords(sensor: Sensor, source: Store) returns (r: Outcome, ghost item: Synchronisation.Item)
      requires Linked() && Model.Agreement(State()) && Model.Ready(cfg, State())
      requires source.Valid() && sensor.uuid in source.sensors
      requires source != this && source.connection != connection
      modifies this`sensors, this`externalIds, this`pending, this`lastFlush, connection, clock
      modifies source`pending, source.connection`db
      ensures source.Valid() && source.State() == Model.FlushOne(old(source.State()), sensor.uuid)
      ensures Linked() && connection.handlers == old(connection.handlers)
      ensures item.sensor == sensor && item.readings == Model.Visible(old(source.State()), sensor.uuid)
      ensures item.now == clock.time && old(clock.time) <= clock.time
      ensures (State(), r) == Model.SyncOne(cfg, old(State()), sensor, item.readings, item.now)
    {
      ghost var was, theirs := State(), source.State();
      var fetched, readings := source.GetAllReadings(sensor);
      assert fetched.Ok? && readings == Model.Visible(theirs, sensor.uuid);
      assert source.State() == Model.FlushOne(theirs, sensor.uuid);
      assert State() == was;
      label Fetched:
      ghost var now;
      r, now := SyncInto(sensor, readings);
      item := Synchronisation.Item(sensor, readings, now);
      assert source.State() == old@Fetched(source.State());
      assert source.Idle() == old@Fetched(source.Idle());
    }

    /** Where the loop of `sync` stands, in both stores. */
    ghost predicate Looping(records: seq<Sensor>, source: Store, was: Model.State, theirs: Model.State,
                            items: seq<Synchronisation.Item>, began: int)
      reads this, connection, connection.handlers, clock, source, source.connection, source.connection.handlers
    {
      && Linked() && Model.Agreement(State()) && Model.Ready(cfg, was)
      && source.Valid() && source != this && source.connection != connection && |items| <= |records|
      && Syncing.Progress(cfg, was, State(), theirs, source.State(), records, items, began, clock.time)
    }

    /** One more record of the source, in the loop of `sync`. */
    method SyncNext(records: seq<Sensor>, i: nat, source: Store, ghost was: Model.State, ghost theirs: Model.State,
                    ghost items: seq<Synchronisation.Item>, ghost began: int)
      returns (r: Outcome, ghost item: Synchronisation.Item)
      requires i == |items| < |records| && Looping(records, source, was, theirs, items, began)
      modifies this`sensors, this`externalIds, this`pending, this`lastFlush, connection, clock
      modifies source`pending, source.connection`db
      ensures Linked() && connection.handlers == old(connection.handlers) && source.Valid()
      ensures r == if Model.Clashes(was, records[i]) then Err(SensorConflict) else Ok
      ensures r.Err? ==>
        && State() == old(State())
        && Syncing.Left(cfg, was, State(), theirs, source.State(), records, items, r, began, clock.time)
      ensures r.Ok? ==> Looping(records, source, was, theirs, items + [item], began)
    {
      ghost var mine, before, now := State(), source.State(), clock.time;
      Syncing.NextRecord(theirs, before, records, items);
      assert Model.Ready(cfg, mine) by {
        Syncing.NextClashes(cfg, was, mine, theirs, before, records, items);
      }
      r, item := SyncReadingRecords(records[i], source);
      Syncing.NextRound(cfg, was, mine, theirs, before, records, items, item, (State(), r), began, now);
    }

    /** The loop of `sync`, inside its transaction. */
    method SyncAll(records: seq<Sensor>, source: Store) returns (r: Outcome, ghost items: seq<Synchronisation.Item>)
      requires Linked() && Model.Agreement(State()) && Model.Ready(cfg, State())
      requires source.Valid() && Enumerates(records, source.connection.db.sensors)
      requires source != this && source.connection != connection
      modifies this`sensors, this`externalIds, this`pending, this`lastFlush, connection, clock
      modifies source`pending, source.connection`db
      ensures Linked() && connection.handlers == old(connection.handlers)
      ensures source.Valid()
      ensures Syncing.Left(cfg, old(State()), State(), old(source.State()), source.State(), records, items, r,
                           old(clock.time), clock.time)
    {
      r, items := Ok, [];
      ghost var was, theirs, began := State(), source.State(), clock.time;
      Syncing.LoopBegins(cfg, was, theirs, records, began);
      var i := 0;
      while i < |records|
        invariant 0 <= i == |items| <= |records| && r.Ok?
        invariant connection.handlers == old(connection.handlers)
        invariant Looping(records, source, was, theirs, items, began)
      {
        ghost var item;
        r, item := SyncNext(records, i, source, was, theirs, items, began);
        if r.Err? {
          return;
        }
        items, i := items + [item], i + 1;
      }
      Syncing.LoopEnds(cfg, was, State(), theirs, source.State(), records, items, began, clock.time);
    }

    /** The end of the transaction is none of the source's business. */
    method EndBeside(handler: SQLite3Transaction, commit: bool, source: Store)
      requires Linked() && handler in connection.handlers && (cfg.autoCommit <==> handler != transaction)
      requires cfg.autoCommit ==> handler.pending
      requires source.Valid() && source != this && source.connection != connection
      requires handler !in source.connection.handlers
      modifies if cfg.autoCommit then {handler} else {}, connection
      ensures Linked()
      ensures connection.handlers == old(connection.handlers) - (if cfg.autoCommit then {handler} else {})
      ensures State() == Syncing.Ended(cfg, old(State()), if commit then Ok else Err(SensorConflict))
      ensures source.Valid() && source.State() == old(source.State()) && clock.time == old(clock.time)
    {
      EndTransaction(handler, commit);
      source.LeftAlone();
    }

    /** What follows the start of its transaction. */
    method SyncAndEnd(handler: SQLite3Transaction, records: seq<Sensor>, source: Store)
      returns (r: Outcome, ghost items: seq<Synchronisation.Item>)
      requires Linked() && Model.Agreement(State()) && Model.Ready(cfg, State())
      requires handler in connection.handlers && (cfg.autoCommit <==> handler != transaction)
      requires cfg.autoCommit ==> handler.pending
      requires source.Valid() && Enumerates(records, source.connection.db.sensors)
      requires source != this && source.connection != connection
      modifies this`sensors, this`externalIds, this`pending, this`lastFlush, connection, clock
      modifies source`pending, source.connection`db
      modifies if cfg.autoCommit then {handler} else {}
      ensures Linked() && connection.handlers == old(connection.handlers) - (if cfg.autoCommit then {handler} else {})
      ensures source.Valid()
      ensures Syncing.Looped(cfg, old(State()), old(source.State()), source.State(), records, items, r)
      ensures State() == Syncing.Ended(cfg, Model.Run(cfg, old(State()), Synchronisation.Steps(items)), r)
      ensures Syncing.During(items, old(clock.time), clock.time)
    {
      assert handler !in source.connection.handlers;
      r, items := SyncAll(records, source);
      EndBeside(handler, r.Ok?, source);
    }

    /** `sync`. It throws exactly when a uuid of the source is taken here by another external id; with
        automatic commits the database is then as before, though the buffers keep what had arrived. */
    method Sync(source: Store)
      returns (r: Outcome, ghost items: seq<Synchronisation.Item>, ghost records: seq<Sensor>)
      requires Valid() && source.Valid()
      requires source != this && source.connection != connection
      modifies this`sensors, this`externalIds, this`pending, this`lastFlush, connection, clock
      modifies source`pending, source.connection`db
      ensures Idle() && source.Valid()
      ensures !Model.Ready(cfg, old(State())) ==>
        r == Err(NoTransaction) && State() == old(State()) && source.State() == old(source.State())
      ensures Model.Ready(cfg, old(State())) ==>
        Syncing.Outcomes(cfg, old(State()), State(), old(source.State()), source.State(), records, items, r)
      ensures if Model.Ready(cfg, old(State()))
              then Valid() <==> r.Ok? || !cfg.autoCommit || AbortedSyncs.AllKnown(old(Buffers()), items)
              else Valid()
      ensures r.Ok? ==> Model.Ready(cfg, old(State()))
      ensures Syncing.During(items, old(clock.time), clock.time)
    {
      items := [];
      ghost var was, theirs := State(), source.State();
      var order := source.connection.SelectSensors();
      records := order;
      var handler, started := AutoStartTransaction();
      source.LeftAlone();
      if started.Err? {
        return started, items, records;
      }
      ghost var inside := connection.snapshot;
      assert State() == was.(snapshot := inside);
      assert Model.Agreement(State()) by {
        Model.FlushInsideATransaction(was, inside);
      }
      r, items := SyncAndEnd(handler, order, source);
      Syncing.LoopedInside(cfg, was, inside, theirs, source.State(), order, items, r);
    }

    // ---------- rotation ----------

    /** Adds a record for every cached sensor to an empty database. */
    method CreateTables(ghost was: Model.State)
      requires Model.Agreement(was) && sensors == was.cache.sensors && connection.db == EMPTY_DATABASE
      modifies connection`db
      ensures connection.db == Model.TablesOf(sensors, sensors.Keys)
    {
      var left := sensors.Keys;
      assert Model.TablesOf(sensors, sensors.Keys - left) == EMPTY_DATABASE;
      while left != {}
        invariant left <= sensors.Keys && connection.db == Model.TablesOf(sensors, sensors.Keys - left)
        decreases left
      {
        var u :| u in left;
        Model.OneMoreTable(was, sensors.Keys - left, u);
        assert sensors.Keys - (left - {u}) == (sensors.Keys - left) + {u};
        var added := Records.AddSensorRecord(connection, sensors[u]);
        left := left - {u};
      }
      assert sensors.Keys - left == sensors.Keys;
    }

    /** Moves the file away and goes on with a new one that has the cached sensors and no readings. */
    method Rotate() returns (r: Outcome, oldFile: Database)
      requires Valid()
      modifies this`connection, connection, transaction
      ensures Valid() && oldFile == old(connection.db)
      ensures (State(), r) == Model.Apply(cfg, old(State()), Model.Rotate)
      ensures if r.Ok? then fresh(connection) else connection == old(connection)
    {
      oldFile := connection.db;
      PendingIsOpen();
      if transaction.pending {
        return Err(NotOpen), oldFile;
      }
      ghost var was := State();
      transaction.connection := null;
      connection := new Connection(EMPTY_DATABASE);
      transaction.connection := connection;
      connection.handlers := {transaction};
      CreateTables(was);
      assert State() == Model.Rotated(was);
      assert Model.Agreement(State()) by {
        Model.RotatedAgrees(was);
      }
      r := Ok;
    }
  }
}
