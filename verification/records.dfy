/** The record methods of the SQLite store, and the two ways in which `flush` hands its insertions over. */
module Records {
  import opened Types
  import opened Ascending
  import opened Batches
  import opened Databases
  import opened Inserting
  import opened SQLite

  method AddSensorRecord(connection: Connection, sensor: Sensor) returns (r: Outcome)
    modifies connection`db
    ensures (connection.db, r) == old(connection.db).AddSensorRecord(sensor)
  {
    var ok := connection.InsertSensor(sensor);
    if !ok {
      return Err(SensorConflict);
    }
    ok := connection.CreateReadingsTable(sensor.uuid);
    r := if ok then Ok else Err(TableExists);
  }

  method RemoveSensorRecord(connection: Connection, sensor: Sensor) returns (r: Outcome)
    modifies connection`db
    ensures (connection.db, r) == old(connection.db).RemoveSensorRecord(sensor)
  {
    connection.DeleteSensor(sensor.uuid);
    assert sensor.uuid !in connection.db.readings ==> connection.db.readings - {sensor.uuid} == connection.db.readings;
    var ok := connection.DropReadingsTable(sensor.uuid);
    r := if ok then Ok else Err(MissingTable);
  }

  method UpdateSensorRecord(connection: Connection, sensor: Sensor) returns (r: Outcome)
    modifies connection`db
    ensures (connection.db, r) == old(connection.db).UpdateSensorRecord(sensor)
  {
    var ok := connection.UpdateSensor(sensor);
    r := if ok then Ok else Err(SensorConflict);
  }

  method AddReadingRecord(connection: Connection, sensor: Sensor, t: Timestamp, v: real, orReplace: bool,
                          ignoreErrors: bool) returns (r: Outcome)
    requires sensor.uuid in connection.db.readings
    modifies connection`db
    ensures var stored := old(connection.db).readings[sensor.uuid];
      && connection.db == old(connection.db).WithReadings(sensor.uuid,
                            if orReplace || t !in stored then stored[t := v] else stored)
      && r == if orReplace || t !in stored || ignoreErrors then Ok else Err(DuplicateReading)
  {
    var ok := connection.InsertReading(sensor.uuid, t, v, orReplace);
    assert !ok ==> connection.db == connection.db.WithReadings(sensor.uuid, connection.db.readings[sensor.uuid]);
    r := if ok || ignoreErrors then Ok else Err(DuplicateReading);
  }

  /** The small path of `flush`: one statement per reading. */
  method AddSingleReadingRecords(connection: Connection, sensor: Sensor, readings: Readings, ignoreErrors: bool)
    returns (r: Outcome)
    requires sensor.uuid in connection.db.readings
    modifies connection`db
    ensures Done(old(connection.db), connection.db, sensor.uuid, readings, ignoreErrors, r)
  {
    var keys := Enumerate(readings.Keys);
    ghost var was := connection.db;
    Begins(was, sensor.uuid, readings, keys, ignoreErrors);
    var i := 0;
    while i < |keys|
      invariant 0 <= i <= |keys|
      invariant Progress(was, connection.db, sensor.uuid, readings, keys, i, ignoreErrors)
    {
      ghost var before := connection.db;
      r := AddReadingRecord(connection, sensor, keys[i], readings[keys[i]], false, ignoreErrors);
      SingleReading(before, connection.db, sensor.uuid, readings, keys, i, ignoreErrors, r);
      Advances(was, before, connection.db, sensor.uuid, readings, keys, i, i + 1, ignoreErrors, r);
      if r.Err? {
        return;
      }
      i := i + 1;
    }
    Ends(was, connection.db, sensor.uuid, readings, keys, ignoreErrors);
    r := Ok;
  }

  method AddBulkReadingRecords(connection: Connection, sensor: Sensor, readings: Readings, ignoreErrors: bool)
    returns (r: Outcome)
    requires sensor.uuid in connection.db.readings
    modifies connection`db
    ensures Done(old(connection.db), connection.db, sensor.uuid, readings, ignoreErrors, r)
  {
    // The SQLite store has no better way than the loop of the small path.
    r := AddSingleReadingRecords(connection, sensor, readings, ignoreErrors);
  }

  /** The inner loop of the large path: moves readings into the bulk until it is full. */
  method FillBulk(readings: Readings, keys: seq<Timestamp>, start: nat, max: nat) returns (bulk: Readings, reading: nat)
    requires KeysOf(readings, keys) && start <= |keys|
    ensures reading == start + Min(max, |keys| - start)
    ensures bulk == Part(readings, keys[start..reading])
  {
    bulk, reading := map[], start;
    EmptyBulk(readings, keys, start);
    while reading < |keys| && |bulk| < max
      invariant Filling(readings, keys, start, reading, bulk) && |bulk| <= max
    {
      FillingNext(readings, keys, start, reading, bulk);
      bulk, reading := bulk[keys[reading] := readings[keys[reading]]], reading + 1;
    }
  }

  /** One round of the large path: the next bulk is filled and handed over. */
  method InsertBulk(connection: Connection, sensor: Sensor, readings: Readings, keys: seq<Timestamp>, reading: nat,
                    max: nat, ignoreErrors: bool, ghost was: Database, ghost bulks: nat, ghost calls: seq<Readings>)
    returns (r: Outcome, end: nat, ghost bulk: Readings)
    requires sensor.uuid in was.readings && 0 < max && reading <= |keys| && bulks > 0
    requires BulkProgress(was, connection.db, sensor.uuid, readings, keys, reading, ignoreErrors, max, bulks, calls)
    modifies connection`db
    ensures end <= |keys|
    ensures r.Ok? ==>
      BulkProgress(was, connection.db, sensor.uuid, readings, keys, end, ignoreErrors, max, bulks - 1, calls + [bulk])
    ensures r.Err? ==>
      Done(was, connection.db, sensor.uuid, readings, ignoreErrors, r) && calls + [bulk] <= BulksOf(readings, max)
  {
    var filled;
    filled, end := FillBulk(readings, keys, reading, max);
    bulk := filled;
    ghost var before := connection.db;
    r := AddBulkReadingRecords(connection, sensor, filled, ignoreErrors);
    BulksAdvance(was, before, connection.db, sensor.uuid, readings, keys, reading, end, ignoreErrors, max, bulks,
                 calls, bulk, r);
  }

  /** The large path of `flush`: as many bulks as needed. `calls` are the batches handed over. */
  method InsertInBulks(connection: Connection, sensor: Sensor, readings: Readings, max: nat, ignoreErrors: bool)
    returns (r: Outcome, ghost calls: seq<Readings>)
    requires sensor.uuid in connection.db.readings && 0 < max
    modifies connection`db
    ensures Done(old(connection.db), connection.db, sensor.uuid, readings, ignoreErrors, r)
    ensures calls <= BulksOf(readings, max)
    ensures r.Ok? ==> calls == BulksOf(readings, max)
  {
    var keys := Enumerate(readings.Keys);
    var reading, bulks := 0, CeilDiv(|readings|, max);
    calls := [];
    ghost var was := connection.db;
    BulksBegin(was, sensor.uuid, readings, keys, ignoreErrors, max);
    while bulks > 0
      invariant 0 <= reading <= |keys|
      invariant BulkProgress(was, connection.db, sensor.uuid, readings, keys, reading, ignoreErrors, max, bulks, calls)
    {
      ghost var bulk;
      r, reading, bulk := InsertBulk(connection, sensor, readings, keys, reading, max, ignoreErrors, was, bulks, calls);
      bulks, calls := bulks - 1, calls + [bulk];
      if r.Err? {
        return;
      }
    }
    BulksEnd(was, connection.db, sensor.uuid, readings, keys, reading, ignoreErrors, max, calls);
    r := Ok;
  }

  method UpdateReadingRecords(connection: Connection, sensor: Sensor, readings: Readings, ignoreErrors: bool)
    returns (r: Outcome)
    requires sensor.uuid in connection.db.readings
    modifies connection`db
    ensures r.Ok?
    ensures connection.db ==
      old(connection.db).WithReadings(sensor.uuid, old(connection.db).readings[sensor.uuid] + readings)
  {
    var keys := Enumerate(readings.Keys);
    ghost var was := connection.db;
    UpdatesBegin(was, sensor.uuid, readings, keys);
    var i := 0;
    while i < |keys|
      invariant 0 <= i <= |keys| && Updated(was, connection.db, sensor.uuid, readings, keys, i)
    {
      ghost var before := connection.db;
      r := AddReadingRecord(connection, sensor, keys[i], readings[keys[i]], true, ignoreErrors);
      UpdatesAdvance(was, before, connection.db, sensor.uuid, readings, keys, i);
      i := i + 1;
    }
    UpdatesEnd(was, connection.db, sensor.uuid, readings, keys);
    r := Ok;
  }
}
