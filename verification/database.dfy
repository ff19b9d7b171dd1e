/** The SQLite file as two tables: the sensors, and one table of readings per sensor. */
module Databases {
  import opened Types

  type SensorTable = map<Uuid, Sensor>

  predicate Owns(sensors: SensorTable, u: Uuid, e: ExternalId) {
    u in sensors && sensors[u].externalId == e
  }

  ghost predicate UniqueExternalIds(sensors: SensorTable) {
    forall u, v, e {:trigger Owns(sensors, u, e), Owns(sensors, v, e)} ::
      Owns(sensors, u, e) && Owns(sensors, v, e) ==> u == v
  }

  ghost predicate KeyedByUuid(sensors: SensorTable) {
    forall u :: u in sensors ==> sensors[u].uuid == u
  }

  ghost predicate HasExternalId(sensors: SensorTable, e: ExternalId) {
    exists u :: Owns(sensors, u, e)
  }

  ghost function OwnerOf(sensors: SensorTable, e: ExternalId): (u: Uuid)
    requires HasExternalId(sensors, e)
    ensures Owns(sensors, u, e)
  {
    var u :| Owns(sensors, u, e); u
  }

  ghost predicate UsedByAnother(sensors: SensorTable, u: Uuid, e: ExternalId) {
    exists v :: v != u && Owns(sensors, v, e)
  }

  lemma OneMoreSensor(sensors: SensorTable, s: Sensor)
    requires UniqueExternalIds(sensors) && !UsedByAnother(sensors, s.uuid, s.externalId)
    ensures UniqueExternalIds(sensors[s.uuid := s])
  {
    var more := sensors[s.uuid := s];
    forall u, v, e | Owns(more, u, e) && Owns(more, v, e) ensures u == v {
      assert u != s.uuid ==> Owns(sensors, u, e);
      assert v != s.uuid ==> Owns(sensors, v, e);
    }
  }

  lemma FewerSensors(sensors: SensorTable, fewer: SensorTable)
    requires UniqueExternalIds(sensors)
    requires forall u :: u in fewer ==> u in sensors && fewer[u] == sensors[u]
    ensures UniqueExternalIds(fewer)
  {
    forall u, v, e | Owns(fewer, u, e) && Owns(fewer, v, e) ensures u == v {
      assert Owns(sensors, u, e) && Owns(sensors, v, e);
    }
  }

  datatype Database = Database(sensors: SensorTable, readings: map<Uuid, Readings>) {

    /** The primary key, the unique index on external ids, and a readings table for each sensor. */
    ghost predicate Consistent() {
      KeyedByUuid(sensors) && UniqueExternalIds(sensors) && sensors.Keys == readings.Keys
    }

    /** `INSERT INTO sensors`, then `CREATE TABLE`. The row of the first statement stays behind when
        the second one fails; undoing it is the transaction's business. */
    ghost function AddSensorRecord(s: Sensor): (Database, Outcome) {
      if s.uuid in sensors || HasExternalId(sensors, s.externalId) then
        (this, Err(SensorConflict))
      else if s.uuid in readings then
        (this.(sensors := sensors[s.uuid := s]), Err(TableExists))
      else
        (Database(sensors[s.uuid := s], readings[s.uuid := map[]]), Ok)
    }

    /** `DELETE FROM sensors`, then `DROP TABLE`. */
    function RemoveSensorRecord(s: Sensor): (Database, Outcome) {
      if s.uuid in readings then
        (Database(sensors - {s.uuid}, readings - {s.uuid}), Ok)
      else
        (this.(sensors := sensors - {s.uuid}), Err(MissingTable))
    }

    /** `UPDATE sensors ... WHERE uuid = ?`: an unknown uuid changes no row and raises no error. */
    ghost function UpdateSensorRecord(s: Sensor): (Database, Outcome) {
      if s.uuid !in sensors then
        (this, Ok)
      else if UsedByAnother(sensors, s.uuid, s.externalId) then
        (this, Err(SensorConflict))
      else
        (this.(sensors := sensors[s.uuid := s]), Ok)
    }

    function WithReadings(u: Uuid, rs: Readings): Database {
      this.(readings := readings[u := rs])
    }
  }

  lemma LastWriteStays(db: Database, u: Uuid, a: Readings, b: Readings)
    ensures db.WithReadings(u, a).WithReadings(u, b) == db.WithReadings(u, b)
    ensures u in db.readings ==> db.WithReadings(u, db.readings[u]) == db
  {
    Overwritten(db.readings, u, a, b);
  }

  /** The statements on the sensors table keep the constraints; one that throws has changed nothing. */
  lemma RecordsKeepConsistency(db: Database, s: Sensor)
    requires db.Consistent()
    ensures db.AddSensorRecord(s).0.Consistent() && (db.AddSensorRecord(s).1.Err? ==> db.AddSensorRecord(s).0 == db)
    ensures db.RemoveSensorRecord(s).0.Consistent() &&
      (db.RemoveSensorRecord(s).1.Err? ==> db.RemoveSensorRecord(s).0 == db)
    ensures db.UpdateSensorRecord(s).0.Consistent() &&
      (db.UpdateSensorRecord(s).1.Err? ==> db.UpdateSensorRecord(s).0 == db)
  {
    if !UsedByAnother(db.sensors, s.uuid, s.externalId) {
      OneMoreSensor(db.sensors, s);
    }
    FewerSensors(db.sensors, db.sensors - {s.uuid});
  }

  /** Also without the constraints: each statement does its part, and the outcome is that of the one that
      fails. */
  lemma StatementEffects(db: Database, s: Sensor)
    ensures var r := db.AddSensorRecord(s);
      var taken := s.uuid in db.sensors || HasExternalId(db.sensors, s.externalId);
      && r.0.sensors == (if taken then db.sensors else db.sensors[s.uuid := s])
      && r.0.readings == (if taken || s.uuid in db.readings then db.readings else db.readings[s.uuid := map[]])
      && r.1 == if taken then Err(SensorConflict) else if s.uuid in db.readings then Err(TableExists) else Ok
    ensures var r := db.RemoveSensorRecord(s);
      && r.0.sensors == db.sensors - {s.uuid} && r.0.readings == db.readings - {s.uuid}
      && r.1 == if s.uuid in db.readings then Ok else Err(MissingTable)
    ensures var r := db.UpdateSensorRecord(s); var taken := UsedByAnother(db.sensors, s.uuid, s.externalId);
      && r.0.readings == db.readings
      && r.0.sensors == (if s.uuid in db.sensors && !taken then db.sensors[s.uuid := s] else db.sensors)
      && r.1 == if s.uuid in db.sensors && taken then Err(SensorConflict) else Ok
  {
    assert s.uuid !in db.readings ==> db.readings - {s.uuid} == db.readings;
  }

  const EMPTY_DATABASE := Database(map[], map[])

  /** Some order in which `SELECT ... FROM sensors` returns the rows. */
  ghost predicate Enumerates(order: seq<Sensor>, sensors: SensorTable) {
    && (forall i :: 0 <= i < |order| ==> order[i].uuid in sensors && sensors[order[i].uuid] == order[i])
    && (forall u :: u in sensors ==> sensors[u] in order)
    && (forall i, j :: 0 <= i < j < |order| ==> order[i].uuid != order[j].uuid)
  }
}
