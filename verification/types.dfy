/** Values shared by every part of the model: sensors, readings and the outcome of an operation. */
module Types {

  datatype Option<+T> = None | Some(value: T)

  /** A sensor's uuid; only its identity matters. */
  datatype Uuid = Uuid(bits: nat)

  type ExternalId = string

  /** The range in which the SQLite binding (`sqlite3_bind_int`) stores a time stamp unchanged. */
  type Timestamp = t: int | -0x8000_0000 <= t < 0x8000_0000

  /** A `std::map<timestamp_t, double>`: at most one value per time stamp. */
  type Readings = map<Timestamp, real>

  /** The properties of a sensor that synchronisation copies. */
  datatype Metadata = Metadata(name: string, description: string, unit: string, timezone: string, deviceType: int)

  datatype Sensor = Sensor(uuid: Uuid, externalId: ExternalId, meta: Metadata)

  /** Why an operation threw. */
  datatype Reason =
    | AutoCommitOn       // transactions are the store's business
    | NoTransaction      // manual commits, and no transaction was started
    | UnknownSensor
    | SensorConflict     // uuid or external id already in the sensors table
    | TableExists        // the sensor's readings table is already there
    | MissingTable       // the sensor's readings table is not there
    | DuplicateReading
    | NotOpen            // no connection, or a transaction is still open

  datatype Outcome = Ok | Err(reason: Reason)

  /** Two writes to the same key of a map. */
  lemma Overwritten<K, V>(m: map<K, V>, k: K, a: V, b: V)
    ensures m[k := a][k := b] == m[k := b]
    ensures k in m ==> m[k := m[k]] == m
  {
  }

  lemma AddedAndRemoved<T>(s: set<T>, x: T)
    requires x !in s
    ensures s + {x} - {x} == s
  {
  }
}
