/** The SQLite connection and the transaction handlers on it. */
module SQLite {
  import opened Types
  import opened Databases
  import Handlers

  /** `sqlite3*`: the tables, the transaction they may be in, and who knows of it. */
  class Connection {
    var db: Database
    var snapshot: Option<Database>
    ghost var handlers: set<SQLite3Transaction>

    /** Opens a file; `initialize` creates only the tables that are missing. */
    constructor (file: Database)
      ensures db == file && snapshot == None && handlers == {}
    {
      db, snapshot, handlers := file, None, {};
    }

    ghost function Link(): Handlers.Link<SQLite3Transaction>
      reads this, handlers
    {
      Handlers.Link(db, snapshot, map h | h in handlers :: h.pending)
    }

    ghost predicate Valid()
      reads this`handlers, this`snapshot, handlers
    {
      && Handlers.SafeFlags(snapshot.Some?, map h | h in handlers :: h.pending)
      && forall h :: h in handlers ==> h.connection == this
    }

    // ---------- transactions ----------

    method Begin() returns (ok: bool)
      modifies this`snapshot
      ensures ok == old(snapshot).None?
      ensures snapshot == if ok then Some(db) else old(snapshot)
    {
      ok := snapshot.None?;
      if ok {
        snapshot := Some(db);
      }
    }

    method Commit() returns (ok: bool)
      modifies this`snapshot
      ensures ok == old(snapshot).Some? && snapshot.None?
    {
      ok := snapshot.Some?;
      snapshot := None;
    }

    method Rollback() returns (ok: bool)
      modifies this`db, this`snapshot
      ensures ok == old(snapshot).Some? && snapshot.None?
      ensures db == if ok then old(snapshot).value else old(db)
    {
      ok := snapshot.Some?;
      if ok {
        db := snapshot.value;
        snapshot := None;
      }
    }

    // ---------- statements ----------

    /** `INSERT INTO sensors`, under the primary key and the unique index on external ids. */
    method InsertSensor(s: Sensor) returns (ok: bool)
      modifies this`db
      ensures ok == (s.uuid !in old(db).sensors && !HasExternalId(old(db).sensors, s.externalId))
      ensures db == if ok then old(db).(sensors := old(db).sensors[s.uuid := s]) else old(db)
    {
      ok := s.uuid !in db.sensors && forall u :: u in db.sensors ==> !Owns(db.sensors, u, s.externalId);
      if ok {
        db := db.(sensors := db.sensors[s.uuid := s]);
      }
    }

    method UpdateSensor(s: Sensor) returns (ok: bool)
      modifies this`db
      ensures ok == (s.uuid in old(db).sensors ==> !UsedByAnother(old(db).sensors, s.uuid, s.externalId))
      ensures db ==
        if s.uuid in old(db).sensors && ok then old(db).(sensors := old(db).sensors[s.uuid := s]) else old(db)
    {
      ok := s.uuid !in db.sensors ||
            forall u :: u in db.sensors && u != s.uuid ==> !Owns(db.sensors, u, s.externalId);
      if s.uuid in db.sensors && ok {
        db := db.(sensors := db.sensors[s.uuid := s]);
      }
    }

    method DeleteSensor(u: Uuid)
      modifies this`db
      ensures db == old(db).(sensors := old(db).sensors - {u})
    {
      db := db.(sensors := db.sensors - {u});
    }

    method CreateReadingsTable(u: Uuid) returns (ok: bool)
      modifies this`db
      ensures ok == (u !in old(db).readings)
      ensures db == if ok then old(db).WithReadings(u, map[]) else old(db)
    {
      ok := u !in db.readings;
      if ok {
        db := db.WithReadings(u, map[]);
      }
    }

    method DropReadingsTable(u: Uuid) returns (ok: bool)
      modifies this`db
      ensures ok == (u in old(db).readings)
      ensures db == old(db).(readings := old(db).readings - {u})
    {
      ok := u in db.readings;
      db := db.(readings := db.readings - {u});
    }

    /** `INSERT` or `INSERT OR REPLACE INTO` the sensor's table. */
    method InsertReading(u: Uuid, t: Timestamp, v: real, orReplace: bool) returns (ok: bool)
      requires u in db.readings
      modifies this`db
      ensures ok == (orReplace || t !in old(db).readings[u])
      ensures db == if ok then old(db).WithReadings(u, old(db).readings[u][t := v]) else old(db)
    {
      ok := orReplace || t !in db.readings[u];
      if ok {
        db := db.WithReadings(u, db.readings[u][t := v]);
      }
    }

    /** `SELECT ... FROM sensors`: the rows in no particular order. */
    method SelectSensors() returns (order: seq<Sensor>)
      requires KeyedByUuid(db.sensors)
      ensures Enumerates(order, db.sensors)
    {
      order := [];
      var left := db.sensors.Keys;
      while left != {}
        invariant left <= db.sensors.Keys
        invariant Enumerates(order, db.sensors - left)
        decreases left
      {
        var u :| u in left;
        ghost var listed := db.sensors - left;
        order, left := order + [db.sensors[u]], left - {u};
        assert db.sensors - left == listed[u := db.sensors[u]];
      }
      assert db.sensors - left == db.sensors;
    }
  }

  class SQLite3Transaction {
    var connection: Connection?
    var pending: bool

    constructor (c: Connection?)
      requires c != null ==> c.Valid()
      modifies c
      ensures connection == c && !pending
      ensures c != null ==>
        c.Valid() && c.handlers == old(c.handlers) + {this} && c.db == old(c.db) && c.snapshot == old(c.snapshot)
      ensures c != null ==> c.Link() == Handlers.Act(old(c.Link()), Handlers.Open(this))
    {
      connection, pending := c, false;
      new;
      if c != null {
        Handlers.ActIsSafe(c.Link(), Handlers.Open(this));
        ghost var was := c.Link();
        c.handlers := c.handlers + {this};
        assert c.Link().pending == Handlers.Act(was, Handlers.Open(this)).pending;
      }
    }

    /** Known to its connection, if it has one. */
    ghost predicate Bound()
      reads this, connection, if connection == null then {} else connection.handlers
    {
      connection != null ==> connection.Valid() && this in connection.handlers
    }

    method Start() returns (r: Outcome)
      requires Bound()
      modifies this`pending, connection
      ensures Bound() && connection == old(connection)
      ensures connection == null ==> r == Err(NotOpen) && pending == old(pending)
      ensures connection != null ==>
        && r == Ok && connection.handlers == old(connection.handlers)
        && connection.Link() == Handlers.Act(old(connection.Link()), Handlers.Start(this))
        && connection.db == old(connection.db)
        && pending == (old(pending) || old(connection.snapshot).None?)
    {
      if connection == null {
        return Err(NotOpen);
      }
      Handlers.ActIsSafe(connection.Link(), Handlers.Start(this));
      ghost var was := connection.Link();
      if !pending {
        var ok := connection.Begin();
        if ok {
          pending := true;
        }
      }
      assert connection.Link().pending == Handlers.Act(was, Handlers.Start(this)).pending;
      r := Ok;
    }

    method Commit()
      requires Bound()
      modifies this`pending, connection
      ensures Bound() && connection == old(connection)
      ensures connection == null ==> pending == old(pending)
      ensures connection != null ==>
        && connection.handlers == old(connection.handlers)
        && connection.Link() == Handlers.Act(old(connection.Link()), Handlers.Commit(this))
        && connection.db == old(connection.db)
    {
      if connection != null {
        Handlers.ActIsSafe(connection.Link(), Handlers.Commit(this));
        ghost var was := connection.Link();
        if pending {
          assert Handlers.Pending(was, this);
          var ok := connection.Commit();
          if ok {
            pending := false;
          }
        }
        assert connection.Link().pending == Handlers.Act(was, Handlers.Commit(this)).pending;
      }
    }

    method Rollback()
      requires Bound()
      modifies this`pending, connection
      ensures Bound() && connection == old(connection)
      ensures connection == null ==> pending == old(pending)
      ensures connection != null ==>
        && connection.handlers == old(connection.handlers)
        && connection.Link() == Handlers.Act(old(connection.Link()), Handlers.Rollback(this))
    {
      if connection != null {
        Handlers.ActIsSafe(connection.Link(), Handlers.Rollback(this));
        ghost var was := connection.Link();
        if pending {
          assert Handlers.Pending(was, this);
          var ok := connection.Rollback();
          if ok {
            pending := false;
          }
        }
        assert connection.Link().pending == Handlers.Act(was, Handlers.Rollback(this)).pending;
      }
    }

    /** `~SQLite3Transaction`: the handler is not used afterwards. */
    method Destroy()
      requires Bound()
      modifies this`pending, connection
      ensures connection == old(connection)
      ensures connection != null ==>
        && connection.Valid() && connection.handlers == old(connection.handlers) - {this}
        && connection.Link() == Handlers.Act(old(connection.Link()), Handlers.Close(this))
    {
      Rollback();
      if connection != null {
        ghost var was := connection.Link();
        Handlers.ActIsSafe(was, Handlers.Close(this));
        connection.handlers := connection.handlers - {this};
        assert connection.Link().pending == was.pending - {this};
      }
    }
  }
}
