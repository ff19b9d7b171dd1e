/** What clients do with stores, call by call. */
module Clients {
  import opened Types
  import opened Databases
  import opened Merging
  import opened Stores
  import opened StoreModel
  import opened Synchronisation
  import opened Staleness
  import Caches
  import Cells
  import Clocks

  // ---------- any calls ----------

  /** The calls that a client can make on one store. */
  datatype Call =
    | CallAdd(sensor: Sensor)
    | CallRemove(sensor: Sensor)
    | CallUpdate(sensor: Sensor)
    | CallWrite(sensor: Sensor, isUpdate: bool, readings: Readings)
    | CallFlush(ignoreErrors: bool)
    | CallRead(sensor: Sensor)
    | CallStart
    | CallCommit
    | CallRollback
    | CallRotate

  /** A handle to update or to remove a sensor by has its registered external id. */
  predicate Handles(sensors: SensorTable, call: Call) {
    match call
    case CallRemove(s) => s.uuid in sensors ==> Owns(sensors, s.uuid, s.externalId)
    case CallUpdate(s) => Owns(sensors, s.uuid, s.externalId)
    case _ => true
  }

  /** The step is the one of the call. */
  predicate Takes(call: Call, step: Step) {
    match call
    case CallAdd(s) => step == AddSensor(s)
    case CallRemove(s) => step == RemoveSensor(s)
    case CallUpdate(s) => step == UpdateSensor(s)
    case CallWrite(s, isUpdate, readings) =>
      step.Write? && step.uuid == s.uuid && step.isUpdate == isUpdate && step.batch == readings
    case CallFlush(ignoreErrors) => if ignoreErrors then step.Flush? else step.StrictFlush?
    case CallRead(s) => step == Read(s.uuid)
    case CallStart => step.Start?
    case CallCommit => step.Commit?
    case CallRollback => step.Rollback?
    case CallRotate => step.Rotate?
  }

  method PerformWrite(store: Store, sensor: Sensor, isUpdate: bool, readings: Readings)
    returns (r: Outcome, ghost step: Step)
    requires store.Valid()
    modifies store`pending, store`lastFlush, store.connection, store.clock
    ensures store.Valid() && step == Write(sensor.uuid, isUpdate, readings, store.clock.time)
    ensures (store.State(), r) == Apply(store.cfg, old(store.State()), step)
    ensures old(store.clock.time) <= store.clock.time
  {
    ghost var now;
    if isUpdate {
      r, now := store.UpdateReadings(sensor, readings);
    } else {
      r, now := store.AddReadings(sensor, readings);
    }
    step := Write(sensor.uuid, isUpdate, readings, now);
  }

  method PerformOnSensors(store: Store, call: Call) returns (r: Outcome, ghost step: Step)
    requires store.Valid() && Handles(store.sensors, call)
    requires call.CallAdd? || call.CallRemove? || call.CallUpdate?
    modifies store, store.connection
    ensures store.Valid() && store.connection == old(store.connection)
    ensures Takes(call, step) && Enabled(store.cfg, old(store.State()), step) && !Timed(step)
    ensures (store.State(), r) == Apply(store.cfg, old(store.State()), step)
  {
    match call
    case CallAdd(s) =>
      r := store.AddSensor(s);
      step := AddSensor(s);
    case CallRemove(s) =>
      r := store.RemoveSensor(s);
      step := RemoveSensor(s);
    case CallUpdate(s) =>
      r := store.UpdateSensor(s);
      step := UpdateSensor(s);
  }

  method PerformOnFile(store: Store, call: Call) returns (r: Outcome, ghost step: Step)
    requires store.Valid() && (call.CallStart? || call.CallCommit? || call.CallRollback? || call.CallRotate?)
    modifies store, store.connection, store.transaction
    ensures store.Valid() && (store.connection == old(store.connection) || fresh(store.connection))
    ensures Takes(call, step) && Enabled(store.cfg, old(store.State()), step) && !Timed(step)
    ensures (store.State(), r) == Apply(store.cfg, old(store.State()), step)
  {
    match call
    case CallStart =>
      r := store.StartTransaction();
      step := Start;
    case CallCommit =>
      ghost var done, bad;
      r, done, bad := store.CommitTransaction();
      step := Commit(done, bad);
    case CallRollback =>
      r := store.RollbackTransaction();
      step := Rollback;
    case CallRotate =>
      var file;
      r, file := store.Rotate();
      step := Rotate;
  }

  /** Every call takes its step, and reads the clock forwards. */
  method Perform(store: Store, call: Call) returns (r: Outcome, ghost step: Step)
    requires store.Valid() && Handles(store.sensors, call)
    modifies store, store.connection, store.transaction, store.clock
    ensures store.Valid() && (store.connection == old(store.connection) || fresh(store.connection))
    ensures Takes(call, step) && Enabled(store.cfg, old(store.State()), step)
    ensures (store.State(), r) == Apply(store.cfg, old(store.State()), step)
    ensures old(store.clock.time) <= store.clock.time
    ensures Timed(step) ==> step.now == store.clock.time
  {
    ghost var done, bad;
    match call
    case CallWrite(s, isUpdate, readings) =>
      r, step := PerformWrite(store, s, isUpdate, readings);
    case CallFlush(ignoreErrors) =>
      r, done, bad := store.Flush(ignoreErrors);
      step := if ignoreErrors then Flush else StrictFlush(done, bad);
    case CallRead(s) =>
      var readings;
      r, readings := store.GetAllReadings(s);
      step := Read(s.uuid);
    case CallAdd(_) => r, step := PerformOnSensors(store, call);
    case CallRemove(_) => r, step := PerformOnSensors(store, call);
    case CallUpdate(_) => r, step := PerformOnSensors(store, call);
    case _ => r, step := PerformOnFile(store, call);
  }

  /** The calls made so far are a run, by a clock that does not go back. */
  ghost predicate RunBy(cfg: Config, st0: State, st: State, steps: seq<Step>, began: int, now: int)
    requires Agreement(st0)
  {
    && Runnable(cfg, st0, steps) && st == Run(cfg, st0, steps)
    && Clocked(steps, began) && Latest(steps, began) <= now
  }

  /** One step for each call, but for those by a handle that was out of date. */
  ghost predicate Made(cfg: Config, st0: State, calls: seq<Call>, steps: seq<Step>)
    requires Agreement(st0)
    decreases |calls|
  {
    if calls == [] then steps == []
    else
      var before, call := calls[..|calls|-1], calls[|calls|-1];
      || (LeftOut(cfg, st0, steps, call) && Made(cfg, st0, before, steps))
      || (steps != [] && Takes(call, steps[|steps|-1]) && Made(cfg, st0, before, steps[..|steps|-1]))
  }

  /** After these steps the call's handle is out of date. */
  ghost predicate LeftOut(cfg: Config, st0: State, steps: seq<Step>, call: Call)
    requires Agreement(st0)
  {
    Runnable(cfg, st0, steps) && !Handles(Run(cfg, st0, steps).cache.sensors, call)
  }

  lemma {:induction false} MadeNext(cfg: Config, st0: State, calls: seq<Call>, steps: seq<Step>, call: Call, step: Step)
    requires Agreement(st0) && Made(cfg, st0, calls, steps) && Takes(call, step)
    ensures Made(cfg, st0, calls + [call], steps + [step])
  {
    assert (calls + [call])[..|calls|] == calls && (steps + [step])[..|steps|] == steps;
  }

  lemma {:induction false} ClockedLast(steps: seq<Step>, last: Step, began: int, now: int)
    requires Clocked(steps, began) && Latest(steps, began) <= now && (Timed(last) ==> now <= last.now)
    ensures Clocked(steps + [last], began)
    ensures Latest(steps + [last], began) <= if Timed(last) then last.now else now
    decreases |steps|
  {
    if steps == [] {
      assert [] + [last] == [last] && [last][1..] == [];
    } else {
      assert (steps + [last])[1..] == steps[1..] + [last];
      ClockedLast(steps[1..], last, if Timed(steps[0]) then steps[0].now else began, now);
    }
  }

  lemma {:induction false} OneMoreCall(cfg: Config, st0: State, st: State, steps: seq<Step>, began: int, now: int,
                                       step: Step, later: int)
    requires Agreement(st0) && RunBy(cfg, st0, st, steps, began, now) && now <= later
    requires Agreement(st) && Enabled(cfg, st, step) && (Timed(step) ==> step.now == later)
    ensures RunBy(cfg, st0, Apply(cfg, st, step).0, steps + [step], began, later)
  {
    RunLast(cfg, st0, steps, step);
    ClockedLast(steps, step, began, now);
  }

  /** Whatever calls are made, the store goes through a run of the state machine. Calls by a handle that
      is out of date are left out. */
  method Drive(store: Store, calls: seq<Call>) returns (ghost steps: seq<Step>)
    requires store.Valid()
    modifies store, store.connection, store.transaction, store.clock
    ensures store.Valid() && (store.connection == old(store.connection) || fresh(store.connection))
    ensures old(store.clock.time) <= store.clock.time && Made(store.cfg, old(store.State()), calls, steps)
    ensures RunBy(store.cfg, old(store.State()), store.State(), steps, old(store.clock.time), store.clock.time)
  {
    steps := [];
    ghost var was, began := store.State(), store.clock.time;
    var i := 0;
    while i < |calls|
      invariant 0 <= i <= |calls|
      invariant store.Valid() && (store.connection == old(store.connection) || fresh(store.connection))
      invariant began <= store.clock.time && Made(store.cfg, was, calls[..i], steps)
      invariant RunBy(store.cfg, was, store.State(), steps, began, store.clock.time)
    {
      ghost var before, now := store.State(), store.clock.time;
      assert calls[..i+1][..i] == calls[..i];
      if Handles(store.sensors, calls[i]) {
        var r;
        ghost var step;
        r, step := Perform(store, calls[i]);
        OneMoreCall(store.cfg, was, before, steps, began, now, step, store.clock.time);
        MadeNext(store.cfg, was, calls[..i], steps, calls[i], step);
        assert calls[..i+1] == calls[..i] + [calls[i]];
        steps := steps + [step];
      }
      i := i + 1;
    }
    assert calls[..i] == calls;
  }

  // ---------- how old a reading held back gets ----------

  /** Each reading that is held back was accepted at or after `since`. */
  ghost predicate AllSince(log: seq<Accepted>, pending: map<Uuid, Cells.Pending>, since: int) {
    forall u, isUpdate, t {:trigger Held(pending[u], isUpdate)[t]} ::
      u in pending && t in Held(pending[u], isUpdate) ==>
        AcceptedSince(log, since, u, isUpdate, t, Held(pending[u], isUpdate)[t])
  }

  lemma FreshIsSince(log: seq<Accepted>, st: State, since: int)
    requires Fresh(log, st) && since <= st.lastFlush
    ensures AllSince(log, st.cache.pending, since)
  {
    forall u, isUpdate, t | u in st.cache.pending && t in Held(st.cache.pending[u], isUpdate)
      ensures AcceptedSince(log, since, u, isUpdate, t, Held(st.cache.pending[u], isUpdate)[t])
    {
      var p, v := st.cache.pending[u], Held(st.cache.pending[u], isUpdate)[t];
      var i :| 0 <= i < |log| && log[i].uuid == u && log[i].isUpdate == isUpdate
             && t in log[i].batch && log[i].batch[t] == v && st.lastFlush <= log[i].now;
    }
  }

  lemma {:induction false} RunStaysFresh(cfg: Config, st0: State, st: State, steps: seq<Step>, began: int, now: int)
    requires Agreement(st0) && RunBy(cfg, st0, st, steps, began, now)
    requires cfg.autoCommit && st0.lastFlush <= began && Fresh([], st0)
    ensures Fresh(Log(cfg, st0, steps), st) && st.lastFlush <= now
  {
    HeldReadingsAreFresh(cfg, [], st0, steps, began);
    assert [] + Log(cfg, st0, steps) == Log(cfg, st0, steps);
  }

  /** With timer and automatic commits, after any calls and a write that goes through, every reading that
      is still held back has been accepted less than the timeout ago. */
  method Record(store: Store, calls: seq<Call>, sensor: Sensor, readings: Readings)
    returns (r: Outcome, ghost steps: seq<Step>)
    requires store.Valid() && store.cfg.autoCommit && store.cfg.autoFlush && 0 < store.cfg.flushTimeout
    requires store.lastFlush <= store.clock.time
    requires forall u :: u in store.pending ==> store.pending[u] == Cells.NOTHING
    modifies store, store.connection, store.transaction, store.clock
    ensures store.Valid() && Made(store.cfg, old(store.State()), calls + [CallWrite(sensor, false, readings)], steps)
    ensures RunBy(store.cfg, old(store.State()), store.State(), steps, old(store.clock.time), store.clock.time)
    ensures r.Ok? && readings != map[] ==>
      AllSince(Log(store.cfg, old(store.State()), steps), store.pending,
               store.clock.time - store.cfg.flushTimeout + 1)
  {
    ghost var was, began := store.State(), store.clock.time;
    steps := Drive(store, calls);
    ghost var before, now := store.State(), store.clock.time;
    ghost var time;
    r, time := store.AddReadings(sensor, readings);
    ghost var step := Write(sensor.uuid, false, readings, time);
    OneMoreCall(store.cfg, was, before, steps, began, now, step, time);
    MadeNext(store.cfg, was, calls, steps, CallWrite(sensor, false, readings), step);
    steps := steps + [step];
    RunStaysFresh(store.cfg, was, store.State(), steps, began, time);
    if r.Ok? && readings != map[] {
      FreshIsSince(Log(store.cfg, was, steps), store.State(), store.clock.time - store.cfg.flushTimeout + 1);
    }
  }

  // ---------- a new external id ----------

  /** Gives a sensor a new external id and reopens the file: it is found under that id, with all that
      readers saw before. */
  method Rename(store: Store, sensor: Sensor) returns (readings: Readings, reopened: Store)
    requires store.Valid() && store.cfg.autoCommit && sensor.uuid in store.sensors
    requires sensor.externalId !in store.externalIds
    modifies store, store.connection
    ensures readings == Visible(old(store.State()), sensor.uuid)
    ensures reopened.Valid() && reopened.sensors == old(store.sensors)[sensor.uuid := sensor]
    ensures Caches.LeadsTo(reopened.externalIds, sensor.externalId, sensor.uuid)
    ensures Visible(reopened.State(), sensor.uuid) == readings
  {
    ghost var was := store.State();
    IndexFindsTheOwner(was, sensor.externalId);
    UpdateEffect(store.cfg, was, sensor);
    var r := store.UpdateSensor(sensor);
    assert !Caches.Stable(was.cache, sensor);
    r, readings := store.GetAllReadings(sensor);
    OpeningAgrees(store.connection.db);
    reopened := Store.Open(store.cfg, store.clock, store.connection.db);
    Cells.NothingPendingShowsTheStored(readings);
  }

  // ---------- two stores ----------

  /** Brings two stores to the same content. Neither call throws, and the content is that of `a` overridden
      by that of `b` exactly if `a` loses nothing it holds back. */
  method SyncBothWays(a: Store, b: Store) returns (ghost fromB: seq<Item>)
    requires a.Valid() && b.Valid() && a != b && a.connection != b.connection
    requires Ready(a.cfg, a.State()) && Ready(b.cfg, b.State()) && NoUuidClash(a.State(), b.State())
    modifies a`sensors, a`externalIds, a`pending, a`lastFlush, a.connection
    modifies b`sensors, b`externalIds, b`pending, b`lastFlush, b.connection, a.clock, b.clock
    ensures a.Valid() && b.Valid() && Entries(a.State()) == Entries(b.State())
    ensures ItemsOf(fromB, old(b.State()))
    ensures Entries(a.State()) == Override(Entries(old(a.State())), Entries(old(b.State()))) <==>
      forall j :: 0 <= j < |fromB| ==> KeepsOwn(a.cfg, old(a.State()), fromB, j)
  {
    ghost var a0, b0 := a.State(), b.State();
    NoUuidClashNoItemClash(a0, b0);
    var r;
    ghost var records, fromA;
    r, fromB, records := a.Sync(b);
    assert r.Ok?;
    ghost var a1 := a.State();
    NoClashOnTheWayBack(a.cfg, a0, b0, fromB);
    r, fromA, records := b.Sync(a);
    assert r.Ok?;
    TwoWaySyncConverges(a.cfg, b.cfg, a0, b0, fromB, fromA);
  }
}
