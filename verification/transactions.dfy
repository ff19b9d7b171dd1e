/** Manual transactions over whole runs: what a rollback undoes and what a commit makes permanent. */
module Transactions {
  import opened Types
  import opened Databases
  import opened Caches
  import opened StoreModel
  import Batches
  import Cells

  /** A rollback or commit that goes through. */
  ghost predicate Ends(cfg: Config, st: State, step: Step)
    requires Agreement(st)
  {
    (step.Commit? || step.Rollback?) && Apply(cfg, st, step).1.Ok?
  }

  /** Any steps, flushes and commits that throw included, as long as none ends the transaction. */
  ghost predicate StaysOpen(cfg: Config, st: State, steps: seq<Step>)
    requires Agreement(st) && Runnable(cfg, st, steps)
    decreases |steps|
  {
    steps == [] ||
    (!Ends(cfg, st, steps[0]) &&
     (ApplyKeepsAgreement(cfg, st, steps[0]); StaysOpen(cfg, Apply(cfg, st, steps[0]).0, steps[1..])))
  }

  lemma {:induction false} SnapshotStays(cfg: Config, st: State, steps: seq<Step>)
    requires Agreement(st) && Runnable(cfg, st, steps)
    requires st.snapshot.Some? && StaysOpen(cfg, st, steps)
    ensures Run(cfg, st, steps).snapshot == st.snapshot
    decreases |steps|
  {
    if steps != [] {
      ApplyKeepsAgreement(cfg, st, steps[0]);
      StepKeepsSnapshot(cfg, st, steps[0]);
      SnapshotStays(cfg, Apply(cfg, st, steps[0]).0, steps[1..]);
    }
  }

  lemma StepKeepsSnapshot(cfg: Config, st: State, step: Step)
    requires Agreement(st) && Enabled(cfg, st, step) && st.snapshot.Some? && !Ends(cfg, st, step)
    ensures Apply(cfg, st, step).0.snapshot == st.snapshot
  {
    match step
    case StrictFlush(done, bad) => StrictFlushKeepsAgreement(st, done, bad);
    case Commit(done, bad) => StrictFlushKeepsAgreement(st, done, bad);
    case _ =>
  }

  ghost function Started(cfg: Config, st: State): (r: State)
    requires Agreement(st)
    ensures Agreement(r)
  {
    ApplyKeepsAgreement(cfg, st, Start);
    Apply(cfg, st, Start).0
  }

  /** Whatever happened since the transaction was started, rolling back restores the database, drops
      every reading held back, and leaves the buffers as a freshly prepared store would have them,
      in whatever order that store reads the records. */
  lemma {:induction false} RollbackUndoesTheRun(cfg: Config, st: State, steps: seq<Step>, order: seq<Sensor>)
    requires !cfg.autoCommit && Agreement(st) && st.snapshot.None?
    requires Runnable(cfg, Started(cfg, st), steps) && StaysOpen(cfg, Started(cfg, st), steps)
    requires Enumerates(order, st.db.sensors)
    ensures var r := Apply(cfg, Run(cfg, Started(cfg, st), steps), Rollback);
      && r.1.Ok? && r.0.db == st.db && r.0.snapshot.None?
      && r.0.cache == Prepare(EMPTY_CACHE, order)
      && forall u :: u in r.0.cache.pending ==> r.0.cache.pending[u] == Cells.NOTHING
  {
    SnapshotStays(cfg, Started(cfg, st), steps);
    PrepareBuildsTheCache(order, st.db.sensors);
  }

  /** A commit goes through exactly if it ignores duplicates or there is none, and then the database
      holds what was visible. */
  lemma CommitStores(cfg: Config, st: State, done: set<Uuid>, bad: Uuid)
    requires !cfg.autoCommit && Agreement(st) && Enabled(cfg, st, Commit(done, bad))
    ensures Apply(cfg, st, Commit(done, bad)).1.Ok? <==> cfg.autoFlush || Unconflicted(st)
    ensures var r := Apply(cfg, st, Commit(done, bad));
      r.1.Ok? ==>
        && Agreement(r.0) && r.0.snapshot.None? && r.0.db.sensors == st.db.sensors
        && forall u :: u in st.cache.sensors ==> r.0.db.readings[u] == Visible(st, u)
  {
    ApplyKeepsAgreement(cfg, st, Commit(done, bad));
  }

  /** What a commit has made permanent stays: of everything that is done in the next transaction nothing
      is left after its rollback, and the database holds for every sensor what readers saw just before
      the commit, whatever steps the first transaction consisted of. */
  lemma {:induction false} CommitOutlivesRollback(cfg: Config, st: State, first: seq<Step>, done: set<Uuid>, bad: Uuid,
                                                 second: seq<Step>)
    requires !cfg.autoCommit && Agreement(st)
    requires Runnable(cfg, Started(cfg, st), first)
    requires var before := Run(cfg, Started(cfg, st), first);
      && Enabled(cfg, before, Commit(done, bad)) && Apply(cfg, before, Commit(done, bad)).1.Ok?
      && var committed := Apply(cfg, before, Commit(done, bad)).0;
         Agreement(committed) ==>
           Runnable(cfg, Started(cfg, committed), second) && StaysOpen(cfg, Started(cfg, committed), second)
    ensures var before := Run(cfg, Started(cfg, st), first);
      var committed := Apply(cfg, before, Commit(done, bad)).0;
      && Agreement(committed) && committed.snapshot.None?
      && var after := Apply(cfg, Run(cfg, Started(cfg, committed), second), Rollback).0;
         && after.db.sensors == before.db.sensors
         && forall u :: u in before.cache.sensors ==>
              u in after.db.readings && after.db.readings[u] == Visible(before, u)
  {
    var before := Run(cfg, Started(cfg, st), first);
    CommitStores(cfg, before, done, bad);
    var committed := Apply(cfg, before, Commit(done, bad)).0;
    SnapshotStays(cfg, Started(cfg, committed), second);
  }

  /** What is held back for a sensor whose flush is undone together with one that threw. */
  lemma UndoneFlushCell(st: State, done: set<Uuid>, bad: Uuid, u: Uuid)
    requires Agreement(st) && StopsAt(st, done, bad) && u in st.cache.sensors
    ensures var after := Stopped(st, done, bad).(db := st.db);
      && Agreement(after) && u in after.cache.sensors
      && CellAt(after, u) == if u in done then Cells.Cell(st.db.readings[u], Cells.NOTHING) else CellAt(st, u)
  {
    StoppedKeeps(st, done, bad);
  }

  /** A flush that throws with automatic commits is atomic for the database but not for the buffers:
      readers of a sensor see the same as before exactly if it had not been flushed yet, or if it had no
      insertion held back and no update but those that are stored already. */
  lemma AbortedFlushLosesIff(st: State, done: set<Uuid>, bad: Uuid, u: Uuid)
    requires Agreement(st) && StopsAt(st, done, bad) && u in st.cache.sensors
    ensures var after := Stopped(st, done, bad).(db := st.db);
      var p := st.cache.pending[u]; var stored := st.db.readings[u];
      && Agreement(after) && u in after.cache.sensors
      && (Visible(after, u) == Visible(st, u) <==>
            || u !in done
            || (p.inserts == map[] && forall t :: t in p.updates ==> t in stored && stored[t] == p.updates[t]))
  {
    UndoneFlushCell(st, done, bad, u);
    Cells.NothingPendingShowsTheStored(st.db.readings[u]);
    if u in done {
      FlushedIsStoredIff(st.db.readings[u], st.cache.pending[u]);
    }
  }

  lemma FlushedIsStoredIff(stored: Readings, p: Cells.Pending)
    requires Batches.Disjoint(p.inserts, stored)
    ensures Cells.Flushed(stored, p) == stored <==>
      p.inserts == map[] && forall t :: t in p.updates ==> t in stored && stored[t] == p.updates[t]
  {
    if Cells.Flushed(stored, p) == stored {
      assert forall t :: t in p.inserts ==> t in Cells.Flushed(stored, p);
      assert p.inserts.Keys == {};
      forall t | t in p.updates ensures t in stored && stored[t] == p.updates[t] {
        assert t in Cells.Flushed(stored, p);
      }
    }
  }

  /** A store with two sensors: each holds back an insertion at time 1, the second one a duplicate. */
  function TwoSensors(meta: Metadata): State {
    var sensors: SensorTable := map[Uuid(1) := Sensor(Uuid(1), "a", meta), Uuid(2) := Sensor(Uuid(2), "b", meta)];
    var pending := Cells.Pending(map[1 := 1.0], map[]);
    State(Cache(sensors, map["a" := Uuid(1), "b" := Uuid(2)], map[Uuid(1) := pending, Uuid(2) := pending]),
          Database(sensors, map[Uuid(1) := map[], Uuid(2) := map[1 := 5.0]]), None, 0)
  }

  lemma TwoSensorsAgree(meta: Metadata)
    ensures Agreement(TwoSensors(meta))
  {
    assert "a"[0] != "b"[0];
    IndexedIdsAreUnique(TwoSensors(meta).cache);
  }

  /** Flushed in this order, the first sensor loses its reading: it is neither stored nor held back. */
  lemma AbortedFlushLosesAReading(meta: Metadata)
    ensures var st := TwoSensors(meta); var u := Uuid(1);
      && Agreement(st) && StopsAt(st, {u}, Uuid(2)) && u in st.cache.sensors && Visible(st, u) == map[1 := 1.0]
      && var after := Stopped(st, {u}, Uuid(2)).(db := st.db);
         Agreement(after) && u in after.cache.sensors && Visible(after, u) == map[]
  {
    TwoSensorsAgree(meta);
    var st, u := TwoSensors(meta), Uuid(1);
    assert 1 in st.cache.pending[Uuid(2)].inserts && 1 in st.db.readings[Uuid(2)];
    AbortedFlushLosesIff(st, {u}, Uuid(2), u);
    UndoneFlushCell(st, {u}, Uuid(2), u);
  }
}
