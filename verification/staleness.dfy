/** How old a reading held back can get while the timer flushes and commits are automatic. */
module Staleness {
  import opened Types
  import opened StoreModel
  import Cells

  /** A batch the store accepted, and when. */
  datatype Accepted = Accepted(uuid: Uuid, isUpdate: bool, batch: Readings, now: int)

  predicate Timed(step: Step) {
    step.Write? || step.SyncItem?
  }

  /** The clock readings of the run, from `t0` on, never decrease. */
  predicate Clocked(steps: seq<Step>, t0: int) {
    steps == [] ||
    ((Timed(steps[0]) ==> t0 <= steps[0].now) && Clocked(steps[1..], if Timed(steps[0]) then steps[0].now else t0))
  }

  /** The last clock reading of the run. */
  function Latest(steps: seq<Step>, t0: int): int {
    if steps == [] then t0 else Latest(steps[1..], if Timed(steps[0]) then steps[0].now else t0)
  }

  ghost function AcceptedBy(st: State, step: Step): seq<Accepted> {
    match step
    case Write(u, isUpdate, batch, now) => if u in st.cache.sensors then [Accepted(u, isUpdate, batch, now)] else []
    case SyncItem(s, batch, now) => [Accepted(LocalSensor(st.cache, s).uuid, true, batch, now)]
    case _ => []
  }

  ghost function Log(cfg: Config, st: State, steps: seq<Step>): seq<Accepted>
    requires Agreement(st) && Runnable(cfg, st, steps)
    decreases |steps|
  {
    if steps == [] then []
    else ApplyKeepsAgreement(cfg, st, steps[0]);
         AcceptedBy(st, steps[0]) + Log(cfg, Apply(cfg, st, steps[0]).0, steps[1..])
  }

  function Held(p: Cells.Pending, isUpdate: bool): Readings {
    if isUpdate then p.updates else p.inserts
  }

  /** Some batch accepted at or after `since` brought this reading. */
  predicate AcceptedSince(log: seq<Accepted>, since: int, u: Uuid, isUpdate: bool, t: Timestamp, v: real) {
    exists i :: 0 <= i < |log| && log[i].uuid == u && log[i].isUpdate == isUpdate
             && t in log[i].batch && log[i].batch[t] == v && since <= log[i].now
  }

  /** Every reading held back was accepted at or after the last timed flush. */
  ghost predicate Fresh(log: seq<Accepted>, st: State) {
    forall u, isUpdate, t {:trigger Held(st.cache.pending[u], isUpdate)[t]} ::
      u in st.cache.pending && t in Held(st.cache.pending[u], isUpdate) ==>
        AcceptedSince(log, st.lastFlush, u, isUpdate, t, Held(st.cache.pending[u], isUpdate)[t])
  }

  lemma LogGrows(log: seq<Accepted>, more: seq<Accepted>, since: int, u: Uuid, isUpdate: bool, t: Timestamp, v: real)
    requires AcceptedSince(log, since, u, isUpdate, t, v) || AcceptedSince(more, since, u, isUpdate, t, v)
    ensures AcceptedSince(log + more, since, u, isUpdate, t, v)
  {
    if AcceptedSince(log, since, u, isUpdate, t, v) {
      var i :| 0 <= i < |log| && log[i].uuid == u && log[i].isUpdate == isUpdate
             && t in log[i].batch && log[i].batch[t] == v && since <= log[i].now;
      assert (log + more)[i] == log[i];
    } else {
      var i :| 0 <= i < |more| && more[i].uuid == u && more[i].isUpdate == isUpdate
             && t in more[i].batch && more[i].batch[t] == v && since <= more[i].now;
      assert (log + more)[|log| + i] == more[i];
    }
  }

  /** What is held back next was held back before or has just been accepted. */
  lemma StaysFresh(log: seq<Accepted>, more: seq<Accepted>, st: State, next: State)
    requires Fresh(log, st)
    requires forall u, isUpdate, t {:trigger Held(next.cache.pending[u], isUpdate)[t]} ::
      u in next.cache.pending && t in Held(next.cache.pending[u], isUpdate) ==>
        || (u in st.cache.pending && t in Held(st.cache.pending[u], isUpdate) && next.lastFlush == st.lastFlush
            && Held(next.cache.pending[u], isUpdate)[t] == Held(st.cache.pending[u], isUpdate)[t])
        || AcceptedSince(more, next.lastFlush, u, isUpdate, t, Held(next.cache.pending[u], isUpdate)[t])
    ensures Fresh(log + more, next)
  {
    forall u, isUpdate, t | u in next.cache.pending && t in Held(next.cache.pending[u], isUpdate)
      ensures AcceptedSince(log + more, next.lastFlush, u, isUpdate, t, Held(next.cache.pending[u], isUpdate)[t])
    {
      var v := Held(next.cache.pending[u], isUpdate)[t];
      if !AcceptedSince(more, next.lastFlush, u, isUpdate, t, v) {
        assert Held(st.cache.pending[u], isUpdate)[t] == v;
      }
      LogGrows(log, more, next.lastFlush, u, isUpdate, t, v);
    }
  }

  lemma WriteStaysFresh(cfg: Config, log: seq<Accepted>, st: State, u: Uuid, isUpdate: bool, batch: Readings, now: int)
    requires cfg.autoCommit && Agreement(st) && Fresh(log, st) && st.lastFlush <= now && u in st.cache.sensors
    ensures var next := WriteReadings(cfg, st, u, isUpdate, batch, now).0;
      Fresh(log + [Accepted(u, isUpdate, batch, now)], next) && next.lastFlush <= now
  {
    var more := [Accepted(u, isUpdate, batch, now)];
    var next := WriteReadings(cfg, st, u, isUpdate, batch, now).0;
    if batch == map[] {
      assert next == st;
    } else if Due(cfg, st, now) {
      assert forall w :: w in next.cache.pending ==> next.cache.pending[w] == Cells.NOTHING;
    } else {
      forall t | t in batch ensures AcceptedSince(more, st.lastFlush, u, isUpdate, t, batch[t]) {
        assert more[0].uuid == u;
      }
    }
    StaysFresh(log, more, st, next);
  }

  lemma RegisterStaysFresh(log: seq<Accepted>, st: State, next: State, s: Sensor)
    requires Agreement(st) && Agreement(next) && Registers(st, next, s) && Fresh(log, st)
    ensures Fresh(log + [], next)
  {
    RegisteredCells(st, next, s);
    forall v | v in st.cache.sensors && v != s.uuid ensures next.cache.pending[v] == st.cache.pending[v] {
      assert CellAt(next, v) == CellAt(st, v);
    }
    StaysFresh(log, [], st, next);
  }

  lemma AddStaysFresh(cfg: Config, log: seq<Accepted>, st: State, s: Sensor)
    requires Agreement(st) && Fresh(log, st)
    ensures var next := Apply(cfg, st, AddSensor(s)).0; Fresh(log + [], next) && next.lastFlush == st.lastFlush
  {
    var r := Apply(cfg, st, AddSensor(s));
    assert log + [] == log;
    AddKeepsAgreement(cfg, st, s);
    IndexFindsTheOwner(st, s.externalId);
    if r.1.Ok? { RegisterStaysFresh(log, st, r.0, s); }
  }

  lemma UpdateStaysFresh(cfg: Config, log: seq<Accepted>, st: State, s: Sensor)
    requires Agreement(st) && Fresh(log, st) && Enabled(cfg, st, UpdateSensor(s))
    ensures var next := Apply(cfg, st, UpdateSensor(s)).0; Fresh(log + [], next) && next.lastFlush == st.lastFlush
  {
    var r := Apply(cfg, st, UpdateSensor(s));
    assert log + [] == log;
    ApplyKeepsAgreement(cfg, st, UpdateSensor(s));
    if r.1.Ok? { RegisterStaysFresh(log, st, r.0, s); }
  }

  lemma SyncStaysFresh(cfg: Config, log: seq<Accepted>, st: State, s: Sensor, batch: Readings, now: int)
    requires cfg.autoCommit && Agreement(st) && Fresh(log, st) && st.lastFlush <= now && !Clashes(st, s)
    ensures var next := SyncOne(cfg, st, s, batch, now).0;
      Fresh(log + [Accepted(LocalSensor(st.cache, s).uuid, true, batch, now)], next) && next.lastFlush <= now
  {
    var local, synced := LocalSensor(st.cache, s), SyncSensor(st, s);
    SyncSensorKeepsAgreement(st, s);
    SyncRegisters(st, s);
    RegisterStaysFresh(log, st, synced, local);
    assert log + [] == log;
    WriteStaysFresh(cfg, log, synced, local.uuid, true, batch, now);
  }

  /** Each sensor holds back what it did or nothing, if it is still there. */
  predicate HoldsLess(st: State, next: State) {
    next.lastFlush == st.lastFlush && forall u :: u in next.cache.pending ==>
      || next.cache.pending[u] == Cells.NOTHING
      || (u in st.cache.pending && next.cache.pending[u] == st.cache.pending[u])
  }

  lemma OthersHoldLess(cfg: Config, st: State, step: Step)
    requires cfg.autoCommit && Agreement(st) && !Timed(step) && !step.AddSensor? && !step.UpdateSensor?
    ensures HoldsLess(st, Apply(cfg, st, step).0)
  {
  }

  lemma StepStaysFresh(cfg: Config, log: seq<Accepted>, st: State, step: Step, t0: int)
    requires cfg.autoCommit && Agreement(st) && Enabled(cfg, st, step)
    requires Fresh(log, st) && st.lastFlush <= t0 && (Timed(step) ==> t0 <= step.now)
    ensures var next := Apply(cfg, st, step).0;
      && Fresh(log + AcceptedBy(st, step), next)
      && next.lastFlush <= (if Timed(step) then step.now else t0)
  {
    var next := Apply(cfg, st, step).0;
    assert log + [] == log;
    match step
    case AddSensor(s) => AddStaysFresh(cfg, log, st, s);
    case UpdateSensor(s) => UpdateStaysFresh(cfg, log, st, s);
    case Write(u, isUpdate, batch, now) =>
      if u in st.cache.sensors { WriteStaysFresh(cfg, log, st, u, isUpdate, batch, now); }
    case SyncItem(s, batch, now) => SyncStaysFresh(cfg, log, st, s, batch, now);
    case _ =>
      OthersHoldLess(cfg, st, step);
      StaysFresh(log, [], st, next);
  }

  /** After any run with a timer, automatic commits and a clock that does not run backwards, every
      reading held back was accepted at or after the last timed flush. */
  lemma {:induction false} HeldReadingsAreFresh(cfg: Config, log: seq<Accepted>, st: State, steps: seq<Step>, t0: int)
    requires cfg.autoCommit && Agreement(st) && Runnable(cfg, st, steps)
    requires Fresh(log, st) && st.lastFlush <= t0 && Clocked(steps, t0)
    ensures Fresh(log + Log(cfg, st, steps), Run(cfg, st, steps))
    ensures Run(cfg, st, steps).lastFlush <= Latest(steps, t0)
    decreases |steps|
  {
    if steps == [] {
      assert log + [] == log;
    } else {
      StepStaysFresh(cfg, log, st, steps[0], t0);
      ApplyKeepsAgreement(cfg, st, steps[0]);
      var next, accepted := Apply(cfg, st, steps[0]).0, AcceptedBy(st, steps[0]);
      HeldReadingsAreFresh(cfg, log + accepted, next, steps[1..], if Timed(steps[0]) then steps[0].now else t0);
      assert log + accepted + Log(cfg, next, steps[1..]) == log + Log(cfg, st, steps);
    }
  }

  /** Starting with nothing held back, every reading still held back after a run that ends with a
      non-empty write was accepted at or after the last timed flush, less than the timeout ago. */
  lemma {:induction false} BoundedStaleness(cfg: Config, st: State, steps: seq<Step>, last: Step, t0: int)
    requires cfg.autoCommit && cfg.autoFlush && cfg.flushTimeout > 0
    requires Agreement(st) && st.lastFlush <= t0
    requires forall u :: u in st.cache.pending ==> st.cache.pending[u] == Cells.NOTHING
    requires Runnable(cfg, st, steps) && Clocked(steps, t0)
    requires last.Write? && last.batch != map[] && last.uuid in Run(cfg, st, steps).cache.sensors
    requires Latest(steps, t0) <= last.now
    ensures var before := Run(cfg, st, steps); var after := Apply(cfg, before, last).0;
      && last.now - after.lastFlush < cfg.flushTimeout
      && Fresh(Log(cfg, st, steps) + AcceptedBy(before, last), after)
  {
    HeldReadingsAreFresh(cfg, [], st, steps, t0);
    assert [] + Log(cfg, st, steps) == Log(cfg, st, steps);
    StepStaysFresh(cfg, Log(cfg, st, steps), Run(cfg, st, steps), last, last.now);
  }
}
