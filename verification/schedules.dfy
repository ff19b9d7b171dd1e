/** When the buffers are flushed makes no difference to readers, exactly as far as `Cells` says. */
module Schedules {
  import opened Types
  import opened StoreModel
  import Cells

  /** Runs that neither change the set of sensors nor end a transaction. */
  predicate ReadsAndWrites(steps: seq<Step>) {
    forall i :: 0 <= i < |steps| ==> steps[i].Write? || steps[i].Flush? || steps[i].Read?
  }

  function WriteOf(step: Step, u: Uuid): seq<Cells.Event> {
    match step
    case Write(w, isUpdate, batch, _) =>
      if w == u && batch != map[] then [if isUpdate then Cells.Update(batch) else Cells.Insert(batch)] else []
    case _ => []
  }

  /** What the run asks of one sensor. */
  function WritesOn(steps: seq<Step>, u: Uuid): seq<Cells.Event> {
    if steps == [] then [] else WriteOf(steps[0], u) + WritesOn(steps[1..], u)
  }

  /** What one step does to one sensor, the timer's flushes included. */
  ghost function EventsOf(cfg: Config, st: State, step: Step, u: Uuid): seq<Cells.Event> {
    match step
    case Write(w, isUpdate, batch, now) =>
      if batch == map[] || w !in st.cache.sensors then []
      else WriteOf(step, u) + (if Due(cfg, st, now) && Ready(cfg, st) then [Cells.Flush] else [])
    case Flush => if Ready(cfg, st) then [Cells.Flush] else []
    case Read(w) => if w == u then [Cells.Flush] else []
    case _ => []
  }

  ghost function Trace(cfg: Config, st: State, steps: seq<Step>, u: Uuid): seq<Cells.Event>
    requires Agreement(st) && Runnable(cfg, st, steps)
    decreases |steps|
  {
    if steps == [] then []
    else
      ApplyKeepsAgreement(cfg, st, steps[0]);
      EventsOf(cfg, st, steps[0], u) + Trace(cfg, Apply(cfg, st, steps[0]).0, steps[1..], u)
  }

  // ---------- a run of the store is a run of each of its cells ----------

  lemma {:induction false} RunOne(c: Cells.Cell, e: Cells.Event)
    ensures Cells.Run(c, [e]) == Cells.Apply(c, e)
  {
    assert Cells.Run(Cells.Apply(c, e), []) == Cells.Apply(c, e);
  }

  lemma BufferActsOnTheCell(st: State, step: Step, u: Uuid)
    requires Agreement(st) && u in st.cache.sensors
    requires step.Write? && step.batch != map[] && step.uuid in st.cache.sensors
    ensures var b := Buffer(st, step.uuid, step.isUpdate, step.batch);
      Agreement(b) && CellAt(b, u) == Cells.Run(CellAt(st, u), WriteOf(step, u))
  {
    ReadingsDoNotMatter(st, Buffer(st, step.uuid, step.isUpdate, step.batch));
    if step.uuid == u {
      RunOne(CellAt(st, u), if step.isUpdate then Cells.Update(step.batch) else Cells.Insert(step.batch));
    }
  }

  lemma AutoFlushActsOnTheCell(cfg: Config, st: State, now: int, u: Uuid)
    requires Agreement(st) && u in st.cache.sensors
    ensures var next := AutoFlush(cfg, st, now).0;
      Agreement(next) && u in next.cache.sensors &&
      CellAt(next, u) == Cells.Run(CellAt(st, u), if Due(cfg, st, now) && Ready(cfg, st) then [Cells.Flush] else [])
  {
    FlushKeepsAgreement(st);
    ReadingsDoNotMatter(FlushAll(st), FlushAll(st).(lastFlush := now));
    RunOne(CellAt(st, u), Cells.Flush);
  }

  lemma WriteActsOnTheCell(cfg: Config, st: State, step: Step, u: Uuid)
    requires Agreement(st) && step.Write? && u in st.cache.sensors
    ensures var next := Apply(cfg, st, step).0;
      Agreement(next) && u in next.cache.sensors &&
      CellAt(next, u) == Cells.Run(CellAt(st, u), EventsOf(cfg, st, step, u))
  {
    if step.batch != map[] && step.uuid in st.cache.sensors {
      BufferActsOnTheCell(st, step, u);
      AutoFlushActsOnTheCell(cfg, Buffer(st, step.uuid, step.isUpdate, step.batch), step.now, u);
      Cells.RunConcat(CellAt(st, u), WriteOf(step, u),
                      if Due(cfg, st, step.now) && Ready(cfg, st) then [Cells.Flush] else []);
    }
  }

  lemma StepActsOnTheCell(cfg: Config, st: State, step: Step, u: Uuid)
    requires Agreement(st) && (step.Write? || step.Flush? || step.Read?) && u in st.cache.sensors
    ensures Agreement(Apply(cfg, st, step).0) && u in Apply(cfg, st, step).0.cache.sensors
    ensures CellAt(Apply(cfg, st, step).0, u) == Cells.Run(CellAt(st, u), EventsOf(cfg, st, step, u))
  {
    if step.Write? {
      WriteActsOnTheCell(cfg, st, step, u);
    } else {
      ApplyKeepsAgreement(cfg, st, step);
      RunOne(CellAt(st, u), Cells.Flush);
    }
  }

  lemma {:induction false} RunActsOnTheCell(cfg: Config, st: State, steps: seq<Step>, u: Uuid)
    requires Agreement(st) && ReadsAndWrites(steps) && Runnable(cfg, st, steps) && u in st.cache.sensors
    ensures u in Run(cfg, st, steps).cache.sensors
    ensures CellAt(Run(cfg, st, steps), u) == Cells.Run(CellAt(st, u), Trace(cfg, st, steps, u))
    decreases |steps|
  {
    if steps != [] {
      StepActsOnTheCell(cfg, st, steps[0], u);
      var next := Apply(cfg, st, steps[0]).0;
      RunActsOnTheCell(cfg, next, steps[1..], u);
      Cells.RunConcat(CellAt(st, u), EventsOf(cfg, st, steps[0], u), Trace(cfg, next, steps[1..], u));
    }
  }

  lemma EventsWriteTheSame(cfg: Config, st: State, step: Step, u: Uuid)
    requires u in st.cache.sensors && (step.Write? || step.Flush? || step.Read?)
    ensures Cells.Writes(EventsOf(cfg, st, step, u)) == WriteOf(step, u)
  {
    var wrote, events := WriteOf(step, u), EventsOf(cfg, st, step, u);
    assert Cells.Writes([Cells.Flush]) == [];
    if step.Write? && step.batch != map[] && step.uuid in st.cache.sensors {
      Cells.WritesOfWrites(wrote);
      Cells.WritesConcat(wrote, [Cells.Flush]);
      Cells.WritesConcat(wrote, []);
    }
  }

  lemma {:induction false} TraceWritesTheSame(cfg: Config, st: State, steps: seq<Step>, u: Uuid)
    requires Agreement(st) && ReadsAndWrites(steps) && Runnable(cfg, st, steps) && u in st.cache.sensors
    ensures Cells.Writes(Trace(cfg, st, steps, u)) == WritesOn(steps, u)
    decreases |steps|
  {
    if steps != [] {
      StepActsOnTheCell(cfg, st, steps[0], u);
      var next := Apply(cfg, st, steps[0]).0;
      TraceWritesTheSame(cfg, next, steps[1..], u);
      EventsWriteTheSame(cfg, st, steps[0], u);
      Cells.WritesConcat(EventsOf(cfg, st, steps[0], u), Trace(cfg, next, steps[1..], u));
    }
  }

  // ---------- any schedule of a sensor's events can occur ----------

  function Performing(e: Cells.Event, u: Uuid, now: int): Step {
    match e
    case Insert(batch) => Write(u, false, batch, now)
    case Update(batch) => Write(u, true, batch, now)
    case Flush => Read(u)
  }

  /** Performs the events with no timer due; a flush is brought about by reading the sensor. */
  function Perform(es: seq<Cells.Event>, u: Uuid, now: int): seq<Step> {
    if es == [] then [] else [Performing(es[0], u, now)] + Perform(es[1..], u, now)
  }

  predicate NoEmptyBatch(es: seq<Cells.Event>) {
    forall i :: 0 <= i < |es| && !es[i].Flush? ==> es[i].batch != map[]
  }

  lemma PerformOne(cfg: Config, st: State, e: Cells.Event, u: Uuid)
    requires Agreement(st) && u in st.cache.sensors && NoEmptyBatch([e])
    ensures var step := Performing(e, u, st.lastFlush + cfg.flushTimeout - 1);
      && EventsOf(cfg, st, step, u) == [e]
      && Agreement(Apply(cfg, st, step).0) && u in Apply(cfg, st, step).0.cache.sensors
      && Apply(cfg, st, step).0.lastFlush == st.lastFlush
  {
    assert !e.Flush? ==> [e][0].batch != map[];
    StepActsOnTheCell(cfg, st, Performing(e, u, st.lastFlush + cfg.flushTimeout - 1), u);
  }

  lemma {:induction false} PerformReadsAndWrites(es: seq<Cells.Event>, u: Uuid, now: int)
    ensures ReadsAndWrites(Perform(es, u, now))
  {
    if es != [] {
      PerformReadsAndWrites(es[1..], u, now);
    }
  }

  lemma {:induction false} TraceCons(cfg: Config, st: State, step: Step, rest: seq<Step>, u: Uuid)
    requires Agreement(st) && Enabled(cfg, st, step)
    requires Agreement(Apply(cfg, st, step).0) && Runnable(cfg, Apply(cfg, st, step).0, rest)
    ensures Runnable(cfg, st, [step] + rest)
    ensures Trace(cfg, st, [step] + rest, u) == EventsOf(cfg, st, step, u) + Trace(cfg, Apply(cfg, st, step).0, rest, u)
  {
    assert ([step] + rest)[1..] == rest;
  }

  lemma NoEmptyBatchTail(es: seq<Cells.Event>)
    requires es != [] && NoEmptyBatch(es)
    ensures NoEmptyBatch([es[0]]) && NoEmptyBatch(es[1..])
  {
    assert forall i :: 0 <= i < |es| - 1 ==> es[1..][i] == es[i + 1];
  }

  ghost predicate Performs(cfg: Config, st: State, es: seq<Cells.Event>, u: Uuid, now: int)
    requires Agreement(st)
  {
    Runnable(cfg, st, Perform(es, u, now)) && Trace(cfg, st, Perform(es, u, now), u) == es
  }

  lemma PerformCons(cfg: Config, st: State, e: Cells.Event, es: seq<Cells.Event>, u: Uuid, now: int)
    requires Agreement(st) && u in st.cache.sensors && NoEmptyBatch([e])
    requires now == st.lastFlush + cfg.flushTimeout - 1
    requires var next := Apply(cfg, st, Performing(e, u, now)).0; Agreement(next) ==> Performs(cfg, next, es, u, now)
    ensures Performs(cfg, st, [e] + es, u, now)
  {
    PerformOne(cfg, st, e, u);
    TraceCons(cfg, st, Performing(e, u, now), Perform(es, u, now), u);
    assert ([e] + es)[1..] == es;
  }

  lemma {:induction false} PerformTraces(cfg: Config, st: State, es: seq<Cells.Event>, u: Uuid, now: int)
    requires Agreement(st) && u in st.cache.sensors && NoEmptyBatch(es)
    requires now == st.lastFlush + cfg.flushTimeout - 1
    ensures Performs(cfg, st, es, u, now)
    decreases |es|
  {
    if es != [] {
      NoEmptyBatchTail(es);
      PerformOne(cfg, st, es[0], u);
      PerformTraces(cfg, Apply(cfg, st, Performing(es[0], u, now)).0, es[1..], u, now);
      PerformCons(cfg, st, es[0], es[1..], u, now);
      assert [es[0]] + es[1..] == es;
    }
  }

  lemma {:induction false} WritesKeepBatches(es: seq<Cells.Event>)
    requires NoEmptyBatch(Cells.Writes(es))
    ensures NoEmptyBatch(es)
  {
    if es != [] {
      var ws := Cells.Writes(es);
      if es[0].Flush? {
        assert ws == Cells.Writes(es[1..]);
      } else {
        assert ws[0] == es[0] && ws[1..] == Cells.Writes(es[1..]);
      }
      WritesKeepBatches(es[1..]);
    }
  }

  // ---------- main results ----------

  /** All runs that ask the same of a sensor, whenever they flush, read or let the timer flush. */
  ghost predicate FlushScheduleDoesNotShow(cfg: Config, st: State, u: Uuid, ws: seq<Cells.Event>)
    requires Agreement(st) && u in st.cache.sensors
  {
    forall s1, s2 | SameWrites(cfg, st, s1, u, ws) && SameWrites(cfg, st, s2, u, ws) ::
      RunActsOnTheCell(cfg, st, s1, u); RunActsOnTheCell(cfg, st, s2, u);
      Visible(Run(cfg, st, s1), u) == Visible(Run(cfg, st, s2), u)
  }

  ghost predicate SameWrites(cfg: Config, st: State, steps: seq<Step>, u: Uuid, ws: seq<Cells.Event>)
    requires Agreement(st)
  {
    ReadsAndWrites(steps) && Runnable(cfg, st, steps) && WritesOn(steps, u) == ws
  }

  /** Two runs with the same coherent writes show the same, whatever their configurations and clocks. */
  lemma {:induction false} SameWritesShowTheSame(cfg1: Config, cfg2: Config, st: State, s1: seq<Step>, s2: seq<Step>,
                                                u: Uuid)
    requires Agreement(st) && u in st.cache.sensors
    requires ReadsAndWrites(s1) && Runnable(cfg1, st, s1)
    requires ReadsAndWrites(s2) && Runnable(cfg2, st, s2)
    requires WritesOn(s1, u) == WritesOn(s2, u)
    requires Cells.Coherent(CellAt(st, u), WritesOn(s1, u))
    ensures u in Run(cfg1, st, s1).cache.sensors && u in Run(cfg2, st, s2).cache.sensors
    ensures Visible(Run(cfg1, st, s1), u) == Visible(Run(cfg2, st, s2), u)
         == Cells.Intended(Visible(st, u), WritesOn(s1, u))
  {
    RunActsOnTheCell(cfg1, st, s1, u);
    RunActsOnTheCell(cfg2, st, s2, u);
    TraceWritesTheSame(cfg1, st, s1, u);
    TraceWritesTheSame(cfg2, st, s2, u);
    Cells.CoherentRunsShowTheIntention(CellAt(st, u), Trace(cfg1, st, s1, u));
    Cells.CoherentRunsShowTheIntention(CellAt(st, u), Trace(cfg2, st, s2, u));
  }

  lemma IndependenceReachesTheCell(cfg: Config, st: State, u: Uuid, ws: seq<Cells.Event>)
    requires Agreement(st) && u in st.cache.sensors && NoEmptyBatch(ws)
    requires FlushScheduleDoesNotShow(cfg, st, u, ws)
    ensures Cells.ScheduleIndependent(CellAt(st, u), ws)
  {
    var now := st.lastFlush + cfg.flushTimeout - 1;
    forall e1, e2 | Cells.Writes(e1) == ws && Cells.Writes(e2) == ws
      ensures Cells.Run(CellAt(st, u), e1).Visible() == Cells.Run(CellAt(st, u), e2).Visible()
    {
      WritesKeepBatches(e1);
      WritesKeepBatches(e2);
      PerformTraces(cfg, st, e1, u, now);
      PerformTraces(cfg, st, e2, u, now);
      PerformReadsAndWrites(e1, u, now);
      PerformReadsAndWrites(e2, u, now);
      var s1, s2 := Perform(e1, u, now), Perform(e2, u, now);
      TraceWritesTheSame(cfg, st, s1, u);
      TraceWritesTheSame(cfg, st, s2, u);
      assert SameWrites(cfg, st, s1, u, ws) && SameWrites(cfg, st, s2, u, ws);
      RunActsOnTheCell(cfg, st, s1, u);
      RunActsOnTheCell(cfg, st, s2, u);
    }
  }

  /** The flush schedule is invisible to the readers of a sensor exactly when no time stamp of it
      receives two different update values. */
  lemma FlushScheduleIsInvisible(cfg: Config, st: State, u: Uuid, ws: seq<Cells.Event>)
    requires Agreement(st) && u in st.cache.sensors && Cells.AllWrites(ws) && NoEmptyBatch(ws)
    ensures FlushScheduleDoesNotShow(cfg, st, u, ws) <==> Cells.Coherent(CellAt(st, u), ws)
  {
    if FlushScheduleDoesNotShow(cfg, st, u, ws) {
      IndependenceReachesTheCell(cfg, st, u, ws);
      Cells.FlushScheduleIndependence(CellAt(st, u), ws);
    }
    if Cells.Coherent(CellAt(st, u), ws) {
      forall s1, s2 | SameWrites(cfg, st, s1, u, ws) && SameWrites(cfg, st, s2, u, ws)
        ensures u in Run(cfg, st, s1).cache.sensors && u in Run(cfg, st, s2).cache.sensors
        ensures Visible(Run(cfg, st, s1), u) == Visible(Run(cfg, st, s2), u)
      {
        SameWritesShowTheSame(cfg, cfg, st, s1, s2, u);
      }
    }
  }
}
