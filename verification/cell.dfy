/**
 * One sensor seen on its own: what the database stores for it and what the store still holds back.
 * The laws of the write-back buffer are laws of this cell; the store is a family of such cells.
 */
module Cells {
  import opened Types

  /** The two readings maps of one `_reading_operations_buffer` entry. */
  datatype Pending = Pending(inserts: Readings, updates: Readings)

  const NOTHING := Pending(map[], map[])

  /** What a flush that ignores errors leaves in the sensor's table: an insertion loses against a
      stored reading, an update wins. */
  function Flushed(stored: Readings, p: Pending): Readings {
    p.inserts + stored + p.updates
  }

  /** Buffering a batch: the first value buffered for a time stamp stays. */
  function Buffered(p: Pending, isUpdate: bool, batch: Readings): Pending {
    if isUpdate then p.(updates := batch + p.updates) else p.(inserts := batch + p.inserts)
  }

  datatype Cell = Cell(stored: Readings, pending: Pending) {
    /** What `get_all_readings` would return now. */
    function Visible(): Readings {
      Flushed(stored, pending)
    }
  }

  datatype Event = Insert(batch: Readings) | Update(batch: Readings) | Flush

  function Apply(c: Cell, e: Event): Cell {
    match e
    case Insert(batch) => c.(pending := Buffered(c.pending, false, batch))
    case Update(batch) => c.(pending := Buffered(c.pending, true, batch))
    case Flush => Cell(c.Visible(), NOTHING)
  }

  function Run(c: Cell, es: seq<Event>): Cell
    decreases |es|
  {
    if es == [] then c else Run(Apply(c, es[0]), es[1..])
  }

  /** The run without its flushes: what the client asked for. */
  function Writes(es: seq<Event>): seq<Event> {
    if es == [] then [] else (if es[0].Flush? then [] else [es[0]]) + Writes(es[1..])
  }

  /** What the client means by its writes: an insertion is put-if-absent, an update is put. */
  function Intended(v: Readings, ws: seq<Event>): Readings
    decreases |ws|
  {
    if ws == [] then v
    else Intended(match ws[0]
                  case Insert(batch) => batch + v
                  case Update(batch) => v + batch
                  case Flush => v,
                  ws[1..])
  }

  predicate UpdatesAt(ws: seq<Event>, i: int, t: Timestamp) {
    0 <= i < |ws| && ws[i].Update? && t in ws[i].batch
  }

  /** No time stamp receives two different update values, pending ones included. */
  ghost predicate Coherent(c: Cell, ws: seq<Event>) {
    && (forall i, t :: UpdatesAt(ws, i, t) && t in c.pending.updates ==> ws[i].batch[t] == c.pending.updates[t])
    && (forall i, j, t :: UpdatesAt(ws, i, t) && UpdatesAt(ws, j, t) ==> ws[i].batch[t] == ws[j].batch[t])
  }

  /** Every flush schedule of the same writes shows the same readings. */
  ghost predicate ScheduleIndependent(c: Cell, ws: seq<Event>) {
    forall s1, s2 :: Writes(s1) == ws && Writes(s2) == ws ==> Run(c, s1).Visible() == Run(c, s2).Visible()
  }

  // ---------- single steps ----------

  /** An insertion shows at once, under what was visible before. */
  lemma InsertShows(c: Cell, batch: Readings)
    ensures Apply(c, Insert(batch)).Visible() == batch + c.Visible()
  {
  }

  /** An update shows at once, except where an update is already pending. */
  lemma UpdateShows(c: Cell, batch: Readings)
    ensures Apply(c, Update(batch)).Visible() == c.Visible() + (batch - c.pending.updates.Keys)
  {
  }

  /** Flushing changes nothing visible. */
  lemma FlushHides(c: Cell)
    ensures Apply(c, Flush).Visible() == c.Visible()
  {
  }

  lemma NothingPendingShowsTheStored(stored: Readings)
    ensures Cell(stored, NOTHING).Visible() == stored
  {
    assert NOTHING.inserts + stored == stored && stored + NOTHING.updates == stored;
  }

  // ---------- flush schedules ----------

  lemma CoherentTail(c: Cell, ws: seq<Event>)
    requires ws != [] && Coherent(c, ws) && !ws[0].Flush?
    ensures Coherent(Apply(c, ws[0]), ws[1..])
  {
    var tail := ws[1..];
    forall i, t | UpdatesAt(tail, i, t)
      ensures UpdatesAt(ws, i + 1, t)
    {
    }
    if ws[0].Update? {
      forall i, t | UpdatesAt(tail, i, t) && t in ws[0].batch
        ensures tail[i].batch[t] == ws[0].batch[t]
      {
        assert UpdatesAt(ws, i + 1, t) && UpdatesAt(ws, 0, t);
      }
    }
  }

  /** A coherent run shows what its writes intend, wherever it flushed. */
  lemma {:induction false} CoherentRunsShowTheIntention(c: Cell, es: seq<Event>)
    requires Coherent(c, Writes(es))
    ensures Run(c, es).Visible() == Intended(c.Visible(), Writes(es))
    decreases |es|
  {
    if es != [] {
      var e, ws := es[0], Writes(es);
      if e.Flush? {
        FlushHides(c);
        assert ws == Writes(es[1..]);
      } else {
        assert ws[0] == e && ws[1..] == Writes(es[1..]);
        CoherentTail(c, ws);
        if e.Update? {
          UpdateShows(c, e.batch);
          forall t | t in e.batch && t in c.pending.updates
            ensures e.batch[t] == c.pending.updates[t]
          {
            assert UpdatesAt(ws, 0, t);
          }
          assert Apply(c, e).Visible() == c.Visible() + e.batch;
        } else {
          InsertShows(c, e.batch);
        }
      }
      CoherentRunsShowTheIntention(Apply(c, e), es[1..]);
    }
  }

  lemma {:induction false} RunConcat(c: Cell, a: seq<Event>, b: seq<Event>)
    ensures Run(c, a + b) == Run(Run(c, a), b)
    decreases |a|
  {
    if a == [] {
      assert a + b == b;
    } else {
      assert (a + b)[1..] == a[1..] + b;
      RunConcat(Apply(c, a[0]), a[1..], b);
    }
  }

  lemma {:induction false} WritesConcat(a: seq<Event>, b: seq<Event>)
    ensures Writes(a + b) == Writes(a) + Writes(b)
  {
    if a == [] {
      assert a + b == b;
    } else {
      assert (a + b)[1..] == a[1..] + b;
      WritesConcat(a[1..], b);
    }
  }

  predicate AllWrites(ws: seq<Event>) {
    forall i :: 0 <= i < |ws| ==> !ws[i].Flush?
  }

  lemma {:induction false} WritesOfWrites(ws: seq<Event>)
    requires AllWrites(ws)
    ensures Writes(ws) == ws
  {
    if ws != [] {
      WritesOfWrites(ws[1..]);
    }
  }

  /** While nothing is flushed, a pending update keeps its value and stays visible. */
  lemma {:induction false} PendingUpdateStays(c: Cell, ws: seq<Event>, t: Timestamp)
    requires AllWrites(ws) && t in c.pending.updates
    ensures var d := Run(c, ws); t in d.pending.updates && d.pending.updates[t] == c.pending.updates[t]
    ensures t in Run(c, ws).Visible() && Run(c, ws).Visible()[t] == c.pending.updates[t]
    decreases |ws|
  {
    if ws != [] {
      PendingUpdateStays(Apply(c, ws[0]), ws[1..], t);
    }
  }

  /** The schedule that flushes once, right before write k. */
  function FlushOnceBefore(ws: seq<Event>, k: nat): seq<Event>
    requires k < |ws|
  {
    ws[..k] + ([Flush, ws[k]] + ws[k+1..])
  }

  lemma WritesOfFlushAnd(w: Event)
    requires !w.Flush?
    ensures Writes([Flush, w]) == [w]
  {
    assert [Flush, w][1..] == [w] && [w][1..] == [];
    assert Writes([w]) == [w];
  }

  lemma {:induction false} WritesAroundAFlush(a: seq<Event>, w: Event, b: seq<Event>)
    requires AllWrites(a) && !w.Flush? && AllWrites(b)
    ensures Writes(a + ([Flush, w] + b)) == a + ([w] + b)
  {
    WritesConcat(a, [Flush, w] + b);
    WritesConcat([Flush, w], b);
    WritesOfWrites(a);
    WritesOfWrites(b);
    WritesOfFlushAnd(w);
  }

  lemma FlushOnceBeforeWrites(ws: seq<Event>, k: nat)
    requires k < |ws| && AllWrites(ws)
    ensures Writes(FlushOnceBefore(ws, k)) == ws
  {
    WritesAroundAFlush(ws[..k], ws[k], ws[k+1..]);
    assert ws[..k] + ([ws[k]] + ws[k+1..]) == ws;
  }

  /** Flushing right before one update makes that update's value the visible one. */
  lemma {:induction false} FlushBefore(c: Cell, ws: seq<Event>, k: nat, t: Timestamp)
    requires AllWrites(ws) && UpdatesAt(ws, k, t)
    ensures var shown := Run(c, FlushOnceBefore(ws, k)).Visible(); t in shown && shown[t] == ws[k].batch[t]
  {
    var mid := [Flush, ws[k]];
    RunConcat(c, ws[..k], mid + ws[k+1..]);
    var before := Run(c, ws[..k]);
    RunConcat(before, mid, ws[k+1..]);
    assert mid[1..] == [ws[k]] && [ws[k]][1..] == [];
    var flushed := Apply(before, Flush);
    var after := Apply(flushed, ws[k]);
    assert Run(before, mid) == Run(flushed, [ws[k]]) == Run(after, []) == after;
    PendingUpdateStays(after, ws[k+1..], t);
  }

  lemma TwoValuesTwoSchedules(c: Cell, ws: seq<Event>, i: int, t: Timestamp, other: real)
    requires AllWrites(ws) && UpdatesAt(ws, i, t)
    requires ScheduleIndependent(c, ws)
    requires (t in c.pending.updates && other == c.pending.updates[t]) ||
             exists j :: UpdatesAt(ws, j, t) && other == ws[j].batch[t]
    ensures ws[i].batch[t] == other
  {
    var s1 := FlushOnceBefore(ws, i);
    FlushOnceBeforeWrites(ws, i);
    FlushBefore(c, ws, i, t);
    if t in c.pending.updates && other == c.pending.updates[t] {
      WritesOfWrites(ws);
      PendingUpdateStays(c, ws, t);
      assert Run(c, s1).Visible() == Run(c, ws).Visible();
    } else {
      var j :| UpdatesAt(ws, j, t) && other == ws[j].batch[t];
      var s2 := FlushOnceBefore(ws, j);
      FlushOnceBeforeWrites(ws, j);
      FlushBefore(c, ws, j, t);
      assert Run(c, s1).Visible() == Run(c, s2).Visible();
    }
  }

  /** The visible readings do not depend on when the buffer was flushed exactly when no time stamp
      receives two different update values. */
  lemma FlushScheduleIndependence(c: Cell, ws: seq<Event>)
    requires AllWrites(ws)
    ensures ScheduleIndependent(c, ws) <==> Coherent(c, ws)
  {
    if Coherent(c, ws) {
      forall s1, s2 | Writes(s1) == ws && Writes(s2) == ws
        ensures Run(c, s1).Visible() == Run(c, s2).Visible()
      {
        CoherentRunsShowTheIntention(c, s1);
        CoherentRunsShowTheIntention(c, s2);
      }
    }
    if ScheduleIndependent(c, ws) {
      forall i, t | UpdatesAt(ws, i, t) && t in c.pending.updates
        ensures ws[i].batch[t] == c.pending.updates[t]
      {
        TwoValuesTwoSchedules(c, ws, i, t, c.pending.updates[t]);
      }
      forall i, j, t | UpdatesAt(ws, i, t) && UpdatesAt(ws, j, t)
        ensures ws[i].batch[t] == ws[j].batch[t]
      {
        TwoValuesTwoSchedules(c, ws, i, t, ws[j].batch[t]);
      }
    }
  }

  lemma {:induction false} RunTwo(c: Cell, a: Event, b: Event)
    ensures Run(c, [a, b]) == Apply(Apply(c, a), b)
    ensures Writes([a, b]) == (if a.Flush? then [] else [a]) + (if b.Flush? then [] else [b])
  {
    assert [a, b][1..] == [b] && [b][1..] == [];
    assert Run(Apply(c, a), [b]) == Run(Apply(Apply(c, a), b), []);
    assert Writes([b]) == (if b.Flush? then [] else [b]) + Writes([]);
  }

  /** Two update values for one time stamp: without a flush the first one shows, with a flush in between
      the second. */
  lemma {:induction false} TwoUpdatesTwoReadings()
    ensures var c := Cell(map[], NOTHING); var first, second := Update(map[1 := 1.0]), Update(map[1 := 2.0]);
      && Writes([first, second]) == Writes([first, Flush, second]) == [first, second]
      && Run(c, [first, second]).Visible() == map[1 := 1.0]
      && Run(c, [first, Flush, second]).Visible() == map[1 := 2.0]
  {
    var c := Cell(map[], NOTHING);
    var first, second := Update(map[1 := 1.0]), Update(map[1 := 2.0]);
    var once := Apply(c, first);
    RunTwo(c, first, second);
    RunTwo(once, Flush, second);
    assert [first, Flush, second][1..] == [Flush, second];
  }

  /** Runs that only insert never depend on the schedule. */
  lemma InsertOnlyRunsAreIndependent(c: Cell, ws: seq<Event>)
    requires forall i :: 0 <= i < |ws| ==> ws[i].Insert?
    ensures ScheduleIndependent(c, ws)
  {
    FlushScheduleIndependence(c, ws);
  }
}
