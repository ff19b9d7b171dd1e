/** Where a loop of `INSERT`s into one sensor's table stands. */
module Inserting {
  import opened Types
  import opened Ascending
  import opened Batches
  import opened Cells
  import opened Databases

  /** The readings of the first `i` keys are in, without an error so far. */
  ghost predicate Progress(was: Database, now: Database, u: Uuid, batch: Readings, keys: seq<Timestamp>, i: nat,
                           ignoreErrors: bool)
    requires u in was.readings && i <= |keys|
  {
    && now == was.WithReadings(u, Inserted(was.readings[u], Part(batch, keys[..i]), ignoreErrors))
    && (ignoreErrors || Disjoint(Part(batch, keys[..i]), was.readings[u]))
  }

  /** The loop is over: what it was to achieve, and whether it threw. */
  ghost predicate Done(was: Database, now: Database, u: Uuid, batch: Readings, ignoreErrors: bool, r: Outcome)
    requires u in was.readings
  {
    && now == was.WithReadings(u, Inserted(was.readings[u], batch, ignoreErrors))
    && r == if ignoreErrors || Disjoint(batch, was.readings[u]) then Ok else Err(DuplicateReading)
  }

  lemma Begins(was: Database, u: Uuid, batch: Readings, keys: seq<Timestamp>, ignoreErrors: bool)
    requires u in was.readings
    ensures Progress(was, was, u, batch, keys, 0, ignoreErrors)
  {
    NothingInserted(was.readings[u], batch, keys, ignoreErrors);
    LastWriteStays(was, u, was.readings[u], was.readings[u]);
  }

  lemma Ends(was: Database, now: Database, u: Uuid, batch: Readings, keys: seq<Timestamp>, ignoreErrors: bool)
    requires u in was.readings && keys == Enumerate(batch.Keys)
    requires Progress(was, now, u, batch, keys, |keys|, ignoreErrors)
    ensures Done(was, now, u, batch, ignoreErrors, Ok)
  {
    WholeBatch(batch);
  }

  /** The next stretch of keys has been handed over, as one bulk or as a single reading. */
  lemma Advances(was: Database, before: Database, now: Database, u: Uuid, batch: Readings, keys: seq<Timestamp>,
                 start: nat, end: nat, ignoreErrors: bool, r: Outcome)
    requires u in was.readings && keys == Enumerate(batch.Keys) && start < end <= |keys|
    requires Progress(was, before, u, batch, keys, start, ignoreErrors)
    requires u in before.readings && Done(before, now, u, Part(batch, keys[start..end]), ignoreErrors, r)
    ensures u in now.readings
    ensures r.Ok? ==> Progress(was, now, u, batch, keys, end, ignoreErrors)
    ensures r.Err? ==> Done(was, now, u, batch, ignoreErrors, r)
  {
    var stored := was.readings[u];
    BulkInOrder(stored, batch, keys, start, end, ignoreErrors);
    LastWriteStays(was, u, before.readings[u], now.readings[u]);
    if r.Err? {
      WholeBatch(batch);
      StoppedEarly(stored, batch, keys, end);
    }
  }

  /** A single `INSERT` is a batch of one. */
  lemma SingleReading(was: Database, now: Database, u: Uuid, batch: Readings, keys: seq<Timestamp>, i: nat,
                      ignoreErrors: bool, r: Outcome)
    requires u in was.readings && i < |keys| && keys[i] in batch
    requires var stored := was.readings[u]; var t := keys[i];
      && now == was.WithReadings(u, if t !in stored then stored[t := batch[t]] else stored)
      && r == if t !in stored || ignoreErrors then Ok else Err(DuplicateReading)
    ensures Done(was, now, u, Part(batch, keys[i..i+1]), ignoreErrors, r)
  {
    assert keys[i..i+1] == [keys[i]];
    assert Part(batch, [keys[i]]) == map[keys[i] := batch[keys[i]]];
    InsertedOne(was.readings[u], keys[i], batch[keys[i]], ignoreErrors);
  }

  /** The bulk loop: `bulks` more calls, `calls` made. */
  ghost predicate BulkProgress(was: Database, now: Database, u: Uuid, batch: Readings, keys: seq<Timestamp>, i: nat,
                               ignoreErrors: bool, max: nat, bulks: nat, calls: seq<Readings>)
    requires u in was.readings && 0 < max && i <= |keys|
  {
    && u in now.readings && keys == Enumerate(batch.Keys)
    && bulks == |Bulks(batch, keys[i..], max)|
    && calls + Bulks(batch, keys[i..], max) == BulksOf(batch, max)
    && Progress(was, now, u, batch, keys, i, ignoreErrors)
  }

  lemma BulksBegin(was: Database, u: Uuid, batch: Readings, keys: seq<Timestamp>, ignoreErrors: bool, max: nat)
    requires u in was.readings && 0 < max && keys == Enumerate(batch.Keys)
    ensures BulkProgress(was, was, u, batch, keys, 0, ignoreErrors, max, CeilDiv(|batch|, max), [])
  {
    Begins(was, u, batch, keys, ignoreErrors);
    CountsTheBulks(batch, max);
    assert keys[0..] == keys;
  }

  lemma BulksAdvance(was: Database, before: Database, now: Database, u: Uuid, batch: Readings, keys: seq<Timestamp>,
                     start: nat, end: nat, ignoreErrors: bool, max: nat, bulks: nat, calls: seq<Readings>,
                     bulk: Readings, r: Outcome)
    requires u in was.readings && 0 < max && 0 < bulks && start <= end <= |keys|
    requires BulkProgress(was, before, u, batch, keys, start, ignoreErrors, max, bulks, calls)
    requires end == start + Min(max, |keys| - start) && bulk == Part(batch, keys[start..end])
    requires u in before.readings && Done(before, now, u, bulk, ignoreErrors, r)
    ensures r.Ok? ==> BulkProgress(was, now, u, batch, keys, end, ignoreErrors, max, bulks - 1, calls + [bulk])
    ensures r.Err? ==> Done(was, now, u, batch, ignoreErrors, r) && calls + [bulk] <= BulksOf(batch, max)
  {
    NoBulkNoKeys(batch, keys[start..], max);
    NextBulk(batch, keys, start, end, max);
    OneCallMore(calls, bulk, Bulks(batch, keys[end..], max));
    Advances(was, before, now, u, batch, keys, start, end, ignoreErrors, r);
  }

  lemma BulksEnd(was: Database, now: Database, u: Uuid, batch: Readings, keys: seq<Timestamp>, i: nat,
                 ignoreErrors: bool, max: nat, calls: seq<Readings>)
    requires u in was.readings && 0 < max && i <= |keys|
    requires BulkProgress(was, now, u, batch, keys, i, ignoreErrors, max, 0, calls)
    ensures Done(was, now, u, batch, ignoreErrors, Ok) && calls == BulksOf(batch, max)
  {
    NoBulkNoKeys(batch, keys[i..], max);
    assert i == |keys|;
    assert calls + Bulks(batch, keys[i..], max) == calls;
    Ends(was, now, u, batch, keys, ignoreErrors);
  }

  /** The updates of the first `i` keys are in. */
  ghost predicate Updated(was: Database, now: Database, u: Uuid, batch: Readings, keys: seq<Timestamp>, i: nat)
    requires u in was.readings && i <= |keys|
  {
    now == was.WithReadings(u, was.readings[u] + Part(batch, keys[..i]))
  }

  lemma UpdatesBegin(was: Database, u: Uuid, batch: Readings, keys: seq<Timestamp>)
    requires u in was.readings
    ensures Updated(was, was, u, batch, keys, 0)
  {
    LastWriteStays(was, u, was.readings[u], was.readings[u]);
    assert was.readings[u] + Part(batch, keys[..0]) == was.readings[u];
  }

  lemma UpdatesAdvance(was: Database, before: Database, now: Database, u: Uuid, batch: Readings, keys: seq<Timestamp>,
                       i: nat)
    requires u in was.readings && i < |keys| && keys[i] in batch
    requires Updated(was, before, u, batch, keys, i)
    requires now == before.WithReadings(u, before.readings[u][keys[i] := batch[keys[i]]])
    ensures Updated(was, now, u, batch, keys, i + 1)
  {
    UpdatedNext(was.readings[u], batch, keys, i);
    LastWriteStays(was, u, before.readings[u], now.readings[u]);
  }

  lemma UpdatesEnd(was: Database, now: Database, u: Uuid, batch: Readings, keys: seq<Timestamp>)
    requires u in was.readings && keys == Enumerate(batch.Keys) && Updated(was, now, u, batch, keys, |keys|)
    ensures now == was.WithReadings(u, was.readings[u] + batch)
  {
    WholeBatch(batch);
  }

  lemma NothingBuffered(p: Pending, isUpdate: bool, batch: Readings, keys: seq<Timestamp>)
    ensures Buffered(p, isUpdate, Part(batch, keys[..0])) == p
  {
    var none: Readings := map[];
    assert Part(batch, keys[..0]) == none;
    assert none + p.updates == p.updates && none + p.inserts == p.inserts;
  }

  /** `std::map::insert` of one more reading of a batch into a buffer. */
  lemma BufferedNext(p: Pending, isUpdate: bool, batch: Readings, keys: seq<Timestamp>, i: nat)
    requires i < |keys| && keys[i] in batch
    ensures var q := Buffered(p, isUpdate, Part(batch, keys[..i])); var t := keys[i];
      Buffered(p, isUpdate, Part(batch, keys[..i+1])) ==
        if isUpdate then (if t in q.updates then q else q.(updates := q.updates[t := batch[t]]))
        else (if t in q.inserts then q else q.(inserts := q.inserts[t := batch[t]]))
  {
    var before, one, t := Part(batch, keys[..i]), Part(batch, keys[..i+1]), keys[i];
    assert keys[..i+1] == keys[..i] + [t];
    assert one == before[t := batch[t]];
    var held := if isUpdate then p.updates else p.inserts;
    assert one + held == if t in before + held then before + held else (before + held)[t := batch[t]];
  }
}
