/** What a sequence of plain `INSERT`s leaves behind, and how a batch is cut into bulks. */
module Batches {
  import opened Types
  import opened Ascending

  predicate Disjoint(batch: Readings, stored: Readings) {
    batch.Keys !! stored.Keys
  }

  function Duplicates(batch: Readings, stored: Readings): set<Timestamp> {
    batch.Keys * stored.Keys
  }

  function Below(batch: Readings, d: int): Readings {
    map t | t in batch && t < d :: batch[t]
  }

  /** The part of the batch that is inserted: all of it that is new while duplicates are ignored,
      otherwise what comes before the first duplicate. */
  function Accepted(stored: Readings, batch: Readings, ignoreErrors: bool): Readings {
    if ignoreErrors || Duplicates(batch, stored) == {} then batch
    else Below(batch, Least(Duplicates(batch, stored)))
  }

  function Inserted(stored: Readings, batch: Readings, ignoreErrors: bool): Readings {
    Accepted(stored, batch, ignoreErrors) + stored
  }

  /** All of `low` comes before time `p`, all of `high` does not. */
  predicate SplitAt(low: Readings, high: Readings, p: int) {
    (forall t :: t in low ==> t < p) && (forall t :: t in high ==> p <= t)
  }

  function Part(batch: Readings, keys: seq<Timestamp>): Readings {
    map t | t in batch && t in keys :: batch[t]
  }

  // ---------- inserting in order ----------

  lemma InsertedWithoutErrors(stored: Readings, batch: Readings, ignoreErrors: bool)
    requires ignoreErrors || Disjoint(batch, stored)
    ensures Inserted(stored, batch, ignoreErrors) == batch + stored
  {
    assert Disjoint(batch, stored) ==> Duplicates(batch, stored) == {};
  }

  lemma OneAfterTheOther(stored: Readings, low: Readings, more: Readings)
    requires Disjoint(low, more)
    ensures more + (low + stored) == (low + more) + stored
  {
  }

  /** Inserting the lower part and then the higher one is inserting both. */
  lemma InsertedInOrder(stored: Readings, low: Readings, high: Readings, p: int, ignoreErrors: bool)
    requires SplitAt(low, high, p) && (ignoreErrors || Disjoint(low, stored))
    ensures Inserted(Inserted(stored, low, ignoreErrors), high, ignoreErrors)
      == Inserted(stored, low + high, ignoreErrors)
    ensures Disjoint(high, Inserted(stored, low, ignoreErrors)) <==> Disjoint(high, stored)
  {
    InsertedWithoutErrors(stored, low, ignoreErrors);
    var once := low + stored;
    assert Duplicates(high, once) == Duplicates(high, stored);
    OneAfterTheOther(stored, low, Accepted(stored, high, ignoreErrors));
    assert Accepted(stored, low + high, ignoreErrors) == low + Accepted(stored, high, ignoreErrors) by {
      if !ignoreErrors {
        assert Duplicates(low + high, stored) == Duplicates(high, stored);
        if Duplicates(high, stored) != {} {
          var d := Least(Duplicates(high, stored));
          assert Below(low + high, d) == low + Below(high, d);
        }
      }
    }
  }

  /** Once a duplicate has stopped the insertion, what comes later does not matter. */
  lemma ConflictStops(stored: Readings, low: Readings, high: Readings, p: int)
    requires SplitAt(low, high, p) && !Disjoint(low, stored)
    ensures Inserted(stored, low + high, false) == Inserted(stored, low, false)
    ensures !Disjoint(low + high, stored)
  {
    var some :| some in low && some in stored;
    assert some in Duplicates(low, stored) && some in Duplicates(low + high, stored);
    var d, e := Least(Duplicates(low, stored)), Least(Duplicates(low + high, stored));
    assert d in Duplicates(low + high, stored);
    assert e in Duplicates(low, stored);
    assert Below(low + high, d) == Below(low, d);
  }

  lemma PartOfConcat(batch: Readings, a: seq<Timestamp>, b: seq<Timestamp>)
    ensures Part(batch, a + b) == Part(batch, a) + Part(batch, b)
  {
  }

  lemma PartsInOrder(batch: Readings, keys: seq<Timestamp>, i: nat, j: nat)
    requires Strict(keys) && i < j <= |keys|
    ensures Part(batch, keys[..j]) == Part(batch, keys[..i]) + Part(batch, keys[i..j])
    ensures SplitAt(Part(batch, keys[..i]), Part(batch, keys[i..j]), keys[i])
  {
    PartOfConcat(batch, keys[..i], keys[i..j]);
    StrictSplit(keys, i);
    assert forall t :: t in keys[i..j] ==> t in keys[i..];
    assert keys[..j] == keys[..i] + keys[i..j];
  }

  lemma InsertedOne(stored: Readings, t: Timestamp, v: real, ignoreErrors: bool)
    ensures Inserted(stored, map[t := v], ignoreErrors) == (if t in stored then stored else stored[t := v])
  {
    var one: Readings := map[t := v];
    if t in stored && !ignoreErrors {
      assert Duplicates(one, stored) == {t};
      assert Below(one, t) == map[];
    }
  }

  /** The `INSERT`s that were not reached would not have changed the outcome. */
  lemma StoppedEarly(stored: Readings, batch: Readings, keys: seq<Timestamp>, i: nat)
    requires Strict(keys) && i <= |keys| && Part(batch, keys[..|keys|]) == batch
    requires !Disjoint(Part(batch, keys[..i]), stored)
    ensures Inserted(stored, batch, false) == Inserted(stored, Part(batch, keys[..i]), false)
    ensures !Disjoint(batch, stored)
  {
    if i < |keys| {
      var low, high := Part(batch, keys[..i]), Part(batch, keys[i..|keys|]);
      assert batch == low + high && SplitAt(low, high, keys[i]) by {
        PartsInOrder(batch, keys, i, |keys|);
      }
      ConflictStops(stored, low, high, keys[i]);
      assert Inserted(stored, batch, false) == Inserted(stored, low, false);
    } else {
      assert keys[..i] == keys[..|keys|];
    }
  }

  lemma WholeBatch(batch: Readings)
    ensures var keys := Enumerate(batch.Keys); Part(batch, keys[..|keys|]) == batch
  {
    var keys := Enumerate(batch.Keys);
    assert keys[..|keys|] == keys;
  }

  lemma NothingInserted(stored: Readings, batch: Readings, keys: seq<Timestamp>, ignoreErrors: bool)
    ensures Inserted(stored, Part(batch, keys[..0]), ignoreErrors) == stored
    ensures Disjoint(Part(batch, keys[..0]), stored)
  {
    var none: Readings := map[];
    assert Part(batch, keys[..0]) == none;
    assert Duplicates(none, stored) == {};
    assert none + stored == stored;
  }

  /** One more `INSERT OR REPLACE`. */
  lemma UpdatedNext(stored: Readings, batch: Readings, keys: seq<Timestamp>, i: nat)
    requires i < |keys| && keys[i] in batch
    ensures (stored + Part(batch, keys[..i]))[keys[i] := batch[keys[i]]] == stored + Part(batch, keys[..i+1])
  {
    assert keys[..i+1] == keys[..i] + [keys[i]];
  }

  // ---------- bulks ----------

  function Min(a: nat, b: nat): nat {
    if a < b then a else b
  }

  /** `k` is n / max rounded up. */
  predicate IsCeil(k: int, n: int, max: int) {
    (k - 1) * max < n <= k * max
  }

  function CeilDiv(n: nat, max: nat): (k: nat)
    requires max > 0
    ensures IsCeil(k, n, max)
  {
    (n + max - 1) / max
  }

  lemma Multiples(k: int, max: int)
    requires 0 < max
    ensures k <= 0 ==> k * max <= 0
    ensures k >= 0 ==> k * max >= 0
    ensures k >= 1 ==> k * max >= max
    ensures (k + 1) * max == k * max + max && (k - 1) * max == k * max - max
  {
  }

  lemma CeilIsUnique(a: int, b: int, n: int, max: int)
    requires 0 < max && IsCeil(a, n, max) && IsCeil(b, n, max)
    ensures a == b
  {
    if a < b {
      Monotone(a, b - 1, max);
    } else if b < a {
      Monotone(b, a - 1, max);
    }
  }

  lemma Monotone(a: int, b: int, max: int)
    requires a <= b && 0 < max
    ensures a * max <= b * max
  {
  }

  lemma OneBulkMore(k: int, n: int, max: int)
    requires 0 < n && 0 < max && 0 <= k && IsCeil(k, n - (if max < n then max else n), max)
    ensures IsCeil(k + 1, n, max)
  {
    Multiples(k, max);
    Multiples(k - 1, max);
  }

  /** The batches of at most `max` readings that are sent one after the other. */
  function Bulks(batch: Readings, keys: seq<Timestamp>, max: nat): seq<Readings>
    requires max > 0
    decreases |keys|
  {
    if keys == [] then []
    else var k := Min(max, |keys|); [Part(batch, keys[..k])] + Bulks(batch, keys[k..], max)
  }

  function Combined(bulks: seq<Readings>): Readings {
    if bulks == [] then map[] else bulks[0] + Combined(bulks[1..])
  }

  predicate Before(a: Readings, b: Readings) {
    forall s, t :: s in a && t in b ==> s < t
  }

  ghost predicate AscendingBulks(bulks: seq<Readings>) {
    forall i, j :: 0 <= i < j < |bulks| ==> Before(bulks[i], bulks[j])
  }

  /** Every bulk's readings are readings of its stretch of keys. */
  lemma {:induction false} BulksStayInKeys(batch: Readings, keys: seq<Timestamp>, max: nat, i: nat)
    requires max > 0 && i < |Bulks(batch, keys, max)|
    ensures forall t :: t in Bulks(batch, keys, max)[i] ==> t in keys && t in batch
    decreases |keys|
  {
    var k := Min(max, |keys|);
    assert Bulks(batch, keys, max) == [Part(batch, keys[..k])] + Bulks(batch, keys[k..], max);
    if i > 0 {
      BulksStayInKeys(batch, keys[k..], max, i - 1);
    }
  }

  lemma PartSize(batch: Readings, keys: seq<Timestamp>)
    requires Strict(keys) && forall t :: t in keys ==> t in batch
    ensures |Part(batch, keys)| == |keys|
    decreases |keys|
  {
    if keys != [] {
      var last := |keys| - 1;
      StrictHalves(keys, last);
      StrictSplit(keys, last);
      PartSize(batch, keys[..last]);
      assert keys == keys[..last] + [keys[last]];
      assert Part(batch, keys) == Part(batch, keys[..last])[keys[last] := batch[keys[last]]];
      assert keys[last] !in Part(batch, keys[..last]);
    }
  }

  lemma {:induction false} FirstBulkIsBefore(batch: Readings, keys: seq<Timestamp>, k: nat, max: nat, i: nat)
    requires max > 0 && Strict(keys) && k <= |keys| && i < |Bulks(batch, keys[k..], max)|
    ensures Before(Part(batch, keys[..k]), Bulks(batch, keys[k..], max)[i])
  {
    var later := Bulks(batch, keys[k..], max)[i];
    BulksStayInKeys(batch, keys[k..], max, i);
    if k < |keys| {
      StrictSplit(keys, k);
    } else {
      assert keys[k..] == [];
    }
  }

  lemma BulksAscend(first: Readings, rest: seq<Readings>)
    requires AscendingBulks(rest) && forall i :: 0 <= i < |rest| ==> Before(first, rest[i])
    ensures AscendingBulks([first] + rest)
  {
    var bulks := [first] + rest;
    forall i, j | 0 <= i < j < |bulks| ensures Before(bulks[i], bulks[j]) {
      assert bulks[j] == rest[j - 1] && (i > 0 ==> bulks[i] == rest[i - 1]);
    }
  }

  lemma {:induction false} BulkCount(batch: Readings, keys: seq<Timestamp>, max: nat)
    requires max > 0
    ensures IsCeil(|Bulks(batch, keys, max)|, |keys|, max)
    decreases |keys|
  {
    if keys != [] {
      var k := Min(max, |keys|);
      BulkCount(batch, keys[k..], max);
      OneBulkMore(|Bulks(batch, keys[k..], max)|, |keys|, max);
    }
  }

  lemma {:induction false} BulkSizes(batch: Readings, keys: seq<Timestamp>, max: nat)
    requires max > 0 && Strict(keys) && forall t :: t in keys ==> t in batch
    ensures var bulks := Bulks(batch, keys, max);
      (forall i :: 0 <= i < |bulks| ==> 0 < |bulks[i]| <= max) && AscendingBulks(bulks)
    decreases |keys|
  {
    if keys != [] {
      var k := Min(max, |keys|);
      var first, rest := Part(batch, keys[..k]), Bulks(batch, keys[k..], max);
      StrictHalves(keys, k);
      BulkSizes(batch, keys[k..], max);
      PartSize(batch, keys[..k]);
      forall i | 0 <= i < |rest| ensures Before(first, rest[i]) {
        FirstBulkIsBefore(batch, keys, k, max, i);
      }
      BulksAscend(first, rest);
    }
  }

  lemma {:induction false} BulksMerge(batch: Readings, keys: seq<Timestamp>, max: nat)
    requires max > 0
    ensures Combined(Bulks(batch, keys, max)) == Part(batch, keys)
    decreases |keys|
  {
    if keys != [] {
      var k := Min(max, |keys|);
      BulksMerge(batch, keys[k..], max);
      PartOfConcat(batch, keys[..k], keys[k..]);
      assert keys == keys[..k] + keys[k..];
    }
  }

  lemma Enumerated(batch: Readings)
    ensures Part(batch, Enumerate(batch.Keys)) == batch && |Enumerate(batch.Keys)| == |batch|
  {
  }

  /** The bulks in which a whole batch is sent. */
  function BulksOf(batch: Readings, max: nat): seq<Readings>
    requires max > 0
  {
    Bulks(batch, Enumerate(batch.Keys), max)
  }

  /** Exactly ceil(n / max) bulks, none empty, none larger than `max`, each after the one before,
      and together the whole batch. */
  lemma BulksCoverTheBatch(batch: Readings, max: nat)
    requires max > 0
    ensures IsCeil(|BulksOf(batch, max)|, |batch|, max)
    ensures forall i :: 0 <= i < |BulksOf(batch, max)| ==> 0 < |BulksOf(batch, max)[i]| <= max
    ensures AscendingBulks(BulksOf(batch, max))
    ensures Combined(BulksOf(batch, max)) == batch
  {
    Enumerated(batch);
    BulkCount(batch, Enumerate(batch.Keys), max);
    BulkSizes(batch, Enumerate(batch.Keys), max);
    BulksMerge(batch, Enumerate(batch.Keys), max);
  }

  lemma {:induction false} NoBulkNoKeys(batch: Readings, keys: seq<Timestamp>, max: nat)
    requires max > 0
    ensures Bulks(batch, keys, max) == [] <==> keys == []
  {
  }

  /** The loop counter of `flush` starts at the number of bulks. */
  lemma CountsTheBulks(batch: Readings, max: nat)
    requires max > 0
    ensures CeilDiv(|batch|, max) == |BulksOf(batch, max)|
  {
    BulksCoverTheBatch(batch, max);
    CeilIsUnique(CeilDiv(|batch|, max), |BulksOf(batch, max)|, |batch|, max);
  }

  /** The stretch of keys that one bulk takes. */
  lemma {:induction false} NextBulk(batch: Readings, keys: seq<Timestamp>, start: nat, end: nat, max: nat)
    requires max > 0 && start < end <= |keys| && end - start == Min(max, |keys| - start)
    ensures Bulks(batch, keys[start..], max) == [Part(batch, keys[start..end])] + Bulks(batch, keys[end..], max)
  {
    var tail, k := keys[start..], end - start;
    assert Bulks(batch, tail, max) == [Part(batch, tail[..k])] + Bulks(batch, tail[k..], max);
    assert tail[..k] == keys[start..end];
    assert tail[k..] == keys[end..];
  }

  /** Inserting one bulk after the bulks before it. */
  lemma BulkInOrder(stored: Readings, batch: Readings, keys: seq<Timestamp>, start: nat, end: nat, ignoreErrors: bool)
    requires Strict(keys) && start < end <= |keys|
    requires ignoreErrors || Disjoint(Part(batch, keys[..start]), stored)
    ensures var so := Inserted(stored, Part(batch, keys[..start]), ignoreErrors);
      var bulk := Part(batch, keys[start..end]);
      && Inserted(so, bulk, ignoreErrors) == Inserted(stored, Part(batch, keys[..end]), ignoreErrors)
      && (!ignoreErrors ==> (Disjoint(bulk, so) <==> Disjoint(Part(batch, keys[..end]), stored)))
  {
    PartsInOrder(batch, keys, start, end);
    InsertedInOrder(stored, Part(batch, keys[..start]), Part(batch, keys[start..end]), keys[start], ignoreErrors);
  }

  /** These are keys of the batch in the order of its map. */
  ghost predicate KeysOf(batch: Readings, keys: seq<Timestamp>) {
    Strict(keys) && forall t :: t in keys ==> t in batch
  }

  /** The bulk has the readings from `start` to `i`. */
  ghost predicate Filling(batch: Readings, keys: seq<Timestamp>, start: nat, i: nat, bulk: Readings) {
    start <= i <= |keys| && bulk == Part(batch, keys[start..i]) && |bulk| == i - start
  }

  lemma EmptyBulk(batch: Readings, keys: seq<Timestamp>, start: nat)
    requires start <= |keys|
    ensures Filling(batch, keys, start, start, map[])
  {
  }

  /** One more reading in the bulk. */
  lemma BulkGrows(batch: Readings, keys: seq<Timestamp>, start: nat, i: nat)
    requires Strict(keys) && start <= i < |keys| && forall t :: t in keys ==> t in batch
    ensures Part(batch, keys[start..i+1]) == Part(batch, keys[start..i])[keys[i] := batch[keys[i]]]
    ensures |Part(batch, keys[start..i+1])| == i + 1 - start
  {
    var more := keys[start..i+1];
    assert more == keys[start..i] + [keys[i]];
    StrictSlice(keys, start, i + 1);
    forall t | t in more ensures t in batch {
      assert t in keys;
    }
    PartSize(batch, more);
  }

  lemma FillingNext(batch: Readings, keys: seq<Timestamp>, start: nat, i: nat, bulk: Readings)
    requires KeysOf(batch, keys) && Filling(batch, keys, start, i, bulk) && i < |keys|
    ensures keys[i] in batch && Filling(batch, keys, start, i + 1, bulk[keys[i] := batch[keys[i]]])
  {
    BulkGrows(batch, keys, start, i);
    assert keys[i] in keys;
  }

  lemma OneCallMore(calls: seq<Readings>, bulk: Readings, rest: seq<Readings>)
    ensures calls + ([bulk] + rest) == (calls + [bulk]) + rest
  {
  }
}
