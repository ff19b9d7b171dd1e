/** Putting the readings of several sensors side by side. */
module Collation {
  import opened Types
  import opened Ascending

  function Stamps(readings: Readings): seq<Timestamp> {
    Enumerate(readings.Keys)
  }

  ghost predicate SameSizes(series: seq<Readings>) {
    forall c :: 0 <= c < |series| ==> |series[c]| == |series[0]|
  }

  /** All sensors have readings for the same time stamps. */
  ghost predicate Aligned(series: seq<Readings>) {
    forall c :: 0 <= c < |series| ==> series[c].Keys == series[0].Keys
  }

  /** The rows that the loop compares: equal if and only if the time stamps are. */
  lemma SameStamps(a: Readings, b: Readings)
    ensures Stamps(a) == Stamps(b) <==> a.Keys == b.Keys
  {
    if Stamps(a) == Stamps(b) {
      assert forall t :: t in a.Keys <==> t in Stamps(a);
      assert forall t :: t in b.Keys <==> t in Stamps(b);
      assert a.Keys == b.Keys;
    }
  }

  /** Column `c` of the table holds the values of sensor `c - 1`. */
  ghost predicate Column(table: array2<real>, readings: Readings, c: nat)
    requires c < table.Length1
    reads table
  {
    |Stamps(readings)| == table.Length0 &&
    forall i :: 0 <= i < table.Length0 ==> table[i, c] == readings[Stamps(readings)[i]]
  }

  ghost predicate StampColumn(table: array2<real>, stamps: seq<Timestamp>)
    requires 0 < table.Length1
    reads table
  {
    |stamps| == table.Length0 && forall i :: 0 <= i < table.Length0 ==> table[i, 0] == stamps[i] as real
  }

  /** Row `i` is that of time stamp `t`. */
  ghost predicate RowAt(table: array2<real>, series: seq<Readings>, i: nat, t: Timestamp)
    requires i < table.Length0 && table.Length1 == 1 + |series|
    reads table
  {
    && table[i, 0] == t as real
    && forall c :: 0 <= c < |series| ==> t in series[c] && table[i, 1 + c] == series[c][t]
  }

  ghost predicate RowOfAStamp(table: array2<real>, series: seq<Readings>, i: nat)
    requires i < table.Length0 && table.Length1 == 1 + |series|
    reads table
  {
    exists t: Timestamp :: RowAt(table, series, i, t)
  }

  ghost predicate HasRow(table: array2<real>, series: seq<Readings>, t: Timestamp)
    requires table.Length1 == 1 + |series|
    reads table
  {
    exists i: nat :: i < table.Length0 && RowAt(table, series, i, t)
  }

  /** One row for each time stamp, in ascending order, with the value of each sensor at it. */
  ghost predicate SideBySide(table: array2<real>, series: seq<Readings>)
    requires series != []
    reads table
  {
    && table.Length0 == |series[0]| && table.Length1 == 1 + |series|
    && (forall i, j :: 0 <= i < j < table.Length0 ==> table[i, 0] < table[j, 0])
    && (forall i: nat :: i < table.Length0 ==> RowOfAStamp(table, series, i))
    && (forall t: Timestamp :: t in series[0] ==> HasRow(table, series, t))
  }

  lemma ColumnsSideBySide(table: array2<real>, series: seq<Readings>)
    requires series != [] && Aligned(series) && table.Length1 == 1 + |series|
    requires StampColumn(table, Stamps(series[0]))
    requires forall c :: 0 <= c < |series| ==> Column(table, series[c], 1 + c)
    ensures SideBySide(table, series)
  {
    var stamps := Stamps(series[0]);
    forall i: nat | i < table.Length0 ensures RowOfAStamp(table, series, i) {
      StampsInARow(table, series, i);
    }
    forall i, j | 0 <= i < j < table.Length0 ensures table[i, 0] < table[j, 0] {
      assert Less(stamps, i, j);
    }
    forall t: Timestamp | t in series[0] ensures HasRow(table, series, t) {
      var i: nat :| i < |stamps| && stamps[i] == t;
      StampsInARow(table, series, i);
    }
  }

  lemma StampsInARow(table: array2<real>, series: seq<Readings>, i: nat)
    requires series != [] && Aligned(series) && table.Length1 == 1 + |series| && i < |Stamps(series[0])|
    requires StampColumn(table, Stamps(series[0]))
    requires forall c :: 0 <= c < |series| ==> Column(table, series[c], 1 + c)
    ensures RowAt(table, series, i, Stamps(series[0])[i])
  {
    var stamps := Stamps(series[0]);
    forall c | 0 <= c < |series| ensures stamps[i] in series[c] && table[i, 1 + c] == series[c][stamps[i]] {
      SameStamps(series[c], series[0]);
      assert Column(table, series[c], 1 + c);
      assert stamps[i] in stamps;
    }
  }

  method CheckSizes(series: seq<Readings>) returns (ok: bool, count: nat)
    ensures ok <==> SameSizes(series)
    ensures ok ==> count == if series == [] then 0 else |series[0]|
  {
    count := 0;
    var c := 0;
    while c < |series|
      invariant 0 <= c <= |series|
      invariant count == if c == 0 then 0 else |series[0]|
      invariant forall d :: 0 <= d < c ==> |series[d]| == |series[0]|
    {
      if c == 0 {
        count := |series[c]|;
      } else if |series[c]| != count {
        return false, count;
      }
      c := c + 1;
    }
    ok := true;
  }

  /** The inner loop of `collate`: the first sensor brings the time stamps, the others must match. */
  method FillColumn(table: array2<real>, ghost first: seq<Timestamp>, readings: Readings, c: nat) returns (ok: bool)
    requires 0 < c < table.Length1 && |Stamps(readings)| == table.Length0 == |first|
    requires if c == 1 then first == Stamps(readings) else StampColumn(table, first)
    modifies table
    ensures forall i, d :: 0 <= i < table.Length0 && 0 < d < table.Length1 && d != c ==> table[i, d] == old(table[i, d])
    ensures ok <==> Stamps(readings) == first
    ensures ok ==> StampColumn(table, first) && Column(table, readings, c)
  {
    var stamps := Stamps(readings);
    var i := 0;
    while i < |stamps|
      invariant 0 <= i <= |stamps| && forall j :: 0 <= j < i ==> stamps[j] == first[j]
      invariant forall j, d :: 0 <= j < table.Length0 && 0 < d < table.Length1 && d != c ==>
        table[j, d] == old(table[j, d])
      invariant forall j :: 0 <= j < i || (c > 1 && i <= j < |stamps|) ==> table[j, 0] == first[j] as real
      invariant forall j :: 0 <= j < i ==> table[j, c] == readings[stamps[j]]
    {
      if c == 1 {
        table[i, 0] := stamps[i] as real;
        table[i, c] := readings[stamps[i]];
      } else if table[i, 0] == stamps[i] as real {
        table[i, c] := readings[stamps[i]];
      } else {
        return false;
      }
      i := i + 1;
    }
    ok := true;
  }

  /** The columns of the first `c` sensors are in. */
  ghost predicate Columns(table: array2<real>, series: seq<Readings>, c: nat)
    requires c <= |series|
    reads table
  {
    && table.Length1 == 1 + |series|
    && (c > 0 ==> StampColumn(table, Stamps(series[0])))
    && (forall d :: 0 <= d < c ==> series[d].Keys == series[0].Keys)
    && (forall d :: 0 <= d < c ==> Column(table, series[d], 1 + d))
  }

  method AddColumn(table: array2<real>, series: seq<Readings>, c: nat) returns (ok: bool)
    requires c < |series| && |series[c]| == |series[0]| == table.Length0 && Columns(table, series, c)
    modifies table
    ensures if ok then Columns(table, series, c + 1) else !Aligned(series)
  {
    SameStamps(series[c], series[0]);
    ok := FillColumn(table, Stamps(series[0]), series[c], 1 + c);
    if ok {
      forall d | 0 <= d < c ensures Column(table, series[d], 1 + d) {
        assert old(Column(table, series[d], 1 + d));
      }
    }
  }

  /** `collate`, up to the table it fills; no table where it throws. */
  method Collate(series: seq<Readings>) returns (retval: array2?<real>)
    ensures retval != null <==> Aligned(series)
    ensures retval != null ==> retval.Length1 == 1 + |series| && (series == [] ==> retval.Length0 == 0)
    ensures retval != null && series != [] ==> SideBySide(retval, series)
  {
    var ok, count := CheckSizes(series);
    DifferentSizes(series);
    if !ok {
      return null;
    }
    var table := new real[count, 1 + |series|];
    var c := 0;
    while c < |series|
      invariant 0 <= c <= |series| && Columns(table, series, c)
    {
      ok := AddColumn(table, series, c);
      if !ok {
        return null;
      }
      c := c + 1;
    }
    if series != [] {
      ColumnsSideBySide(table, series);
    }
    retval := table;
  }

  lemma DifferentSizes(series: seq<Readings>)
    ensures Aligned(series) ==> SameSizes(series)
  {
    forall c | 0 <= c < |series| && series[c].Keys == series[0].Keys ensures |series[c]| == |series[0]| {
      assert |Stamps(series[c])| == |Stamps(series[0])|;
    }
  }
}
