/** The Octave exporter: one row of 1440 minutes for each day. */
module Octave {
  import opened Types

  const SECONDS_PER_DAY := 86400
  const MINUTES_PER_DAY := 1440

  /** An entry of the `std::map` that is exported. */
  datatype Reading = Reading(t: int, v: real)

  type Row = seq<real>

  function EmptyRow(): (row: Row)
    ensures |row| == MINUTES_PER_DAY && forall m :: 0 <= m < |row| ==> row[m] == 0.0
  {
    seq(MINUTES_PER_DAY, m => 0.0)
  }

  // ---------- machine integers ----------

  function ToUint32(x: int): int {
    x % 0x1_0000_0000
  }

  function ToInt32(x: int): int {
    if ToUint32(x) < 0x8000_0000 then ToUint32(x) else ToUint32(x) - 0x1_0000_0000
  }

  /** The conversion to `size_type` of a 64 bit number. */
  function ToSize(x: int): nat {
    x % 0x1_0000_0000_0000_0000
  }

  /** Division that truncates toward zero. */
  function Quotient(a: int, b: nat): int
    requires b > 0
  {
    if a >= 0 then a / b else -(-a / b)
  }

  // ---------- the exporter ----------

  function CalcNextDay(t: int): int {
    var ts := ToUint32(t);
    ToUint32(ts + SECONDS_PER_DAY - ts % SECONDS_PER_DAY)
  }

  function Position(t: int, nextDay: int): nat {
    ToSize(Quotient(t - ToUint32(ToUint32(nextDay) - SECONDS_PER_DAY), 60))
  }

  /** The rows written out, the row being filled, and the end of its day. */
  datatype Page = Page(done: seq<Row>, current: Row, nextDay: int)

  function Turned(p: Page, t: int): Page {
    if t >= p.nextDay then Page(p.done + [p.current], EmptyRow(), ToInt32(CalcNextDay(t + 1))) else p
  }

  /** A minute that is taken, by a value other than zero, passes the reading on to the next one, which
      past the last minute is outside of the row. */
  function Entered(p: Page, position: nat, v: real): Option<Page>
    requires |p.current| == MINUTES_PER_DAY
  {
    var slot := if position < MINUTES_PER_DAY && p.current[position] != 0.0 then position + 1 else position;
    if slot < MINUTES_PER_DAY then Some(p.(current := p.current[slot := v])) else None
  }

  function Step(p: Page, r: Reading): Option<Page>
    requires |p.current| == MINUTES_PER_DAY
  {
    var q := Turned(p, r.t);
    Entered(q, Position(r.t, q.nextDay), r.v)
  }

  function Begun(first: Reading): Page {
    Page([], EmptyRow(), ToInt32(CalcNextDay(first.t)))
  }

  /** The page after the first `i` readings, unless one was written outside of a row. */
  function Filled(rs: seq<Reading>, i: nat): (p: Option<Page>)
    requires rs != [] && i <= |rs|
    ensures p.Some? ==> |p.value.current| == MINUTES_PER_DAY
  {
    if i == 0 then Some(Begun(rs[0]))
    else match Filled(rs, i - 1)
         case None => None
         case Some(p) => Step(p, rs[i - 1])
  }

  function Export(rs: seq<Reading>): Option<seq<Row>>
    requires rs != []
  {
    match Filled(rs, |rs|)
    case None => None
    case Some(p) => Some(p.done + [p.current])
  }

  method NewDay() returns (currentDay: array<real>)
    ensures fresh(currentDay) && currentDay.Length == MINUTES_PER_DAY && currentDay[..] == EmptyRow()
  {
    currentDay := new real[MINUTES_PER_DAY](_ => 0.0);
  }

  /** Puts one reading into the row. */
  method Enter(currentDay: array<real>, position: nat, v: real) returns (ok: bool)
    requires currentDay.Length == MINUTES_PER_DAY
    modifies currentDay
    ensures forall out: seq<Row>, nextDay: int ::
      Entered(Page(out, old(currentDay[..]), nextDay), position, v)
        == if ok then Some(Page(out, currentDay[..], nextDay)) else None
  {
    if position >= MINUTES_PER_DAY {
      return false;
    }
    if currentDay[position] != 0.0 {
      if position + 1 >= MINUTES_PER_DAY {
        return false;
      }
      currentDay[position + 1] := v;
    } else {
      currentDay[position] := v;
    }
    ok := true;
  }

  /** `write_values_function`; the text around the numbers is left away. */
  method WriteValues(rs: seq<Reading>) returns (r: Option<seq<Row>>)
    requires rs != []
    ensures r == Export(rs)
  {
    var out: seq<Row> := [];
    var currentDay := NewDay();
    var nextDay := ToInt32(CalcNextDay(rs[0].t));
    var i := 0;
    while i < |rs|
      invariant 0 <= i <= |rs| && fresh(currentDay) && currentDay.Length == MINUTES_PER_DAY
      invariant Filled(rs, i) == Some(Page(out, currentDay[..], nextDay))
    {
      ghost var p := Page(out, currentDay[..], nextDay);
      if rs[i].t >= nextDay {
        out := out + [currentDay[..]];
        nextDay := ToInt32(CalcNextDay(rs[i].t + 1));
        currentDay := NewDay();
      }
      assert Page(out, currentDay[..], nextDay) == Turned(p, rs[i].t);
      var ok := Enter(currentDay, Position(rs[i].t, nextDay), rs[i].v);
      i := i + 1;
      if !ok {
        FilledFails(rs, i);
        return None;
      }
    }
    r := Some(out + [currentDay[..]]);
  }

  /** What is written outside of a row is not repaired later. */
  lemma {:induction false} FilledFails(rs: seq<Reading>, i: nat)
    requires rs != [] && i <= |rs| && Filled(rs, i).None?
    ensures Export(rs).None?
    decreases |rs| - i
  {
    if i < |rs| {
      FilledFails(rs, i + 1);
    }
  }

  // ---------- days and minutes ----------

  function Day(t: int): int {
    t / SECONDS_PER_DAY
  }

  function Minute(t: int): nat {
    t % SECONDS_PER_DAY / 60
  }

  /** As the map delivers them. */
  ghost predicate Ascends(rs: seq<Reading>) {
    forall i, j :: 0 <= i < j < |rs| ==> rs[i].t < rs[j].t
  }

  /** The beginning of the day after the next is within 32 bits. */
  ghost predicate Int32Safe(rs: seq<Reading>) {
    forall i :: 0 <= i < |rs| ==> 0 <= rs[i].t && rs[i].t + 1 + SECONDS_PER_DAY < 0x8000_0000
  }

  lemma NextDayIs(t: int)
    requires 0 <= t && t + SECONDS_PER_DAY < 0x8000_0000
    ensures ToInt32(CalcNextDay(t)) == (Day(t) + 1) * SECONDS_PER_DAY
  {
    assert t - t % SECONDS_PER_DAY == Day(t) * SECONDS_PER_DAY;
  }

  /** The end of a day is computed within 32 bits, and kept as a signed number. */
  lemma NextDayWraps(t: int)
    requires 0 <= t < 0x1_0000_0000
    ensures var end := (Day(t) + 1) * SECONDS_PER_DAY;
      && CalcNextDay(t) == (if end < 0x1_0000_0000 then end else end - 0x1_0000_0000)
      && CalcNextDay(t - 0x1_0000_0000) == CalcNextDay(t)
      && (0x8000_0000 <= end < 0x1_0000_0000 ==> ToInt32(CalcNextDay(t)) == end - 0x1_0000_0000)
  {
    assert t - t % SECONDS_PER_DAY == Day(t) * SECONDS_PER_DAY;
    assert ToUint32(t - 0x1_0000_0000) == t;
  }

  /** A minute or more before the open day the position is negative, which `size_type` has as a huge number. */
  lemma EarlierIsOutside(t: int, d: int)
    requires 0 <= t <= d * SECONDS_PER_DAY - 60 && (d + 1) * SECONDS_PER_DAY < 0x8000_0000
    ensures Position(t, (d + 1) * SECONDS_PER_DAY) >= MINUTES_PER_DAY
  {
    var start := d * SECONDS_PER_DAY;
    assert ToUint32(ToUint32((d + 1) * SECONDS_PER_DAY) - SECONDS_PER_DAY) == start;
    assert -(start - t) <= Quotient(t - start, 60) <= -1;
  }

  /** Where a reading goes while day `d` is open; one second early counts as the first minute, because
      the division truncates toward zero. */
  lemma PositionIs(t: int, d: int)
    requires 0 <= d && 0 <= t && (d + 1) * SECONDS_PER_DAY < 0x8000_0000
    requires d * SECONDS_PER_DAY - 1 <= t < (d + 1) * SECONDS_PER_DAY
    ensures Position(t, (d + 1) * SECONDS_PER_DAY) == if Day(t) == d then Minute(t) else 0
    ensures Position(t, (d + 1) * SECONDS_PER_DAY) < MINUTES_PER_DAY
  {
    var start := d * SECONDS_PER_DAY;
    assert ToUint32(ToUint32((d + 1) * SECONDS_PER_DAY) - SECONDS_PER_DAY) == start;
    if t >= start {
      assert Day(t) == d && t % SECONDS_PER_DAY == t - start;
    } else {
      assert t == start - 1 && Day(t) == d - 1;
    }
  }

  /** The end of the open day is a multiple of a day and lies after the last reading. */
  predicate Ahead(p: Page, t: int) {
    0 < p.nextDay < 0x8000_0000 && p.nextDay % SECONDS_PER_DAY == 0 && t < p.nextDay
  }

  lemma LaterDay(nextDay: int, last: int, t: int)
    requires nextDay % SECONDS_PER_DAY == 0 && last < nextDay <= t
    ensures Day(last) < Day(t)
  {
    var d := nextDay / SECONDS_PER_DAY;
    assert nextDay == d * SECONDS_PER_DAY;
  }

  lemma TurnedIsAhead(p: Page, last: int, t: int)
    requires Ahead(p, last) && last < t && 0 <= t && t + 1 + SECONDS_PER_DAY < 0x8000_0000
    requires p.nextDay - SECONDS_PER_DAY - 1 <= last
    ensures var q := Turned(p, t);
      && Ahead(q, t) && q.nextDay - SECONDS_PER_DAY - 1 <= t
      && Position(t, q.nextDay) < MINUTES_PER_DAY
      && (t >= p.nextDay ==> Day(t) > Day(last))
  {
    assert t >= p.nextDay ==> Day(t) > Day(last) by {
      if t >= p.nextDay { LaterDay(p.nextDay, last, t); }
    }
    var q := Turned(p, t);
    assert Ahead(q, t) && q.nextDay - SECONDS_PER_DAY - 1 <= t by {
      NextDayIs(t + 1);
    }
    assert Position(t, q.nextDay) < MINUTES_PER_DAY by {
      var d := q.nextDay / SECONDS_PER_DAY - 1;
      assert q.nextDay == (d + 1) * SECONDS_PER_DAY;
      PositionIs(t, d);
    }
  }

  lemma BegunIsAhead(first: Reading)
    requires 0 <= first.t && first.t + 1 + SECONDS_PER_DAY < 0x8000_0000
    ensures var p := Begun(first);
      && Ahead(p, first.t) && p.nextDay == (Day(first.t) + 1) * SECONDS_PER_DAY
      && Turned(p, first.t) == p && Position(first.t, p.nextDay) == Minute(first.t) < MINUTES_PER_DAY
  {
    NextDayIs(first.t);
    PositionIs(first.t, Day(first.t));
  }

  /** However the readings lie: the end of the open day stays a multiple of a day after the last reading,
      and every reading gets a slot of its row. */
  lemma {:induction false} SlotsAreInTheDay(rs: seq<Reading>, i: nat)
    requires Ascends(rs) && Int32Safe(rs) && i < |rs| && Filled(rs, i).Some?
    ensures var q := Turned(Filled(rs, i).value, rs[i].t);
      Ahead(q, rs[i].t) && q.nextDay - SECONDS_PER_DAY - 1 <= rs[i].t && Position(rs[i].t, q.nextDay) < MINUTES_PER_DAY
    decreases i
  {
    if i == 0 {
      BegunIsAhead(rs[0]);
    } else {
      SlotsAreInTheDay(rs, i - 1);
      TurnedIsAhead(Filled(rs, i).value, rs[i - 1].t, rs[i].t);
    }
  }

  /** A reading falls outside of its row only after a taken last minute of the day. */
  lemma OnlyTheLastMinuteOverflows(rs: seq<Reading>, i: nat)
    requires Ascends(rs) && Int32Safe(rs) && i < |rs| && Filled(rs, i).Some?
    ensures var q := Turned(Filled(rs, i).value, rs[i].t);
      Filled(rs, i + 1).None? <==>
        Position(rs[i].t, q.nextDay) == MINUTES_PER_DAY - 1 && q.current[MINUTES_PER_DAY - 1] != 0.0
  {
    SlotsAreInTheDay(rs, i);
  }

  // ---------- the grid ----------

  /** The days on which there are readings, in order. */
  function Days(rs: seq<Reading>, i: nat): seq<int>
    requires i <= |rs|
  {
    if i == 0 then []
    else if i > 1 && Day(rs[i - 1].t) == Day(rs[i - 2].t) then Days(rs, i - 1)
    else Days(rs, i - 1) + [Day(rs[i - 1].t)]
  }

  /** The values of day `d` in minute `m`, as they come. */
  function At(rs: seq<Reading>, i: nat, d: int, m: int): seq<real>
    requires i <= |rs|
  {
    if i == 0 then []
    else At(rs, i - 1, d, m) + if Day(rs[i - 1].t) == d && Minute(rs[i - 1].t) == m then [rs[i - 1].v] else []
  }

  /** What a minute holds if `x` was left there before its own values came: the first one that is not zero. */
  function Held(x: real, vs: seq<real>): real {
    if vs == [] then x
    else var before := Held(x, vs[..|vs|-1]); if before != 0.0 then before else vs[|vs|-1]
  }

  /** What it leaves to the next minute: its last value, if it was taken already. */
  function Left(x: real, vs: seq<real>): real {
    if vs != [] && Held(x, vs[..|vs|-1]) != 0.0 then vs[|vs|-1] else 0.0
  }

  /** What minutes with these values leave to the next one. */
  function Carried(minutes: seq<seq<real>>): real {
    if minutes == [] then 0.0 else Left(Carried(minutes[..|minutes|-1]), minutes[|minutes|-1])
  }

  /** The first `m` minutes of day `d`. */
  function Before(rs: seq<Reading>, i: nat, d: int, m: nat): seq<seq<real>>
    requires i <= |rs|
  {
    seq(m, k requires 0 <= k < m => At(rs, i, d, k))
  }

  function LeftBefore(rs: seq<Reading>, i: nat, d: int, m: nat): real
    requires i <= |rs|
  {
    Carried(Before(rs, i, d, m))
  }

  /** Minute `m` of day `d`, from the values of that minute and those before it. */
  function ValueAt(rs: seq<Reading>, i: nat, d: int, m: nat): real
    requires i <= |rs|
  {
    Held(LeftBefore(rs, i, d, m), At(rs, i, d, m))
  }

  function RowOf(rs: seq<Reading>, i: nat, d: int): (row: Row)
    requires i <= |rs|
    ensures |row| == MINUTES_PER_DAY
  {
    seq(MINUTES_PER_DAY, m requires 0 <= m < MINUTES_PER_DAY => ValueAt(rs, i, d, m))
  }

  /** One row for each day with readings, minute by minute. */
  ghost predicate IsGrid(rows: seq<Row>, rs: seq<Reading>, i: nat)
    requires i <= |rs|
  {
    && |rows| == |Days(rs, i)|
    && forall k {:trigger rows[k]} :: 0 <= k < |rows| ==> rows[k] == RowOf(rs, i, Days(rs, i)[k])
  }

  /** No two readings in the same minute. */
  ghost predicate Distinct(rs: seq<Reading>) {
    forall i, j {:trigger rs[i], rs[j]} :: 0 <= i < j < |rs| ==>
      !(Day(rs[i].t) == Day(rs[j].t) && Minute(rs[i].t) == Minute(rs[j].t))
  }

  /** The first reading of a later day, in that day's last second. */
  predicate Late(rs: seq<Reading>, i: int) {
    0 < i < |rs| && Day(rs[i - 1].t) < Day(rs[i].t) && rs[i].t % SECONDS_PER_DAY == SECONDS_PER_DAY - 1
  }

  lemma {:induction false} LeftIs(rs: seq<Reading>, i: nat, d: int, m: nat)
    requires i <= |rs|
    ensures LeftBefore(rs, i, d, m + 1) == Left(LeftBefore(rs, i, d, m), At(rs, i, d, m))
  {
    assert Before(rs, i, d, m + 1)[..m] == Before(rs, i, d, m);
  }

  lemma {:induction false} NoneAt(rs: seq<Reading>, i: nat, d: int, m: int)
    requires i <= |rs| && forall j :: 0 <= j < i ==> !(Day(rs[j].t) == d && Minute(rs[j].t) == m)
    ensures At(rs, i, d, m) == []
  {
    if i > 0 {
      NoneAt(rs, i - 1, d, m);
    }
  }

  /** A minute without values leaves nothing to the next. */
  lemma {:induction false} NothingLeft(rs: seq<Reading>, i: nat, d: int, m: nat)
    requires i <= |rs|
    requires m > 0 ==> At(rs, i, d, m - 1) == []
    ensures LeftBefore(rs, i, d, m) == 0.0
  {
    if m > 0 {
      LeftIs(rs, i, d, m - 1);
    }
  }

  lemma {:induction false} NoReadingNoValue(rs: seq<Reading>, i: nat, d: int, m: nat)
    requires i <= |rs|
    requires forall j :: 0 <= j < i ==> !(Day(rs[j].t) == d && m - 1 <= Minute(rs[j].t) <= m)
    ensures ValueAt(rs, i, d, m) == 0.0
  {
    NoneAt(rs, i, d, m);
    if m > 0 {
      NoneAt(rs, i, d, m - 1);
    }
    NothingLeft(rs, i, d, m);
  }

  lemma {:induction false} NothingLeftOver(rs: seq<Reading>, i: nat, d: int, m: nat)
    requires Distinct(rs) && i <= |rs|
    ensures LeftBefore(rs, i, d, m) == 0.0
    decreases m
  {
    if m > 0 {
      NothingLeftOver(rs, i, d, m - 1);
      AtMostOne(rs, i, d, m - 1);
      LeftIs(rs, i, d, m - 1);
    }
  }

  /** With at most one reading a minute nothing is left over: each stands at its minute, with zero elsewhere. */
  lemma {:induction false} OneReadingAMinute(rs: seq<Reading>, i: nat, d: int, m: nat)
    requires Distinct(rs) && i <= |rs|
    ensures forall j :: 0 <= j < i && Day(rs[j].t) == d && Minute(rs[j].t) == m ==> ValueAt(rs, i, d, m) == rs[j].v
    ensures (forall j :: 0 <= j < i ==> !(Day(rs[j].t) == d && Minute(rs[j].t) == m)) ==> ValueAt(rs, i, d, m) == 0.0
  {
    NothingLeftOver(rs, i, d, m);
    AtMostOne(rs, i, d, m);
    forall j | 0 <= j < i && Day(rs[j].t) == d && Minute(rs[j].t) == m ensures ValueAt(rs, i, d, m) == rs[j].v {
      var vs := [rs[j].v];
      assert At(rs, i, d, m) == vs && vs[..0] == [];
      assert Held(0.0, vs) == rs[j].v;
    }
    if forall j :: 0 <= j < i ==> !(Day(rs[j].t) == d && Minute(rs[j].t) == m) {
      NoneAt(rs, i, d, m);
    }
  }

  lemma {:induction false} AtMostOne(rs: seq<Reading>, i: nat, d: int, m: int)
    requires Distinct(rs) && i <= |rs|
    ensures |At(rs, i, d, m)| <= 1
    ensures forall j :: 0 <= j < i && Day(rs[j].t) == d && Minute(rs[j].t) == m ==> At(rs, i, d, m) == [rs[j].v]
  {
    if i > 0 {
      AtMostOne(rs, i - 1, d, m);
      if Day(rs[i - 1].t) == d && Minute(rs[i - 1].t) == m {
        NoneAt(rs, i - 1, d, m);
      }
    }
  }

  // ---------- one more reading ----------

  lemma {:induction false} HeldNext(x: real, vs: seq<real>, v: real)
    ensures Held(x, vs + [v]) == if Held(x, vs) != 0.0 then Held(x, vs) else v
    ensures Left(x, vs + [v]) == if Held(x, vs) != 0.0 then v else 0.0
    ensures Held(x, vs) == 0.0 ==> Left(x, vs) == 0.0
  {
    assert (vs + [v])[..|vs|] == vs;
  }

  lemma {:induction false} AtNext(rs: seq<Reading>, i: nat, d: int, m: int)
    requires i < |rs|
    ensures At(rs, i + 1, d, m) ==
      if Day(rs[i].t) == d && Minute(rs[i].t) == m then At(rs, i, d, m) + [rs[i].v] else At(rs, i, d, m)
  {
    assert At(rs, i, d, m) + [] == At(rs, i, d, m);
  }

  lemma {:induction false} LeftNext(rs: seq<Reading>, i: nat, d: int, m: nat)
    requires i < |rs| && !(Day(rs[i].t) == d && Minute(rs[i].t) < m)
    ensures LeftBefore(rs, i + 1, d, m) == LeftBefore(rs, i, d, m)
  {
    forall k | 0 <= k < m ensures Before(rs, i + 1, d, m)[k] == Before(rs, i, d, m)[k] {
      AtNext(rs, i, d, k);
    }
    assert Before(rs, i + 1, d, m) == Before(rs, i, d, m);
  }

  /** The slot that the next reading takes. */
  function Slot(rs: seq<Reading>, i: nat): int
    requires i < |rs|
  {
    var d, m := Day(rs[i].t), Minute(rs[i].t);
    if ValueAt(rs, i, d, m) != 0.0 then m + 1 else m
  }

  /** The minute of the reading, and what it leaves to the next one. */
  lemma {:induction false} OwnMinute(rs: seq<Reading>, i: nat)
    requires i < |rs|
    ensures var d, m := Day(rs[i].t), Minute(rs[i].t); var before := ValueAt(rs, i, d, m);
      && ValueAt(rs, i + 1, d, m) == (if before != 0.0 then before else rs[i].v)
      && LeftBefore(rs, i + 1, d, m + 1) == if before != 0.0 then rs[i].v else 0.0
  {
    var d, m := Day(rs[i].t), Minute(rs[i].t);
    LeftNext(rs, i, d, m);
    AtNext(rs, i, d, m);
    HeldNext(LeftBefore(rs, i, d, m), At(rs, i, d, m), rs[i].v);
    LeftIs(rs, i + 1, d, m);
  }

  lemma {:induction false} FollowingMinute(rs: seq<Reading>, i: nat)
    requires Ascends(rs) && i < |rs|
    ensures var d, m := Day(rs[i].t), Minute(rs[i].t);
      ValueAt(rs, i + 1, d, m + 1) == if ValueAt(rs, i, d, m) != 0.0 then rs[i].v else ValueAt(rs, i, d, m + 1)
  {
    var d, m := Day(rs[i].t), Minute(rs[i].t);
    OwnMinute(rs, i);
    NoneLater(rs, i, m + 1);
    LeftIs(rs, i, d, m);
    HeldNext(LeftBefore(rs, i, d, m), At(rs, i, d, m), 0.0);
  }

  /** The readings ascend. */
  lemma {:induction false} NoneLater(rs: seq<Reading>, i: nat, m: nat)
    requires Ascends(rs) && i < |rs| && m > Minute(rs[i].t)
    ensures At(rs, i, Day(rs[i].t), m) == [] && At(rs, i + 1, Day(rs[i].t), m) == []
  {
    MinutesAscend(rs, i);
    NoneAt(rs, i, Day(rs[i].t), m);
    AtNext(rs, i, Day(rs[i].t), m);
  }

  lemma {:induction false} LaterMinute(rs: seq<Reading>, i: nat, m: nat)
    requires Ascends(rs) && i < |rs| && m > Minute(rs[i].t) + 1
    ensures ValueAt(rs, i + 1, Day(rs[i].t), m) == ValueAt(rs, i, Day(rs[i].t), m)
  {
    var d := Day(rs[i].t);
    NoneLater(rs, i, m);
    NoneLater(rs, i, m - 1);
    NothingLeft(rs, i, d, m);
    NothingLeft(rs, i + 1, d, m);
  }

  lemma {:induction false} EarlierMinute(rs: seq<Reading>, i: nat, d: int, m: nat)
    requires i < |rs| && (Day(rs[i].t) != d || m < Minute(rs[i].t))
    ensures ValueAt(rs, i + 1, d, m) == ValueAt(rs, i, d, m)
  {
    LeftNext(rs, i, d, m);
    AtNext(rs, i, d, m);
  }

  lemma {:induction false} NextValue(rs: seq<Reading>, i: nat, d: int, m: nat)
    requires Ascends(rs) && i < |rs|
    ensures ValueAt(rs, i + 1, d, m) ==
      if Day(rs[i].t) == d && Slot(rs, i) == m then rs[i].v else ValueAt(rs, i, d, m)
  {
    var p := Minute(rs[i].t);
    if Day(rs[i].t) != d || m < p {
      EarlierMinute(rs, i, d, m);
    } else if m == p {
      OwnMinute(rs, i);
    } else if m == p + 1 {
      FollowingMinute(rs, i);
    } else {
      LaterMinute(rs, i, m);
    }
  }

  lemma MinutesAscend(rs: seq<Reading>, i: nat)
    requires Ascends(rs) && i < |rs|
    ensures forall j :: 0 <= j < i && Day(rs[j].t) == Day(rs[i].t) ==> Minute(rs[j].t) <= Minute(rs[i].t)
  {
  }

  lemma DayOrder(rs: seq<Reading>, i: nat, j: nat)
    requires Ascends(rs) && i <= j < |rs|
    ensures Day(rs[i].t) <= Day(rs[j].t)
  {
  }

  /** The last day of the list is that of the last reading, and all days are different. */
  lemma {:induction false} LastDay(rs: seq<Reading>, i: nat)
    requires Ascends(rs) && 0 < i <= |rs|
    ensures var ds := Days(rs, i);
      && ds != [] && ds[|ds| - 1] == Day(rs[i - 1].t)
      && forall k :: 0 <= k < |ds| - 1 ==> ds[k] < Day(rs[i - 1].t)
  {
    if i > 1 {
      LastDay(rs, i - 1);
      DayOrder(rs, i - 2, i - 1);
    }
  }

  function Rows(p: Page): seq<Row> {
    p.done + [p.current]
  }

  /** The end of the day that is open after the first `i` readings, as long as nothing has gone wrong. */
  function OpenUntil(rs: seq<Reading>, i: nat): int
    requires 0 < i <= |rs|
  {
    (Day(rs[i - 1].t) + 1 + if Late(rs, i - 1) then 1 else 0) * SECONDS_PER_DAY
  }

  ghost predicate OnTrack(rs: seq<Reading>, i: nat)
    requires 0 < i <= |rs|
  {
    Filled(rs, i).Some? && var p := Filled(rs, i).value; IsGrid(Rows(p), rs, i) && p.nextDay == OpenUntil(rs, i)
  }

  /** Nothing is lost by a late reading: it is zero anyway, and nothing is read on the day after. */
  predicate Harmless(rs: seq<Reading>, i: nat)
    requires i < |rs|
  {
    Late(rs, i) ==> rs[i].v == 0.0 && (i + 1 < |rs| ==> Day(rs[i + 1].t) != Day(rs[i].t) + 1)
  }

  /** The reading has a slot of its row. */
  predicate Fits(rs: seq<Reading>, i: nat)
    requires i < |rs|
  {
    Slot(rs, i) < MINUTES_PER_DAY
  }

  lemma {:induction false} RowNext(rs: seq<Reading>, i: nat, d: int)
    requires Ascends(rs) && i < |rs| && 0 <= rs[i].t && Fits(rs, i)
    ensures RowOf(rs, i + 1, d) ==
      if Day(rs[i].t) == d then RowOf(rs, i, d)[Slot(rs, i) := rs[i].v] else RowOf(rs, i, d)
  {
    var next := if Day(rs[i].t) == d then RowOf(rs, i, d)[Slot(rs, i) := rs[i].v] else RowOf(rs, i, d);
    forall m | 0 <= m < MINUTES_PER_DAY ensures RowOf(rs, i + 1, d)[m] == next[m] {
      NextValue(rs, i, d, m);
    }
  }

  lemma {:induction false} EmptyRowIs(rs: seq<Reading>, i: nat, d: int)
    requires i <= |rs| && forall j :: 0 <= j < i ==> Day(rs[j].t) != d
    ensures RowOf(rs, i, d) == EmptyRow()
  {
    forall m | 0 <= m < MINUTES_PER_DAY ensures RowOf(rs, i, d)[m] == 0.0 {
      NoReadingNoValue(rs, i, d, m);
    }
  }

  lemma {:induction false} FirstOnTrack(rs: seq<Reading>)
    requires Ascends(rs) && Int32Safe(rs) && rs != []
    ensures OnTrack(rs, 1)
  {
    BegunIsAhead(rs[0]);
    var p, d := Begun(rs[0]), Day(rs[0].t);
    assert Filled(rs, 0) == Some(p);
    assert Filled(rs, 1) == Entered(p, Minute(rs[0].t), rs[0].v);
    FirstFits(rs);
    FreshRow(rs, 0);
    FirstGrid(rs, RowOf(rs, 1, d));
    assert Rows(Filled(rs, 1).value) == [RowOf(rs, 1, d)];
  }

  lemma {:induction false} FirstGrid(rs: seq<Reading>, row: Row)
    requires rs != [] && row == RowOf(rs, 1, Day(rs[0].t))
    ensures IsGrid([row], rs, 1)
  {
    assert Days(rs, 1) == [Day(rs[0].t)];
  }

  lemma {:induction false} FirstFits(rs: seq<Reading>)
    requires rs != [] && 0 <= rs[0].t
    ensures Slot(rs, 0) == Minute(rs[0].t) && Fits(rs, 0)
  {
    NoReadingNoValue(rs, 0, Day(rs[0].t), Minute(rs[0].t));
  }

  lemma {:induction false} SameDayFills(rs: seq<Reading>, i: nat)
    requires Ascends(rs) && Int32Safe(rs) && 0 < i < |rs| && OnTrack(rs, i)
    requires Day(rs[i].t) == Day(rs[i - 1].t)
    ensures var p := Filled(rs, i).value;
      Filled(rs, i + 1) ==
        if Fits(rs, i) then Some(p.(current := p.current[Slot(rs, i) := rs[i].v])) else None
    ensures OpenUntil(rs, i + 1) == Filled(rs, i).value.nextDay
  {
    var p, d, m := Filled(rs, i).value, Day(rs[i].t), Minute(rs[i].t);
    assert !Late(rs, i - 1) && !Late(rs, i);
    assert Turned(p, rs[i].t) == p && Position(rs[i].t, p.nextDay) == m by {
      PositionIs(rs[i].t, d);
    }
    assert p.current[m] == ValueAt(rs, i, d, m) by {
      LastRow(rs, i);
    }
    assert Filled(rs, i + 1) == Entered(p, m, rs[i].v);
  }

  lemma {:induction false} LastRow(rs: seq<Reading>, i: nat)
    requires Ascends(rs) && 0 < i <= |rs| && OnTrack(rs, i)
    ensures Filled(rs, i).value.current == RowOf(rs, i, Day(rs[i - 1].t))
  {
    LastDay(rs, i);
    var p := Filled(rs, i).value;
    assert Rows(p)[|p.done|] == p.current;
  }

  lemma {:induction false} SameDayOnTrack(rs: seq<Reading>, i: nat)
    requires Ascends(rs) && Int32Safe(rs) && 0 < i < |rs| && OnTrack(rs, i) && Fits(rs, i)
    requires Day(rs[i].t) == Day(rs[i - 1].t)
    ensures OnTrack(rs, i + 1)
  {
    SameDayFills(rs, i);
    SameDayRows(Rows(Filled(rs, i).value), Rows(Filled(rs, i + 1).value), rs, i);
  }

  lemma {:induction false} SameDayRows(rows: seq<Row>, next: seq<Row>, rs: seq<Reading>, i: nat)
    requires Ascends(rs) && 0 < i < |rs| && 0 <= rs[i].t && Fits(rs, i) && Day(rs[i].t) == Day(rs[i - 1].t)
    requires IsGrid(rows, rs, i) && |next| == |rows| > 0
    requires var last := |rows| - 1;
      |rows[last]| == MINUTES_PER_DAY && next == rows[last := rows[last][Slot(rs, i) := rs[i].v]]
    ensures IsGrid(next, rs, i + 1)
  {
    var days := Days(rs, i);
    assert Days(rs, i + 1) == days;
    forall k | 0 <= k < |next| ensures next[k] == RowOf(rs, i + 1, days[k]) {
      SameDayRow(rs, i, k);
      assert rows[k] == RowOf(rs, i, days[k]);
    }
  }

  lemma {:induction false} SameDayRow(rs: seq<Reading>, i: nat, k: nat)
    requires Ascends(rs) && 0 < i < |rs| && 0 <= rs[i].t && Fits(rs, i) && Day(rs[i].t) == Day(rs[i - 1].t)
    requires k < |Days(rs, i)|
    ensures var row := RowOf(rs, i, Days(rs, i)[k]);
      RowOf(rs, i + 1, Days(rs, i)[k]) == if k == |Days(rs, i)| - 1 then row[Slot(rs, i) := rs[i].v] else row
  {
    LastDay(rs, i);
    RowNext(rs, i, Days(rs, i)[k]);
  }

  /** The first reading of a later day turns the page, unless the page has been turned too far. */
  lemma NextDayTurns(rs: seq<Reading>, i: nat)
    requires Ascends(rs) && Int32Safe(rs) && 0 < i < |rs| && OnTrack(rs, i)
    requires Day(rs[i].t) > Day(rs[i - 1].t) && (Late(rs, i - 1) ==> Day(rs[i].t) != Day(rs[i - 1].t) + 1)
    ensures var p := Filled(rs, i).value; var r := rs[i];
      Filled(rs, i + 1) == Some(Page(Rows(p), EmptyRow()[(if Late(rs, i) then 0 else Minute(r.t)) := r.v],
        OpenUntil(rs, i + 1)))
  {
    var p, r := Filled(rs, i).value, rs[i];
    assert r.t >= p.nextDay;
    NextDayIs(r.t + 1);
    var q := Turned(p, r.t);
    var late := r.t % SECONDS_PER_DAY == SECONDS_PER_DAY - 1;
    assert Day(r.t + 1) == Day(r.t) + if late then 1 else 0;
    assert q == Page(Rows(p), EmptyRow(), OpenUntil(rs, i + 1));
    PositionIs(r.t, Day(r.t + 1));
  }

  lemma {:induction false} NextDayOnTrack(rs: seq<Reading>, i: nat)
    requires Ascends(rs) && Int32Safe(rs) && 0 < i < |rs| && OnTrack(rs, i)
    requires Day(rs[i].t) > Day(rs[i - 1].t) && (Late(rs, i - 1) ==> Day(rs[i].t) != Day(rs[i - 1].t) + 1)
    requires Late(rs, i) ==> rs[i].v == 0.0
    ensures OnTrack(rs, i + 1)
  {
    NextDayTurns(rs, i);
    NoEarlierReading(rs, i);
    var row := if Late(rs, i) then EmptyRow()[0 := rs[i].v] else EmptyRow()[Minute(rs[i].t) := rs[i].v];
    assert row == EmptyRow()[Slot(rs, i) := rs[i].v];
    NextDayRows(Rows(Filled(rs, i).value), rs, i);
  }

  lemma {:induction false} NextDayRows(rows: seq<Row>, rs: seq<Reading>, i: nat)
    requires Ascends(rs) && 0 < i < |rs| && 0 <= rs[i].t && Day(rs[i - 1].t) < Day(rs[i].t) && Fits(rs, i)
    requires IsGrid(rows, rs, i)
    ensures IsGrid(rows + [EmptyRow()[Slot(rs, i) := rs[i].v]], rs, i + 1)
  {
    var days, d := Days(rs, i), Day(rs[i].t);
    assert Days(rs, i + 1) == days + [d];
    NoEarlierReading(rs, i);
    FreshRow(rs, i);
    forall k | 0 <= k < |rows| ensures rows[k] == RowOf(rs, i + 1, days[k]) {
      EarlierDayStays(rs, i, k);
    }
  }

  lemma {:induction false} EarlierDayStays(rs: seq<Reading>, i: nat, k: nat)
    requires Ascends(rs) && 0 < i < |rs| && 0 <= rs[i].t && Day(rs[i - 1].t) < Day(rs[i].t) && k < |Days(rs, i)|
    ensures RowOf(rs, i + 1, Days(rs, i)[k]) == RowOf(rs, i, Days(rs, i)[k])
  {
    LastDay(rs, i);
    NoEarlierReading(rs, i);
    RowNext(rs, i, Days(rs, i)[k]);
  }

  lemma {:induction false} FreshRow(rs: seq<Reading>, i: nat)
    requires Ascends(rs) && i < |rs| && 0 <= rs[i].t && Fits(rs, i)
    requires forall j :: 0 <= j < i ==> Day(rs[j].t) != Day(rs[i].t)
    ensures RowOf(rs, i + 1, Day(rs[i].t)) == EmptyRow()[Slot(rs, i) := rs[i].v]
  {
    EmptyRowIs(rs, i, Day(rs[i].t));
    RowNext(rs, i, Day(rs[i].t));
  }

  lemma {:induction false} NoEarlierReading(rs: seq<Reading>, i: nat)
    requires Ascends(rs) && 0 < i < |rs| && 0 <= rs[i].t && Day(rs[i - 1].t) < Day(rs[i].t)
    ensures forall j :: 0 <= j < i ==> Day(rs[j].t) != Day(rs[i].t)
    ensures Slot(rs, i) == Minute(rs[i].t) && Fits(rs, i)
  {
    forall j | 0 <= j < i ensures Day(rs[j].t) != Day(rs[i].t) {
      DayOrder(rs, j, i - 1);
    }
    NoReadingNoValue(rs, i, Day(rs[i].t), Minute(rs[i].t));
  }

  lemma {:induction false} NextOnTrack(rs: seq<Reading>, i: nat)
    requires Ascends(rs) && Int32Safe(rs) && 0 < i < |rs| && OnTrack(rs, i)
    requires Fits(rs, i) && Harmless(rs, i - 1) && (Late(rs, i) ==> rs[i].v == 0.0)
    ensures OnTrack(rs, i + 1)
  {
    DayOrder(rs, i - 1, i);
    if Day(rs[i].t) == Day(rs[i - 1].t) {
      SameDayOnTrack(rs, i);
    } else {
      NextDayOnTrack(rs, i);
    }
  }

  lemma {:induction false} HarmlessStaysOnTrack(rs: seq<Reading>, i: nat)
    requires Ascends(rs) && Int32Safe(rs) && 0 < i <= |rs|
    requires forall j :: 0 <= j < i ==> Fits(rs, j)
    requires forall j :: 0 <= j < i - 1 ==> Harmless(rs, j)
    requires Late(rs, i - 1) ==> rs[i - 1].v == 0.0
    ensures OnTrack(rs, i)
  {
    if i == 1 {
      FirstOnTrack(rs);
    } else {
      assert Harmless(rs, i - 2) && Fits(rs, i - 1);
      HarmlessStaysOnTrack(rs, i - 1);
      NextOnTrack(rs, i - 1);
    }
  }

  // ---------- what a late reading spoils ----------

  /** Once a row is behind the page, or its first minute is taken, that minute stays. */
  lemma {:induction false} FirstMinuteStays(rs: seq<Reading>, i: nat, j: nat, k: nat, v: real)
    requires 0 < i <= j <= |rs| && Filled(rs, j).Some? && v != 0.0
    requires Filled(rs, i).Some? && k < |Rows(Filled(rs, i).value)|
    requires var row := Rows(Filled(rs, i).value)[k]; |row| == MINUTES_PER_DAY && row[0] == v
    ensures var rows := Rows(Filled(rs, j).value); k < |rows| && |rows[k]| == MINUTES_PER_DAY && rows[k][0] == v
    decreases j
  {
    if i < j {
      FirstMinuteStays(rs, i, j - 1, k, v);
    }
  }

  /** A page is turned on a new day only. */
  lemma {:induction false} NoMoreRowsThanDays(rs: seq<Reading>, j: nat)
    requires Ascends(rs) && Int32Safe(rs) && 1 < j <= |rs| && Filled(rs, j).Some?
    ensures Filled(rs, j - 1).Some?
    ensures |Rows(Filled(rs, j).value)| - |Rows(Filled(rs, j - 1).value)| <= |Days(rs, j)| - |Days(rs, j - 1)|
  {
    SlotsAreInTheDay(rs, j - 2);
    TurnedIsAhead(Filled(rs, j - 1).value, rs[j - 2].t, rs[j - 1].t);
  }

  /** A page that has been turned too far leaves one row too few, for good. */
  lemma {:induction false} RowsStayTooFew(rs: seq<Reading>, i: nat, j: nat)
    requires Ascends(rs) && Int32Safe(rs) && 0 < i <= j <= |rs| && Filled(rs, j).Some?
    requires Filled(rs, i).Some? && |Rows(Filled(rs, i).value)| < |Days(rs, i)|
    ensures |Rows(Filled(rs, j).value)| < |Days(rs, j)|
    decreases j
  {
    if i < j {
      NoMoreRowsThanDays(rs, j);
      RowsStayTooFew(rs, i, j - 1);
    }
  }

  lemma {:induction false} DaysOnlyGrow(rs: seq<Reading>, i: nat, j: nat)
    requires i <= j <= |rs|
    ensures Days(rs, i) <= Days(rs, j)
    decreases j
  {
    if i < j {
      DaysOnlyGrow(rs, i, j - 1);
    }
  }

  lemma {:induction false} LateValueSpoils(rs: seq<Reading>, i: nat)
    requires Ascends(rs) && Int32Safe(rs) && Late(rs, i) && OnTrack(rs, i) && Harmless(rs, i - 1)
    requires rs[i].v != 0.0
    ensures Filled(rs, |rs|).Some? ==> !IsGrid(Rows(Filled(rs, |rs|).value), rs, |rs|)
  {
    if Filled(rs, |rs|).Some? {
      var k, d := |Rows(Filled(rs, i).value)|, Day(rs[i].t);
      NextDayTurns(rs, i);
      FirstMinuteStays(rs, i + 1, |rs|, k, rs[i].v);
      DaysOnlyGrow(rs, i + 1, |rs|);
      assert Days(rs, |rs|)[k] == d;
      forall j | 0 <= j < |rs| ensures !(Day(rs[j].t) == d && Minute(rs[j].t) == 0) {
        if j < i { DayOrder(rs, j, i - 1); }
      }
      NoReadingNoValue(rs, |rs|, d, 0);
      var row := Rows(Filled(rs, |rs|).value)[k];
      assert row[0] != ValueAt(rs, |rs|, d, 0);
    }
  }

  lemma {:induction false} MergedDaySpoils(rs: seq<Reading>, i: nat)
    requires Ascends(rs) && Int32Safe(rs) && Late(rs, i) && OnTrack(rs, i) && Harmless(rs, i - 1)
    requires i + 1 < |rs| && Day(rs[i + 1].t) == Day(rs[i].t) + 1
    ensures Filled(rs, |rs|).Some? ==> !IsGrid(Rows(Filled(rs, |rs|).value), rs, |rs|)
  {
    if Filled(rs, |rs|).Some? {
      NextDayTurns(rs, i);
      var p := Filled(rs, i + 1).value;
      assert rs[i + 1].t < p.nextDay;
      assert Turned(p, rs[i + 1].t) == p;
      if Filled(rs, i + 2).None? {
        FilledFails(rs, i + 2);
      } else {
        assert |Rows(Filled(rs, i + 2).value)| == |Rows(p)|;
        RowsStayTooFew(rs, i + 2, |rs|);
      }
    }
  }

  lemma {:induction false} FirstOfADayFits(rs: seq<Reading>, i: nat)
    requires Ascends(rs) && i < |rs| && 0 <= rs[i].t
    ensures (i > 0 && Day(rs[i - 1].t) == Day(rs[i].t)) || Fits(rs, i)
  {
    if i == 0 {
      FirstFits(rs);
    } else {
      DayOrder(rs, i - 1, i);
      if Day(rs[i - 1].t) < Day(rs[i].t) {
        NoEarlierReading(rs, i);
      }
    }
  }

  /** A reading that has no slot is written outside of its row. */
  lemma {:induction false} MisfitSpoils(rs: seq<Reading>, i: nat)
    requires Ascends(rs) && Int32Safe(rs) && i < |rs| && (i > 0 ==> OnTrack(rs, i)) && !Fits(rs, i)
    ensures Filled(rs, |rs|).None?
  {
    FirstOfADayFits(rs, i);
    if i > 0 && Day(rs[i - 1].t) == Day(rs[i].t) {
      SameDayFills(rs, i);
      FilledFails(rs, i + 1);
    }
  }

  /** The export is the grid exactly when no reading finds the last minute of its day taken, and each later
      day's first reading in its last second is zero anyway and is followed by a day without readings. */
  lemma {:induction false} ExportIsTheGridIff(rs: seq<Reading>)
    requires rs != [] && Ascends(rs) && Int32Safe(rs)
    ensures Export(rs).Some? && IsGrid(Export(rs).value, rs, |rs|) <==>
      forall i :: 0 <= i < |rs| ==> Fits(rs, i) && Harmless(rs, i)
  {
    var i := 0;
    while i < |rs| && Fits(rs, i) && Harmless(rs, i)
      invariant i <= |rs| && forall j :: 0 <= j < i ==> Fits(rs, j) && Harmless(rs, j)
    {
      i := i + 1;
    }
    assert i > 0 ==> Harmless(rs, i - 1);
    if i > 0 {
      HarmlessStaysOnTrack(rs, i);
    }
    if i < |rs| {
      if !Fits(rs, i) {
        MisfitSpoils(rs, i);
      } else if rs[i].v != 0.0 {
        LateValueSpoils(rs, i);
      } else {
        MergedDaySpoils(rs, i);
      }
    }
  }

  /** With at most one reading a minute every reading has its slot, so only late ones matter. */
  lemma {:induction false} DistinctReadingsFit(rs: seq<Reading>, i: nat)
    requires Distinct(rs) && i < |rs| && 0 <= rs[i].t
    ensures Slot(rs, i) == Minute(rs[i].t) && Fits(rs, i)
  {
    OneReadingAMinute(rs, i, Day(rs[i].t), Minute(rs[i].t));
  }

  /** Two readings that are not exported to the grid: one at the epoch, one in the last second of the
      following day. */
  lemma {:induction false} LateReadingIsMisplaced()
    ensures var rs := [Reading(0, 1.0), Reading(172799, 2.0)];
      Ascends(rs) && Int32Safe(rs) && Distinct(rs) && !(Export(rs).Some? && IsGrid(Export(rs).value, rs, |rs|))
  {
    var rs := [Reading(0, 1.0), Reading(172799, 2.0)];
    assert !Harmless(rs, 1);
    ExportIsTheGridIff(rs);
  }

  /** Two readings in the last minute of a day overrun the row. */
  lemma {:induction false} LastMinuteOverruns()
    ensures var rs := [Reading(86340, 1.0), Reading(86341, 2.0)];
      Ascends(rs) && Int32Safe(rs) && Export(rs).None?
  {
    var rs := [Reading(86340, 1.0), Reading(86341, 2.0)];
    FirstOnTrack(rs);
    NoReadingNoValue(rs, 0, 0, 1439);
    NextValue(rs, 0, 0, 1439);
    assert Slot(rs, 0) == 1439 && ValueAt(rs, 1, 0, 1439) == 1.0;
    MisfitSpoils(rs, 1);
  }
}
