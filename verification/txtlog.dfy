/** The readings log of the TXT store: lines are only ever appended, and reading replays them. */
module TxtLog {
  import opened Types
  import opened Ascending
  import opened Text

  type Record = seq<string>

  const ENABLED := "1"
  const NOT_A_NUMBER := "nan"

  // ---------- replay ----------

  /** `at(0)` and `at(1)` can be asked of it. */
  predicate Keyed(rec: Record) {
    |rec| >= 2
  }

  /** No line makes the replay throw: each is blank or has a status and a key. */
  predicate WellFormed(log: seq<Record>) {
    forall i :: 0 <= i < |log| ==> log[i] == [] || Keyed(log[i])
  }

  function Replayed(lines: map<string, Record>, rec: Record): map<string, Record>
    requires rec == [] || Keyed(rec)
  {
    if rec == [] then lines
    else if rec[0] == ENABLED then (if rec[1] in lines then lines else lines[rec[1] := rec])
    else lines - {rec[1]}
  }

  function Replay(log: seq<Record>): map<string, Record>
    requires WellFormed(log)
    decreases |log|
  {
    if log == [] then map[] else Replayed(Replay(log[..|log|-1]), log[|log|-1])
  }

  predicate EnablesAt(log: seq<Record>, i: int, k: string) {
    0 <= i < |log| && Keyed(log[i]) && log[i][0] == ENABLED && log[i][1] == k
  }

  predicate DisablesAt(log: seq<Record>, i: int, k: string) {
    0 <= i < |log| && Keyed(log[i]) && log[i][0] != ENABLED && log[i][1] == k
  }

  /** `d` is the last line that disables `k`, or -1 if there is none. */
  ghost predicate LastDisabled(log: seq<Record>, k: string, d: int) {
    && (d == -1 || DisablesAt(log, d, k))
    && forall j :: DisablesAt(log, j, k) ==> j <= d
  }

  /** `i` is the first line that enables `k` after line `d`. */
  ghost predicate FirstEnabled(log: seq<Record>, k: string, d: int, i: int) {
    d < i && EnablesAt(log, i, k) && forall j :: d < j < i ==> !EnablesAt(log, j, k)
  }

  lemma {:induction false} ReplayRule(log: seq<Record>, k: string) returns (d: int, i: int)
    requires WellFormed(log)
    ensures LastDisabled(log, k, d)
    ensures if k in Replay(log) then FirstEnabled(log, k, d, i) && Replay(log)[k] == log[i]
            else forall j :: d < j ==> !EnablesAt(log, j, k)
    decreases |log|
  {
    if log == [] {
      d, i := -1, 0;
    } else {
      var last := |log| - 1;
      var before := log[..last];
      d, i := ReplayRule(before, k);
      assert forall j :: 0 <= j < last ==> (EnablesAt(log, j, k) <==> EnablesAt(before, j, k));
      assert forall j :: 0 <= j < last ==> (DisablesAt(log, j, k) <==> DisablesAt(before, j, k));
      if DisablesAt(log, last, k) {
        d := last;
      } else if EnablesAt(log, last, k) && k !in Replay(before) {
        i := last;
      }
    }
  }

  /** A key is live exactly when a line enables it after the last line that disables it, and its record
      is the first such line: later ones, updates included, are lost. */
  lemma {:induction false} KeyIsLiveIff(log: seq<Record>, k: string, d: int)
    requires WellFormed(log) && LastDisabled(log, k, d)
    ensures k in Replay(log) <==> exists i :: d < i && EnablesAt(log, i, k)
    ensures forall i :: FirstEnabled(log, k, d, i) ==> k in Replay(log) && Replay(log)[k] == log[i]
  {
    var d', i' := ReplayRule(log, k);
    assert d' == d by {
      if d' >= 0 { assert DisablesAt(log, d', k); }
      if d >= 0 { assert DisablesAt(log, d, k); }
    }
  }

  predicate AllEnabled(log: seq<Record>) {
    forall i :: 0 <= i < |log| ==> Keyed(log[i]) && log[i][0] == ENABLED
  }

  lemma {:induction false} ReplayedLast(log: seq<Record>, last: Record)
    requires WellFormed(log) && (last == [] || Keyed(last))
    ensures WellFormed(log + [last]) && Replay(log + [last]) == Replayed(Replay(log), last)
  {
    assert (log + [last])[..|log|] == log;
  }

  lemma {:induction false} ReplayedNext(log: seq<Record>, i: nat)
    requires i < |log| && WellFormed(log[..i])
    ensures WellFormed(log[..i+1]) <==> log[i] == [] || Keyed(log[i])
    ensures WellFormed(log[..i+1]) ==> Replay(log[..i+1]) == Replayed(Replay(log[..i]), log[i])
    ensures WellFormed(log) ==> WellFormed(log[..i+1])
  {
    assert log[..i+1] == log[..i] + [log[i]];
    assert log[..i+1][i] == log[i];
    if log[i] == [] || Keyed(log[i]) {
      ReplayedLast(log[..i], log[i]);
    }
  }

  lemma EnabledOver(more: map<string, Record>, lines: map<string, Record>, rec: Record)
    requires Keyed(rec) && rec[0] == ENABLED
    ensures Replayed(more + lines, rec) == Replayed(more, rec) + lines
  {
  }

  /** Appending lines that enable never changes a key that is there. */
  lemma {:induction false} AppendingNeverChanges(log: seq<Record>, more: seq<Record>)
    requires WellFormed(log) && AllEnabled(more)
    ensures WellFormed(log + more) && WellFormed(more)
    ensures Replay(log + more) == Replay(more) + Replay(log)
    decreases |more|
  {
    if more == [] {
      assert log + more == log;
    } else {
      var fewer, last := more[..|more|-1], more[|more|-1];
      AppendingNeverChanges(log, fewer);
      ReplayedLast(log + fewer, last);
      ReplayedLast(fewer, last);
      EnabledOver(Replay(fewer), Replay(log), last);
      assert more == fewer + [last] && log + more == (log + fewer) + [last];
    }
  }

  // ---------- reading and saving ----------

  /** A number, or what a computation without a result leaves; either is written to the log. */
  datatype Value = Number(v: real) | NotANumber(negative: bool)

  datatype Save = Save(t: Timestamp, value: Value)

  /** A `std::map` of readings, any of which may be no number. */
  type Batch = map<Timestamp, Value>

  function PrintValue(value: Value): string {
    match value
    case Number(v) => PrintFixed(v)
    case NotANumber(negative) => if negative then "-nan" else "nan"
  }

  function RecordOf(save: Save): Record {
    [ENABLED, PrintInt(save.t), PrintValue(save.value)]
  }

  function LineOf(save: Save, separator: string): string {
    Join(RecordOf(save), separator) + "\n"
  }

  /** What is appended to the file for some readings. */
  function Printed(saves: seq<Save>, separator: string): string {
    if saves == [] then ""
    else Printed(saves[..|saves|-1], separator) + LineOf(saves[|saves|-1], separator)
  }

  /** What a line looks like. */
  lemma {:induction false} LineOfANumber()
    ensures LineOf(Save(5, Number(0.0078125)), ",") == "1,5,0.007812\n"
  {
    MiddleIsPrintedEven();
    assert PrintInt(5) == "5";
    ThreeFields("1", "5", "0.007812", ",");
    assert RecordOf(Save(5, Number(0.0078125))) == ["1", "5", "0.007812"];
  }

  lemma {:induction false} LineOfNoNumber()
    ensures LineOf(Save(-1, NotANumber(true)), ",") == "1,-1,-nan\n"
  {
    assert PrintInt(-1) == "-1";
    ThreeFields("1", "-1", "-nan", ",");
    assert RecordOf(Save(-1, NotANumber(true))) == ["1", "-1", "-nan"];
  }

  lemma {:induction false} ThreeFields(a: string, b: string, c: string, separator: string)
    ensures Join([a, b, c], separator) == a + separator + (b + separator + c)
  {
    assert [a, b, c][1..] == [b, c] && [b, c][1..] == [c];
    assert Join([c], separator) == c;
    assert Join([b, c], separator) == b + separator + c;
  }

  /** The readings of a batch in the order in which they are saved. */
  function SavesOf(batch: Batch): seq<Save> {
    var keys := Enumerate(batch.Keys);
    seq(|keys|, i requires 0 <= i < |keys| => Save(keys[i], batch[keys[i]]))
  }

  /** ... which is that of time; each reading is saved once. */
  lemma SavesAscend(batch: Batch)
    ensures var saves := SavesOf(batch);
      && |saves| == |batch|
      && (forall i, j :: 0 <= i < j < |saves| ==> saves[i].t < saves[j].t)
      && (forall i :: 0 <= i < |saves| ==> saves[i].t in batch && saves[i].value == batch[saves[i].t])
      && (forall t :: t in batch ==> Save(t, batch[t]) in saves)
  {
    var keys, saves := Enumerate(batch.Keys), SavesOf(batch);
    forall i, j | 0 <= i < j < |saves| ensures saves[i].t < saves[j].t {
      assert Less(keys, i, j);
    }
    forall i | 0 <= i < |saves| ensures saves[i].t in batch {
      assert keys[i] in keys;
    }
    forall t | t in batch ensures Save(t, batch[t]) in saves {
      var i :| 0 <= i < |keys| && keys[i] == t;
      assert saves[i] == Save(t, batch[t]);
    }
  }

  function Lower(s: string): string {
    seq(|s|, i requires 0 <= i < |s| => if 'A' <= s[i] <= 'Z' then s[i] - 'A' + 'a' else s[i])
  }

  predicate Occurs(s: string, part: string, i: int) {
    0 <= i <= |s| - |part| && s[i..i + |part|] == part
  }

  predicate Contains(s: string, part: string) {
    exists i :: 0 <= i <= |s| && Occurs(s, part, i)
  }

  /** The reading a record stands for, if both of its numbers can be read. */
  function ReadingOf(rec: Record, parse: string -> Option<real>): Option<(int, real)>
    requires |rec| >= 3
  {
    var value := Lower(rec[2]);
    if Contains(value, NOT_A_NUMBER) || ParseInt(rec[1]).None? || parse(value).None? then None
    else Some((ParseInt(rec[1]).value, parse(value).value))
  }

  /** A record is read exactly if its value is not `nan` and both numbers can be read. */
  lemma ReadingOfIff(rec: Record, parse: string -> Option<real>, t: int, v: real)
    requires |rec| >= 3
    ensures ReadingOf(rec, parse) == Some((t, v)) <==>
      !Contains(Lower(rec[2]), NOT_A_NUMBER) && ParseInt(rec[1]) == Some(t) && parse(Lower(rec[2])) == Some(v)
  {
  }

  /** In any case, wherever it stands, `nan` makes a value be skipped, whatever the parser thinks of it. */
  lemma {:induction false} NaNIsSkipped(rec: Record, before: string, nan: string, after: string,
                                        parse: string -> Option<real>)
    requires |rec| >= 3 && rec[2] == before + nan + after && |nan| == 3
    requires nan[0] in ['n', 'N'] && nan[1] in ['a', 'A'] && nan[2] in ['n', 'N']
    ensures ReadingOf(rec, parse) == None
  {
    var value, i := Lower(rec[2]), |before|;
    assert rec[2][i] == nan[0] && rec[2][i + 1] == nan[1] && rec[2][i + 2] == nan[2];
    assert value[i..i + 3] == NOT_A_NUMBER;
    assert Occurs(value, NOT_A_NUMBER, i);
  }

  predicate AllValued(records: seq<Record>) {
    forall i :: 0 <= i < |records| ==> |records[i]| >= 3
  }

  ghost predicate Valued(live: map<string, Record>) {
    forall k :: k in live ==> |live[k]| >= 3
  }

  /** The readings of the records, in their order: the first one for a time stamp stays. */
  function Collected(records: seq<Record>, parse: string -> Option<real>): map<int, real>
    requires AllValued(records)
    decreases |records|
  {
    if records == [] then map[]
    else
      var so := Collected(records[..|records|-1], parse);
      var r := ReadingOf(records[|records|-1], parse);
      if r.None? || r.value.0 in so then so else so[r.value.0 := r.value.1]
  }

  lemma CollectedNext(records: seq<Record>, i: nat, parse: string -> Option<real>)
    requires i < |records| && AllValued(records[..i]) && |records[i]| >= 3
    ensures AllValued(records[..i+1])
    ensures var so := Collected(records[..i], parse); var r := ReadingOf(records[i], parse);
      Collected(records[..i+1], parse) == if r.None? || r.value.0 in so then so else so[r.value.0 := r.value.1]
  {
    assert records[..i+1][..i] == records[..i];
  }

  /** The live records, each once. */
  ghost predicate Listed(records: seq<Record>, live: map<string, Record>) {
    && (forall i :: 0 <= i < |records| ==>
      Keyed(records[i]) && records[i][1] in live && live[records[i][1]] == records[i])
    && (forall k :: k in live ==> live[k] in records)
    && (forall i, j :: 0 <= i < j < |records| ==> records[i][1] != records[j][1])
  }

  lemma ListedAreValued(records: seq<Record>, live: map<string, Record>)
    requires Listed(records, live)
    ensures AllValued(records) <==> Valued(live)
  {
    if AllValued(records) {
      forall k | k in live ensures |live[k]| >= 3 {
        var i :| 0 <= i < |records| && records[i] == live[k];
      }
    }
  }

  lemma ListedNext(records: seq<Record>, live: map<string, Record>, left: set<string>, k: string)
    requires forall k :: k in live ==> Keyed(live[k]) && live[k][1] == k
    requires k in left && left <= live.Keys && Listed(records, live - left)
    ensures Listed(records + [live[k]], live - (left - {k}))
  {
    var more, some := records + [live[k]], live - (left - {k});
    forall j | j in some ensures some[j] in more {
      if j == k {
        assert more[|records|] == some[j];
      } else {
        assert j in live - left;
      }
    }
  }

  lemma {:induction false} LiveRecordsAreKeyed(log: seq<Record>)
    requires WellFormed(log)
    ensures forall k :: k in Replay(log) ==> Keyed(Replay(log)[k]) && Replay(log)[k][1] == k
    decreases |log|
  {
    if log != [] {
      LiveRecordsAreKeyed(log[..|log|-1]);
    }
  }

  lemma {:induction false} PrintedNext(before: string, saves: seq<Save>, i: nat, separator: string)
    requires i < |saves|
    ensures before + Printed(saves[..i], separator) + LineOf(saves[i], separator)
         == before + Printed(saves[..i+1], separator)
  {
    assert saves[..i+1][..i] == saves[..i];
  }

  function Records(content: string, separator: string): seq<Record> {
    var lines := Lines(content);
    seq(|lines|, i requires 0 <= i < |lines| => Tokens(lines[i], Separating(separator)))
  }

  /** One readings file of the store. */
  class ReadingsFile {
    const separator: string
    var content: string

    constructor (separator: string)
      ensures content == "" && this.separator == separator
    {
      this.separator, content := separator, "";
    }

    method SaveReading(t: Timestamp, value: Value)
      modifies this
      ensures content == old(content) + LineOf(Save(t, value), separator)
    {
      content := content + LineOf(Save(t, value), separator);
    }

    /** `add_bulk_reading_records` and `update_reading_records` alike. */
    method SaveReadings(readings: Batch)
      modifies this
      ensures content == old(content) + Printed(SavesOf(readings), separator)
    {
      var keys := Enumerate(readings.Keys);
      ghost var saves := SavesOf(readings);
      var i := 0;
      while i < |keys|
        invariant 0 <= i <= |keys| && content == old(content) + Printed(saves[..i], separator)
      {
        ghost var before := content;
        SaveReading(keys[i], readings[keys[i]]);
        PrintedNext(old(content), saves, i, separator);
        i := i + 1;
      }
      assert saves[..i] == saves;
    }

    /** Throws exactly when a line has a single field. */
    method ReadRecords() returns (r: Option<seq<Record>>)
      ensures r.Some? <==> WellFormed(Records(content, separator))
      ensures r.Some? ==> Listed(r.value, Replay(Records(content, separator)))
    {
      var lines, live: map<string, Record> := Lines(content), map[];
      ghost var log := Records(content, separator);
      var i := 0;
      while i < |lines|
        invariant 0 <= i <= |lines| && WellFormed(log[..i]) && live == Replay(log[..i])
      {
        var rec := Tokens(lines[i], Separating(separator));
        ReplayedNext(log, i);
        if rec != [] {
          if |rec| == 1 {
            return None;
          }
          if rec[0] == ENABLED {
            if rec[1] !in live {
              live := live[rec[1] := rec];
            }
          } else {
            live := live - {rec[1]};
          }
        }
        i := i + 1;
      }
      assert log[..i] == log;
      LiveRecordsAreKeyed(log);
      var records := ListRecords(live);
      r := Some(records);
    }

    static method ListRecords(live: map<string, Record>) returns (records: seq<Record>)
      requires forall k :: k in live ==> Keyed(live[k]) && live[k][1] == k
      ensures Listed(records, live)
    {
      records := [];
      var left := live.Keys;
      while left != {}
        invariant left <= live.Keys && Listed(records, live - left)
        decreases left
      {
        var k :| k in left;
        ListedNext(records, live, left, k);
        records, left := records + [live[k]], left - {k};
      }
      assert live - left == live;
    }

    /** The loop over the records; `at(2)` throws where there is no third field. */
    static method CollectReadings(records: seq<Record>, parse: string -> Option<real>)
      returns (r: Option<map<int, real>>)
      ensures r.Some? <==> AllValued(records)
      ensures r.Some? ==> r.value == Collected(records, parse)
    {
      var readings: map<int, real>, i := map[], 0;
      while i < |records|
        invariant 0 <= i <= |records| && AllValued(records[..i]) && readings == Collected(records[..i], parse)
      {
        var rec := records[i];
        if |rec| < 3 {
          return None;
        }
        CollectedNext(records, i, parse);
        var value := Lower(rec[2]);
        if !Contains(value, NOT_A_NUMBER) {
          var t, v := ParseInt(rec[1]), parse(value);
          if t.Some? && v.Some? && t.value !in readings {
            readings := readings[t.value := v.value];
          }
        }
        i := i + 1;
      }
      assert records[..i] == records;
      r := Some(readings);
    }

    /** Throws exactly when a line has a single field or a live record has no third one. */
    method GetAllReadings(parse: string -> Option<real>) returns (r: Option<map<int, real>>, ghost records: seq<Record>)
      ensures r.Some? <==> WellFormed(Records(content, separator)) && Valued(Replay(Records(content, separator)))
      ensures r.Some? ==> Listed(records, Replay(Records(content, separator)))
      ensures r.Some? ==> AllValued(records) && r.value == Collected(records, parse)
    {
      records := [];
      var read := ReadRecords();
      if read.None? {
        return None, records;
      }
      records := read.value;
      ListedAreValued(records, Replay(Records(content, separator)));
      r := CollectReadings(read.value, parse);
    }
  }
}
