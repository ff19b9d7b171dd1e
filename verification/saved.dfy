/** What a readings file gives back of what has been saved to it, and with which separators. */
module SavedReadings {
  import opened Types
  import opened Ascending
  import opened Text
  import opened TxtLog

  /** The value first saved for each time stamp. */
  function FirstSaved(saves: seq<Save>): Batch {
    if saves == [] then map[]
    else
      var so, last := FirstSaved(saves[..|saves|-1]), saves[|saves|-1];
      if last.t in so then so else so[last.t := last.value]
  }

  // ---------- printed fields ----------

  const ALPHABET := "-.0123456789"

  predicate Plain(s: string) {
    s != "" && forall i :: 0 <= i < |s| ==> s[i] in ALPHABET
  }

  lemma DigitsArePlain(s: string)
    requires s != "" && IsDigits(s)
    ensures Plain(s)
  {
    forall i | 0 <= i < |s| ensures s[i] in ALPHABET {
      assert s[i] == ALPHABET[2 + (s[i] as int - '0' as int)];
    }
  }

  lemma PlainTogether(a: string, b: string)
    requires Plain(a) && Plain(b)
    ensures Plain(a + b)
  {
  }

  lemma FixedIsPlain(negative: bool, whole: string, fraction: string)
    requires whole != "" && IsDigits(whole) && fraction != "" && IsDigits(fraction)
    ensures Plain(Fixed(negative, whole, fraction))
  {
    DigitsArePlain(whole);
    DigitsArePlain(fraction);
    var sign := if negative then "-" else "";
    assert sign == "" ==> sign + whole == whole;
    if negative { PlainTogether("-", whole); }
    PlainTogether(sign + whole, ".");
    PlainTogether(sign + whole + ".", fraction);
  }

  lemma PrintedIsPlain(t: int, v: real)
    ensures Plain(ENABLED) && Plain(PrintInt(t)) && Plain(PrintFixed(v))
  {
    DigitsArePlain(ENABLED);
    if t < 0 {
      DigitsArePlain(PrintNat(-t));
      PlainTogether("-", PrintNat(-t));
    } else {
      DigitsArePlain(PrintNat(t));
    }
    var n := Rounded(if v < 0.0 then -1000000.0 * v else 1000000.0 * v);
    FixedIsPlain(v < 0.0, PrintNat(n / 1000000), PrintDigits(n % 1000000, 6));
  }

  lemma FixedHasNoLetters(v: real)
    ensures !Contains(PrintFixed(v), NOT_A_NUMBER)
  {
    var s := PrintFixed(v);
    forall i | 0 <= i < |s| ensures s[i] != 'n' {
    }
    forall i | 0 <= i <= |s| - 3 ensures !Occurs(s, NOT_A_NUMBER, i) {
      assert s[i..i+3][0] == s[i];
    }
  }

  lemma PrintedHasNoLineFeed(save: Save)
    ensures Free(PrintInt(save.t), {'\n'}) && Free(PrintValue(save.value), {'\n'})
  {
    if save.value.Number? {
      PrintedIsPlain(save.t, save.value.v);
    } else {
      PrintedIsPlain(save.t, 0.0);
    }
  }

  // ---------- separators ----------

  /** All of it separates, none of its characters occurs in a printed number, and it does not end a line. */
  predicate SparesNumbers(separator: string) {
    Cuts(separator) && forall i :: 0 <= i < |separator| ==> separator[i] !in ALPHABET && separator[i] != '\n'
  }

  /** What the separator leaves of a printed value that is no number is something, and cannot be read. */
  predicate SkipsNaN(separator: string, parse: string -> Option<real>, negative: bool) {
    var left := Tokens(PrintValue(NotANumber(negative)), Separating(separator));
    left != [] && (Contains(Lower(left[0]), NOT_A_NUMBER) || parse(Lower(left[0])).None?)
  }

  /** A separator that can be used. */
  predicate Separates(separator: string, parse: string -> Option<real>) {
    SparesNumbers(separator) && SkipsNaN(separator, parse, false) && SkipsNaN(separator, parse, true)
  }

  /** The store's default separator can be used, whatever else the parser reads. */
  lemma {:induction false} CommaSeparates(parse: string -> Option<real>)
    ensures Separates(",", parse)
  {
    SeparatingIs(",");
    NaNIsAField("nan");
    NaNIsAField("-nan");
  }

  lemma {:induction false} NaNIsAField(s: string)
    requires s == "nan" || s == "-nan"
    ensures Tokens(s, Separating(",")) == [s] && Contains(Lower(s), NOT_A_NUMBER)
  {
    SeparatingIs(",");
    FirstToken(s, "", Separating(","));
    assert s + "" == s && Lower(s) == s;
    assert Occurs(s, NOT_A_NUMBER, |s| - 3);
  }

  // ---------- one line ----------

  /** The record that a saved reading becomes. */
  function Logged(save: Save, separator: string): Record {
    Tokens(Join(RecordOf(save), separator), Separating(separator))
  }

  lemma {:induction false} PlainIsAField(s: string, separator: string)
    requires Plain(s) && SparesNumbers(separator)
    ensures IsField(s, Separating(separator)) && Tokens(s, Separating(separator)) == [s]
  {
    SeparatingIs(separator);
    forall i | 0 <= i < |s| ensures s[i] !in Separating(separator) {
      assert s[i] in ALPHABET;
    }
    FirstToken(s, "", Separating(separator));
    assert s + "" == s;
  }

  lemma {:induction false} FieldThenRest(f: string, separator: string, rest: string)
    requires Cuts(separator) && IsField(f, Separating(separator))
    ensures Tokens(f + separator + rest, Separating(separator)) == [f] + Tokens(rest, Separating(separator))
  {
    SeparatingIs(separator);
    assert f + separator + rest == f + (separator + rest);
    FirstToken(f, separator + rest, Separating(separator));
    LeadingSeparators(separator, rest, Separating(separator));
  }

  /** Status and time stamp come back, and whatever the separator leaves of the value. */
  lemma LoggedIs(save: Save, separator: string)
    requires Cuts(separator)
    requires IsField(ENABLED, Separating(separator)) && IsField(PrintInt(save.t), Separating(separator))
    ensures Logged(save, separator)
         == [ENABLED, PrintInt(save.t)] + Tokens(PrintValue(save.value), Separating(separator))
  {
    var t, v := PrintInt(save.t), PrintValue(save.value);
    ThreeFields(ENABLED, t, v, separator);
    FieldThenRest(ENABLED, separator, t + separator + v);
    FieldThenRest(t, separator, v);
    TwoBefore(ENABLED, t, Tokens(v, Separating(separator)));
  }

  lemma TwoBefore(a: string, b: string, rest: seq<string>)
    ensures [a] + ([b] + rest) == [a, b] + rest
  {
  }

  /** The record can be read back: it has the time stamp and, if it is a number, the value. */
  predicate Faithful(rec: Record, save: Save, parse: string -> Option<real>) {
    && |rec| >= 3 && rec[0] == ENABLED && rec[1] == PrintInt(save.t)
    && ReadingOf(rec, parse) ==
         match save.value
         case Number(v) => Some((save.t as int, Kept(v)))
         case NotANumber(_) => None
  }

  lemma LowerOfPlain(s: string)
    requires Plain(s)
    ensures Lower(s) == s
  {
    forall i | 0 <= i < |s| ensures !('A' <= s[i] <= 'Z') {
      assert s[i] in ALPHABET;
    }
  }

  lemma NumberIsRead(v: real, parse: string -> Option<real>)
    requires ReadsFixed(parse)
    ensures !Contains(Lower(PrintFixed(v)), NOT_A_NUMBER) && parse(Lower(PrintFixed(v))) == Some(Kept(v))
  {
    PrintedIsPlain(0, v);
    LowerOfPlain(PrintFixed(v));
    FixedComesBack(parse, v);
    FixedHasNoLetters(v);
  }

  lemma FieldsComeBackToo(save: Save, separator: string)
    requires SparesNumbers(separator)
    ensures Logged(save, separator)
         == [ENABLED, PrintInt(save.t)] + Tokens(PrintValue(save.value), Separating(separator))
    ensures save.value.Number? ==> Logged(save, separator) == RecordOf(save)
  {
    PrintedIsPlain(save.t, if save.value.Number? then save.value.v else 0.0);
    PlainIsAField(ENABLED, separator);
    PlainIsAField(PrintInt(save.t), separator);
    LoggedIs(save, separator);
    if save.value.Number? {
      PlainIsAField(PrintFixed(save.value.v), separator);
    }
  }

  lemma ReadWithStamp(t: Timestamp, left: seq<string>, parse: string -> Option<real>)
    requires left != []
    ensures var value := Lower(left[0]);
      ReadingOf([ENABLED, PrintInt(t)] + left, parse) ==
        if Contains(value, NOT_A_NUMBER) || parse(value).None? then None else Some((t as int, parse(value).value))
  {
    var rec := [ENABLED, PrintInt(t)] + left;
    assert rec[1] == PrintInt(t) && rec[2] == left[0];
    IntComesBack(t);
  }

  /** Numbers are read with the six decimals they were saved with; what is no number is skipped. */
  lemma SavedReadingComesBack(save: Save, separator: string, parse: string -> Option<real>)
    requires Separates(separator, parse) && ReadsFixed(parse)
    ensures Faithful(Logged(save, separator), save, parse)
  {
    FieldsComeBackToo(save, separator);
    var left :=
      if save.value.Number? then [PrintFixed(save.value.v)] else Tokens(PrintValue(save.value), Separating(separator));
    assert Logged(save, separator) == [ENABLED, PrintInt(save.t)] + left;
    assert left != [] by {
      assert save.value.NotANumber? ==> SkipsNaN(separator, parse, save.value.negative);
    }
    ReadWithStamp(save.t, left, parse);
    if save.value.Number? {
      NumberIsRead(save.value.v, parse);
    } else {
      assert SkipsNaN(separator, parse, save.value.negative);
    }
  }

  lemma {:induction false} PrintedLineIsFree(save: Save, separator: string)
    requires Free(separator, {'\n'})
    ensures Free(Join(RecordOf(save), separator), {'\n'})
  {
    PrintedHasNoLineFeed(save);
    JoinedIsFree(RecordOf(save), separator, {'\n'});
  }

  // ---------- the log ----------

  function LogOf(saves: seq<Save>, separator: string): seq<Record> {
    seq(|saves|, i requires 0 <= i < |saves| => Logged(saves[i], separator))
  }

  lemma LogNext(saves: seq<Save>, last: Save, separator: string)
    ensures LogOf(saves + [last], separator) == LogOf(saves, separator) + [Logged(last, separator)]
  {
    assert forall i :: 0 <= i < |saves| ==> (saves + [last])[i] == saves[i];
  }

  lemma {:induction false} RecordsNext(content: string, line: string, separator: string)
    requires Terminated(content) && Free(line, {'\n'})
    ensures Terminated(content + (line + "\n"))
    ensures Records(content + (line + "\n"), separator)
      == Records(content, separator) + [Tokens(line, Separating(separator))]
  {
    AppendedLine(content, line);
  }

  /** A separator that does not end a line keeps the lines apart. */
  lemma {:induction false} SavedFileComesBack(saves: seq<Save>, separator: string)
    requires Free(separator, {'\n'})
    ensures Terminated(Printed(saves, separator))
    ensures Records(Printed(saves, separator), separator) == LogOf(saves, separator)
    decreases |saves|
  {
    if saves != [] {
      var fewer, last := saves[..|saves|-1], saves[|saves|-1];
      assert saves == fewer + [last];
      LogNext(fewer, last, separator);
      SavedFileComesBack(fewer, separator);
      PrintedLineIsFree(last, separator);
      RecordsNext(Printed(fewer, separator), Join(RecordOf(last), separator), separator);
    }
  }

  predicate StandsFor(live: map<string, Record>, first: Batch, separator: string, t: Timestamp) {
    t in first && PrintInt(t) in live && live[PrintInt(t)] == Logged(Save(t, first[t]), separator)
  }

  /** The live records are those of the values first saved. */
  ghost predicate Represents(live: map<string, Record>, first: Batch, separator: string) {
    && (forall t: Timestamp {:trigger StandsFor(live, first, separator, t)} ::
          t in first ==> StandsFor(live, first, separator, t))
    && (forall k :: k in live ==> exists t: Timestamp :: StandsFor(live, first, separator, t) && k == PrintInt(t))
  }

  lemma SameText(s: Timestamp, t: Timestamp)
    ensures PrintInt(s) == PrintInt(t) ==> s == t
  {
    IntComesBack(s);
    IntComesBack(t);
  }

  lemma RepresentsNext(live: map<string, Record>, first: Batch, separator: string, save: Save)
    requires Represents(live, first, separator)
    requires var rec := Logged(save, separator); Keyed(rec) && rec[0] == ENABLED && rec[1] == PrintInt(save.t)
    ensures Represents(Replayed(live, Logged(save, separator)),
                       if save.t in first then first else first[save.t := save.value], separator)
  {
    var next := Replayed(live, Logged(save, separator));
    var more := if save.t in first then first else first[save.t := save.value];
    if save.t in first {
      assert StandsFor(live, first, separator, save.t);
    } else {
      forall t | t in first ensures PrintInt(t) != PrintInt(save.t) {
        SameText(t, save.t);
      }
      assert PrintInt(save.t) !in live;
      forall t | t in more ensures StandsFor(next, more, separator, t) {
        if t != save.t { assert StandsFor(live, first, separator, t); }
      }
      forall k | k in next ensures exists t: Timestamp :: StandsFor(next, more, separator, t) && k == PrintInt(t) {
        if k in live {
          var t: Timestamp :| StandsFor(live, first, separator, t) && k == PrintInt(t);
          assert StandsFor(next, more, separator, t);
        } else {
          assert StandsFor(next, more, separator, save.t);
        }
      }
    }
  }

  /** What has been saved is in force: the log can be replayed, and its live records are those first saved. */
  ghost predicate Replays(saves: seq<Save>, separator: string) {
    WellFormed(LogOf(saves, separator)) && Represents(Replay(LogOf(saves, separator)), FirstSaved(saves), separator)
  }

  lemma ReplaysNothing(separator: string)
    ensures Replays([], separator)
  {
    assert LogOf([], separator) == [];
  }

  lemma {:induction false} ReplaysNext(saves: seq<Save>, last: Save, separator: string, parse: string -> Option<real>)
    requires Separates(separator, parse) && ReadsFixed(parse)
    requires Replays(saves, separator)
    ensures Replays(saves + [last], separator)
  {
    SavedReadingComesBack(last, separator, parse);
    LogNext(saves, last, separator);
    assert (saves + [last])[..|saves|] == saves;
    ReplayedLast(LogOf(saves, separator), Logged(last, separator));
    RepresentsNext(Replay(LogOf(saves, separator)), FirstSaved(saves), separator, last);
  }

  lemma {:induction false} ReplayOfSaves(saves: seq<Save>, separator: string, parse: string -> Option<real>)
    requires Separates(separator, parse) && ReadsFixed(parse)
    ensures Replays(saves, separator)
    decreases |saves|
  {
    if saves == [] {
      ReplaysNothing(separator);
    } else {
      var fewer, last := saves[..|saves|-1], saves[|saves|-1];
      LastApart(saves);
      ReplayOfSaves(fewer, separator, parse);
      ReplaysNext(fewer, last, separator, parse);
    }
  }

  lemma LastApart(saves: seq<Save>)
    requires saves != []
    ensures saves[..|saves|-1] + [saves[|saves|-1]] == saves
  {
  }

  // ---------- what comes back ----------

  predicate Reads(records: seq<Record>, parse: string -> Option<real>, i: int, t: int, v: real)
    requires AllValued(records)
  {
    0 <= i < |records| && ReadingOf(records[i], parse) == Some((t, v))
  }

  lemma {:induction false} CollectedRule(records: seq<Record>, parse: string -> Option<real>, n: nat, t: int)
    requires AllValued(records) && n <= |records|
    ensures var c := Collected(records[..n], parse);
      && (t in c ==> exists i :: Reads(records, parse, i, t, c[t]))
      && (forall i, v :: i < n && Reads(records, parse, i, t, v) ==> t in c)
    decreases n
  {
    if n > 0 {
      CollectedRule(records, parse, n - 1, t);
      CollectedNext(records, n - 1, parse);
      var c, so := Collected(records[..n], parse), Collected(records[..n-1], parse);
      if t in c && t !in so {
        assert Reads(records, parse, n - 1, t, c[t]);
      }
    }
  }

  /** The first record that is read for a time stamp gives its value. */
  lemma {:induction false} FirstRecordIsShown(records: seq<Record>, parse: string -> Option<real>, n: nat, i: nat,
                                              t: int, v: real)
    requires AllValued(records) && i < n <= |records| && Reads(records, parse, i, t, v)
    requires forall j :: 0 <= j < i ==> !ReadsStamp(records, parse, j, t)
    ensures var c := Collected(records[..n], parse); t in c && c[t] == v
    decreases n
  {
    if i < n - 1 {
      FirstRecordIsShown(records, parse, n - 1, i, t, v);
      CollectedStays(records, parse, n - 1, t);
    } else {
      NotCollected(records, parse, i, t);
      CollectedNow(records, parse, i, t, v);
    }
  }

  lemma CollectedStays(records: seq<Record>, parse: string -> Option<real>, n: nat, t: int)
    requires AllValued(records) && n < |records| && t in Collected(records[..n], parse)
    ensures t in Collected(records[..n+1], parse)
    ensures Collected(records[..n+1], parse)[t] == Collected(records[..n], parse)[t]
  {
    CollectedNext(records, n, parse);
  }

  lemma CollectedNow(records: seq<Record>, parse: string -> Option<real>, n: nat, t: int, v: real)
    requires AllValued(records) && n < |records| && t !in Collected(records[..n], parse)
    requires Reads(records, parse, n, t, v)
    ensures t in Collected(records[..n+1], parse) && Collected(records[..n+1], parse)[t] == v
  {
    CollectedNext(records, n, parse);
  }

  predicate ReadsStamp(records: seq<Record>, parse: string -> Option<real>, i: int, t: int)
    requires AllValued(records)
  {
    0 <= i < |records| && ReadingOf(records[i], parse).Some? && ReadingOf(records[i], parse).value.0 == t
  }

  lemma {:induction false} NotCollected(records: seq<Record>, parse: string -> Option<real>, n: nat, t: int)
    requires AllValued(records) && n <= |records| && forall j :: 0 <= j < n ==> !ReadsStamp(records, parse, j, t)
    ensures t !in Collected(records[..n], parse)
    decreases n
  {
    if n > 0 {
      CollectedNext(records, n - 1, parse);
      NotCollected(records, parse, n - 1, t);
      assert !ReadsStamp(records, parse, n - 1, t);
    }
  }

  /** A reader gets, for each time stamp, the value first saved if that is a number, and nothing else. */
  ghost predicate Shows(readings: map<int, real>, first: Batch) {
    && (forall t :: t in readings <==> t in first && first[t].Number?)
    && (forall t :: t in readings ==> readings[t] == Kept(first[t].v))
  }

  /** The file can be read, and in whatever order its live records come, they show these values. */
  ghost predicate ReadsAs(content: string, separator: string, parse: string -> Option<real>, first: Batch) {
    var log := Records(content, separator);
    && WellFormed(log) && Valued(Replay(log))
    && forall records {:trigger Listed(records, Replay(log))} :: Listed(records, Replay(log)) ==>
         AllValued(records) && Shows(Collected(records, parse), first)
  }

  /** Whatever is saved, as additions or as updates, comes back under first-write-wins. */
  lemma {:induction false} WhatWasSavedComesBack(saves: seq<Save>, separator: string, parse: string -> Option<real>)
    requires Separates(separator, parse) && ReadsFixed(parse)
    ensures ReadsAs(Printed(saves, separator), separator, parse, FirstSaved(saves))
  {
    SavedFileComesBack(saves, separator);
    ReplayOfSaves(saves, separator, parse);
    SavedAreValued(saves, separator, parse);
    forall records | Listed(records, Replay(LogOf(saves, separator)))
      ensures AllValued(records) && Shows(Collected(records, parse), FirstSaved(saves))
    {
      ListedAreValued(records, Replay(LogOf(saves, separator)));
      LiveReadings(saves, separator, parse, records);
    }
  }

  lemma SavedAreValued(saves: seq<Save>, separator: string, parse: string -> Option<real>)
    requires Separates(separator, parse) && ReadsFixed(parse) && WellFormed(LogOf(saves, separator))
    ensures Valued(Replay(LogOf(saves, separator)))
  {
    ReplayOfSaves(saves, separator, parse);
    var live, first := Replay(LogOf(saves, separator)), FirstSaved(saves);
    forall k | k in live ensures |live[k]| >= 3 {
      var t: Timestamp :| StandsFor(live, first, separator, t) && k == PrintInt(t);
      SavedReadingComesBack(Save(t, first[t]), separator, parse);
    }
  }

  lemma {:induction false} LiveReadings(saves: seq<Save>, separator: string, parse: string -> Option<real>,
                                        records: seq<Record>)
    requires Separates(separator, parse) && ReadsFixed(parse) && AllValued(records)
    requires WellFormed(LogOf(saves, separator)) && Listed(records, Replay(LogOf(saves, separator)))
    ensures Shows(Collected(records, parse), FirstSaved(saves))
  {
    forall t ensures t in Collected(records, parse) <==> t in FirstSaved(saves) && FirstSaved(saves)[t].Number?
      ensures t in Collected(records, parse) ==> Collected(records, parse)[t] == Kept(FirstSaved(saves)[t].v)
    {
      LiveReading(saves, separator, parse, records, t);
    }
  }

  lemma {:induction false} LiveReading(saves: seq<Save>, separator: string, parse: string -> Option<real>,
                                       records: seq<Record>, t: int)
    requires Separates(separator, parse) && ReadsFixed(parse) && AllValued(records)
    requires WellFormed(LogOf(saves, separator)) && Listed(records, Replay(LogOf(saves, separator)))
    ensures var c, first := Collected(records, parse), FirstSaved(saves);
      && (t in c <==> t in first && first[t].Number?)
      && (t in c ==> c[t] == Kept(first[t].v))
  {
    ReplayOfSaves(saves, separator, parse);
    var live, first := Replay(LogOf(saves, separator)), FirstSaved(saves);
    CollectedRule(records, parse, |records|, t);
    assert records[..|records|] == records;
    if t in Collected(records, parse) {
      var i :| Reads(records, parse, i, t, Collected(records, parse)[t]);
      var s: Timestamp :| StandsFor(live, first, separator, s) && records[i][1] == PrintInt(s);
      SavedReadingComesBack(Save(s, first[s]), separator, parse);
    } else if t in first {
      SavedReadingComesBack(Save(t, first[t]), separator, parse);
      assert StandsFor(live, first, separator, t);
      var i :| 0 <= i < |records| && records[i] == live[PrintInt(t)];
      assert first[t].Number? ==> Reads(records, parse, i, t, Kept(first[t].v));
    }
  }

  // ---------- a file over its life ----------

  lemma {:induction false} PrintedLast(saves: seq<Save>, last: Save, separator: string)
    ensures Printed(saves + [last], separator) == Printed(saves, separator) + LineOf(last, separator)
  {
    assert (saves + [last])[..|saves|] == saves;
  }

  lemma {:induction false} PrintedTogether(a: seq<Save>, b: seq<Save>, separator: string)
    ensures Printed(a + b, separator) == Printed(a, separator) + Printed(b, separator)
    decreases |b|
  {
    if b == [] {
      assert a + b == a;
    } else {
      var fewer, last := b[..|b|-1], b[|b|-1];
      PrintedTogether(a, fewer, separator);
      PrintedLast(a + fewer, last, separator);
      PrintedLast(fewer, last, separator);
      assert b == fewer + [last] && a + b == (a + fewer) + [last];
      Together(Printed(a, separator), Printed(fewer, separator), LineOf(last, separator));
    }
  }

  lemma {:induction false} FirstSavedTogether(a: seq<Save>, b: seq<Save>)
    ensures FirstSaved(a + b) == FirstSaved(b) + FirstSaved(a)
    decreases |b|
  {
    if b == [] {
      assert a + b == a;
    } else {
      var last := |b| - 1;
      FirstSavedTogether(a, b[..last]);
      assert (a + b)[..|a| + last] == a + b[..last];
    }
  }

  /** What all batches in turn have made of an empty file. */
  function Written(batches: seq<Batch>, separator: string): string {
    if batches == [] then ""
    else Written(batches[..|batches|-1], separator) + Printed(SavesOf(batches[|batches|-1]), separator)
  }

  /** A batch adds what is new and changes nothing. */
  function FirstWritten(batches: seq<Batch>): Batch {
    if batches == [] then map[] else batches[|batches|-1] + FirstWritten(batches[..|batches|-1])
  }

  lemma {:induction false} SavesOfKeys(batch: Batch, saves: seq<Save>)
    requires forall i :: 0 <= i < |saves| ==> saves[i].t in batch && batch[saves[i].t] == saves[i].value
    ensures forall t :: t in FirstSaved(saves) ==> t in batch && FirstSaved(saves)[t] == batch[t]
    ensures forall i :: 0 <= i < |saves| ==> saves[i].t in FirstSaved(saves)
    decreases |saves|
  {
    if saves != [] {
      SavesOfKeys(batch, saves[..|saves|-1]);
    }
  }

  lemma BatchIsSaved(batch: Batch)
    ensures FirstSaved(SavesOf(batch)) == batch
  {
    var keys := Enumerate(batch.Keys);
    SavesOfKeys(batch, SavesOf(batch));
    forall t | t in batch ensures t in FirstSaved(SavesOf(batch)) {
      var i :| 0 <= i < |keys| && keys[i] == t;
      assert SavesOf(batch)[i].t == t;
    }
  }

  lemma {:induction false} BatchesAreSaves(batches: seq<Batch>, separator: string) returns (saves: seq<Save>)
    ensures Written(batches, separator) == Printed(saves, separator)
    ensures FirstWritten(batches) == FirstSaved(saves)
    decreases |batches|
  {
    saves := [];
    if batches != [] {
      var last := batches[|batches|-1];
      saves := BatchesAreSaves(batches[..|batches|-1], separator);
      PrintedTogether(saves, SavesOf(last), separator);
      FirstSavedTogether(saves, SavesOf(last));
      BatchIsSaved(last);
      saves := saves + SavesOf(last);
    }
  }

  /** Whatever batches are added to a file or meant to update it: reading does not throw, and the first
      value written for a time stamp wins. */
  lemma {:induction false} FirstWriteWins(batches: seq<Batch>, separator: string, parse: string -> Option<real>)
    requires Separates(separator, parse) && ReadsFixed(parse)
    ensures ReadsAs(Written(batches, separator), separator, parse, FirstWritten(batches))
  {
    var saves := BatchesAreSaves(batches, separator);
    WhatWasSavedComesBack(saves, separator, parse);
  }

  // ---------- what a separator spoils ----------

  lemma {:induction false} LiveRecordsAreLogged(log: seq<Record>)
    requires WellFormed(log)
    ensures forall k :: k in Replay(log) ==> Replay(log)[k] in log
    decreases |log|
  {
    if log != [] {
      LiveRecordsAreLogged(log[..|log|-1]);
      assert log[|log|-1] in log;
    }
  }

  lemma {:induction false} SomeListing(live: map<string, Record>, left: set<string>) returns (records: seq<Record>)
    requires forall k :: k in live ==> Keyed(live[k]) && live[k][1] == k
    requires left <= live.Keys
    ensures Listed(records, live - (live.Keys - left))
    decreases |left|
  {
    if left == {} {
      records := [];
    } else {
      var k :| k in left;
      records := SomeListing(live, left - {k});
      ListedNext(records, live, live.Keys - (left - {k}), k);
      records := records + [live[k]];
      assert live.Keys - (left - {k}) - {k} == live.Keys - left;
    }
  }

  /** What is shown for a time stamp stems from a line whose second field is that time stamp. */
  lemma {:induction false} ShownStamp(content: string, separator: string, parse: string -> Option<real>, first: Batch,
                                     t: int)
    returns (rec: Record)
    requires ReadsAs(content, separator, parse, first) && t in first && first[t].Number?
    ensures rec in Records(content, separator) && |rec| >= 3 && ReadingOf(rec, parse) == Some((t, Kept(first[t].v)))
  {
    var log := Records(content, separator);
    var live := Replay(log);
    LiveRecordsAreKeyed(log);
    LiveRecordsAreLogged(log);
    var records := SomeListing(live, live.Keys);
    assert live - (live.Keys - live.Keys) == live;
    CollectedRule(records, parse, |records|, t);
    assert records[..|records|] == records;
    var i :| Reads(records, parse, i, t, Collected(records, parse)[t]);
    rec := records[i];
  }

  /** A number that is read needs its last digit, and its sign if it is negative. */
  lemma ParsedNeeds(s: string, t: int)
    requires ParseInt(s) == Some(t) && -1 <= t <= 9
    ensures (if t < 0 then '-' else DIGITS[t]) in s
  {
    var digits := Unsigned(s);
    var last := digits[|digits| - 1];
    assert last in s;
    assert ParseNat(digits) % 10 == last as int - '0' as int;
    if t < 0 {
      assert s[0] == '-';
    }
  }

  lemma {:induction false} LoggedFields(content: string, separator: string, rec: Record)
    requires rec in Records(content, separator)
    ensures AreFields(rec, Separating(separator))
  {
    var i :| 0 <= i < |Lines(content)| && rec == Tokens(Lines(content)[i], Separating(separator));
    TokensAreFields(Lines(content)[i], Separating(separator));
  }

  /** What one batch of one reading is read as. */
  ghost predicate Spoils(separator: string, parse: string -> Option<real>, t: Timestamp, value: Value) {
    !ReadsAs(Written([map[t := value]], separator), separator, parse, map[t := value])
  }

  /** A separator with a digit or a sign in it spoils a time stamp that has it. */
  lemma {:induction false} DigitSpoils(separator: string, parse: string -> Option<real>, t: Timestamp)
    requires -1 <= t <= 9 && (if t < 0 then '-' else DIGITS[t]) in Separating(separator)
    ensures Spoils(separator, parse, t, Number(1.0))
  {
    var batch: Batch := map[t := Number(1.0)];
    var content := Written([batch], separator);
    if ReadsAs(content, separator, parse, batch) {
      var rec := ShownStamp(content, separator, parse, batch, t);
      ParsedNeeds(rec[1], t);
      LoggedFields(content, separator, rec);
    }
  }

  lemma {:induction false} OneReading(t: Timestamp, value: Value, separator: string)
    ensures Written([map[t := value]], separator) == LineOf(Save(t, value), separator)
    ensures FirstWritten([map[t := value]]) == map[t := value]
  {
    var batch: Batch := map[t := value];
    var keys := Enumerate(batch.Keys);
    assert |keys| == 1 && keys[0] in keys;
    assert SavesOf(batch) == [Save(t, value)];
    assert [batch][..0] == [] && [Save(t, value)][..0] == [];
    assert Printed([Save(t, value)], separator) == "" + LineOf(Save(t, value), separator);
  }

  lemma {:induction false} OneLine(save: Save, separator: string)
    requires Free(separator, {'\n'})
    ensures Records(LineOf(save, separator), separator) == [Logged(save, separator)]
  {
    SavedFileComesBack([save], separator);
    assert [save][..0] == [];
    assert Printed([save], separator) == "" + LineOf(save, separator) == LineOf(save, separator);
    assert LogOf([save], separator) == [Logged(save, separator)];
  }

  /** Where nothing separates, a line is a single field. */
  lemma {:induction false} NothingSeparates(separator: string, parse: string -> Option<real>)
    requires Separating(separator) == {} && Free(separator, {'\n'})
    ensures Spoils(separator, parse, 0, Number(1.0))
  {
    var save := Save(0, Number(1.0));
    OneReading(0, Number(1.0), separator);
    OneLine(save, separator);
    WholeLine(Join(RecordOf(save), separator));
    assert Records(LineOf(save, separator), separator)[0] == [Join(RecordOf(save), separator)];
  }

  /** Behind what separates a NUL becomes part of the time stamp. */
  lemma {:induction false} NULStartsTheStamp(separator: string, rest: string)
    requires '\0' in separator && Separating(separator) != {} && '1' !in Separating(separator)
    ensures var rec := Tokens(ENABLED + separator + rest, Separating(separator));
      |rec| >= 2 && rec[0] == ENABLED && rec[1] != "" && rec[1][0] == '\0'
  {
    var n, seps := Span(separator, {'\0'}), Separating(separator);
    var before, later := separator[..n], separator[n..] + rest;
    var i :| 0 <= i < |separator| && separator[i] == '\0';
    assert n <= i;
    SeparatingIs(separator);
    assert ENABLED + separator + rest == ENABLED + (before + later);
    assert before != "" && before[0] in seps;
    FirstToken(ENABLED, before + later, seps);
    LeadingSeparators(before, later, seps);
    assert later[0] == '\0';
  }

  /** ... so that nothing is shown. */
  lemma {:induction false} NULSpoils(separator: string, parse: string -> Option<real>)
    requires '\0' in separator && Separating(separator) != {} && '1' !in Separating(separator)
    requires Free(separator, {'\n'})
    ensures Spoils(separator, parse, 0, Number(1.0))
  {
    var save := Save(0, Number(1.0));
    var line, batch := LineOf(save, separator), map[0 := save.value];
    OneReading(0, Number(1.0), separator);
    OneLine(save, separator);
    ThreeFields(ENABLED, PrintInt(0), PrintFixed(1.0), separator);
    NULStartsTheStamp(separator, PrintInt(0) + separator + PrintFixed(1.0));
    NULIsNoStamp(Logged(save, separator)[1]);
    if ReadsAs(line, separator, parse, batch) {
      var rec := ShownStamp(line, separator, parse, batch, 0);
    }
  }

  lemma NULIsNoStamp(s: string)
    requires s != "" && s[0] == '\0'
    ensures ParseInt(s).None?
  {
  }

  // ---------- a separator with a line feed ----------

  /** More than any value that these records are read as. */
  function Beyond(records: seq<Record>, parse: string -> Option<real>): nat {
    if records == [] then 0
    else
      var rec, so := records[0], Beyond(records[1..], parse);
      if |rec| < 3 then so
      else
        match ReadingOf(rec, parse)
        case None => so
        case Some(r) => if r.1 < so as real then so else r.1.Floor + 1
  }

  lemma {:induction false} NoneIsBeyond(records: seq<Record>, parse: string -> Option<real>, rec: Record, v: nat)
    requires rec in records && |rec| >= 3 && ReadingOf(rec, parse).Some? && Beyond(records, parse) <= v
    ensures ReadingOf(rec, parse).value.1 < v as real
    decreases |records|
  {
    if rec != records[0] {
      NoneIsBeyond(records[1..], parse, rec, v);
    }
  }

  lemma KeptWhole(n: nat)
    ensures Kept(n as real) == n as real
  {
    RoundedIsExact(1000000 * n, 1000000.0 * n as real);
  }

  /** The lines up to the last line feed in a separator, and the beginning of the line after it. */
  lemma LastLineFeed(separator: string) returns (first: string, last: string)
    requires '\n' in separator
    ensures separator == first + last && Terminated(first) && first != "" && Free(last, {'\n'})
    decreases |separator|
  {
    var n := |separator| - 1;
    if separator[n] == '\n' {
      first, last := separator, "";
    } else {
      first, last := LastLineFeed(separator[..n]);
      last := last + [separator[n]];
    }
  }

  lemma CutBehind(a: string, t: string, first: string, last: string, v: string)
    ensures a + (t + (first + last) + v) + "\n" == (a + t + first) + (last + v + "\n")
  {
    Together(t, first, last);
    Together(a, t, first + (last + v));
    assert a + (t + (first + last) + v) == (a + t + first) + (last + v);
    Together(a + t + first, last + v, "\n");
  }

  lemma LineBehind(t: Timestamp, v: real, separator: string, first: string, last: string)
    requires separator == first + last
    ensures LineOf(Save(t, Number(v)), separator)
      == (ENABLED + separator + PrintInt(t) + first) + (last + PrintFixed(v) + "\n")
  {
    ThreeFields(ENABLED, PrintInt(t), PrintFixed(v), separator);
    CutBehind(ENABLED + separator, PrintInt(t), first, last, PrintFixed(v));
  }

  lemma NoLineFeedBehind(last: string, v: real)
    requires Free(last, {'\n'})
    ensures Free(last + PrintFixed(v), {'\n'})
  {
    PrintedIsPlain(0, v);
    forall i | 0 <= i < |PrintFixed(v)| ensures PrintFixed(v)[i] != '\n' {
      assert PrintFixed(v)[i] in ALPHABET;
    }
  }

  lemma TerminatedBehind(before: string, first: string)
    requires Terminated(first) && first != ""
    ensures Terminated(before + first)
  {
  }

  /** The file of one reading, when the separator ends in another line: only the last line has the value,
      and it has nothing of the time stamp. */
  lemma {:induction false} LastLineOnly(t: Timestamp, v: real, separator: string, first: string, last: string)
    requires separator == first + last && Terminated(first) && first != "" && Free(last, {'\n'})
    ensures Records(Written([map[t := Number(v)]], separator), separator)
      == Records(ENABLED + separator + PrintInt(t) + first, separator)
         + [Tokens(last + PrintFixed(v), Separating(separator))]
  {
    OneReading(t, Number(v), separator);
    LineBehind(t, v, separator, first, last);
    NoLineFeedBehind(last, v);
    TerminatedBehind(ENABLED + separator + PrintInt(t), first);
    RecordsNext(ENABLED + separator + PrintInt(t) + first, last + PrintFixed(v), separator);
  }

  /** If a value is shown that no other line is read as, then the last line is read as the time stamp, too. */
  lemma {:induction false} ShownByTheLast(t: Timestamp, v: nat, separator: string, parse: string -> Option<real>,
                                         first: string, last: string)
    requires separator == first + last && Terminated(first) && first != "" && Free(last, {'\n'})
    requires !Spoils(separator, parse, t, Number(v as real))
    requires Beyond(Records(ENABLED + separator + PrintInt(t) + first, separator), parse) <= v
    ensures var rec := Tokens(last + PrintFixed(v as real), Separating(separator));
      |rec| >= 3 && ReadingOf(rec, parse).Some? && ReadingOf(rec, parse).value.0 == t
  {
    var batch: Batch := map[t := Number(v as real)];
    var content := Written([batch], separator);
    LastLineOnly(t, v as real, separator, first, last);
    var rec := ShownStamp(content, separator, parse, batch, t);
    KeptWhole(v);
    if rec in Records(ENABLED + separator + PrintInt(t) + first, separator) {
      NoneIsBeyond(Records(ENABLED + separator + PrintInt(t) + first, separator), parse, rec, v);
    }
  }

  /** A separator that ends the line parts the values from their time stamps. */
  lemma {:induction false} LineFeedSpoils(separator: string, parse: string -> Option<real>)
    requires '\n' in separator
    ensures exists t, value :: Spoils(separator, parse, t, value)
  {
    var first, last := LastLineFeed(separator);
    var b0 := Beyond(Records(ENABLED + separator + PrintInt(0) + first, separator), parse);
    var b1 := Beyond(Records(ENABLED + separator + PrintInt(1) + first, separator), parse);
    var v: nat := if b0 < b1 then b1 else b0;
    if !Spoils(separator, parse, 0, Number(v as real)) && !Spoils(separator, parse, 1, Number(v as real)) {
      ShownByTheLast(0, v, separator, parse, first, last);
      ShownByTheLast(1, v, separator, parse, first, last);
      assert false;
    }
  }

  /** Digits, signs and line feeds are spared, so the status and the time stamp come back. */
  predicate SparesStamps(separator: string) {
    Cuts(separator) && forall i :: 0 <= i < |separator| ==> separator[i] !in "-0123456789\n"
  }

  lemma StampIsAField(t: int, separator: string)
    requires SparesStamps(separator)
    ensures IsField(ENABLED, Separating(separator)) && IsField(PrintInt(t), Separating(separator))
    ensures Free(separator, {'\n'})
  {
    SeparatingIs(separator);
    var s := PrintInt(t);
    var n: nat := if t < 0 then -t else t;
    forall i | 0 <= i < |s| ensures s[i] !in Separating(separator) {
      DigitIsADigit(if t < 0 && i > 0 then PrintNat(n)[i-1] else if t < 0 then '0' else PrintNat(n)[i]);
      assert t < 0 && i == 0 ==> s[i] == '-';
    }
    assert ENABLED[0] == "-0123456789\n"[2];
  }

  lemma DigitIsADigit(c: char)
    requires '0' <= c <= '9'
    ensures c in "-0123456789\n"
  {
    assert c == "-0123456789\n"[1 + (c as int - '0' as int)];
  }

  lemma {:induction false} SingleRecord(rec: Record, parse: string -> Option<real>)
    requires Keyed(rec) && rec[0] == ENABLED
    ensures WellFormed([rec]) && Replay([rec]) == map[rec[1] := rec] && Listed([rec], Replay([rec]))
    ensures |rec| >= 3 ==>
      Collected([rec], parse) ==
        match ReadingOf(rec, parse)
        case None => map[]
        case Some(r) => map[r.0 := r.1]
  {
    assert [rec][..0] == [];
    assert rec in [rec];
  }

  /** The log of a single reading that comes back at all. */
  lemma {:induction false} SingleReading(t: Timestamp, value: Value, separator: string, parse: string -> Option<real>)
    requires SparesStamps(separator) && !Spoils(separator, parse, t, value)
    ensures var left := Tokens(PrintValue(value), Separating(separator));
      && left != [] && var rec := [ENABLED, PrintInt(t)] + left;
         ReadingOf(rec, parse) == if value.Number? then Some((t as int, Kept(value.v))) else None
  {
    var batch, rec := map[t := value], Logged(Save(t, value), separator);
    OneReading(t, value, separator);
    StampIsAField(t, separator);
    OneLine(Save(t, value), separator);
    LoggedIs(Save(t, value), separator);
    SingleRecord(rec, parse);
    assert Valued(map[rec[1] := rec]) && rec[1] in map[rec[1] := rec];
    IntComesBack(t);
    assert Shows(Collected([rec], parse), batch);
  }

  lemma WholePart(v: real, separator: string)
    requires v >= 0.0 && SparesStamps(separator) && '.' in separator
    ensures Tokens(PrintFixed(v), Separating(separator)) != []
    ensures Tokens(PrintFixed(v), Separating(separator))[0] == PrintNat(Rounded(1000000.0 * v) / 1000000)
  {
    var n := Rounded(1000000.0 * v);
    var whole, fraction := PrintNat(n / 1000000), PrintDigits(n % 1000000, 6);
    StampIsAField(n / 1000000, separator);
    SeparatingIs(separator);
    assert PrintFixed(v) == whole + ("." + fraction);
    FirstToken(whole, "." + fraction, Separating(separator));
  }

  lemma {:induction false} PointReading(v: real, separator: string, parse: string -> Option<real>)
    requires v >= 0.0 && SparesStamps(separator) && '.' in separator && !Spoils(separator, parse, 5, Number(v))
    ensures parse(Lower(PrintNat(Rounded(1000000.0 * v) / 1000000))) == Some(Kept(v))
  {
    SingleReading(5, Number(v), separator, parse);
    WholePart(v, separator);
    var left := Tokens(PrintFixed(v), Separating(separator));
    assert ([ENABLED, PrintInt(5)] + left)[2] == left[0];
  }

  /** A separator with a point in it cuts the decimals off, so that one of two readings is spoilt. */
  lemma {:induction false} PointSpoils(separator: string, parse: string -> Option<real>)
    requires SparesStamps(separator) && '.' in separator
    ensures Spoils(separator, parse, 5, Number(1.5)) || Spoils(separator, parse, 5, Number(1.25))
  {
    if !Spoils(separator, parse, 5, Number(1.5)) && !Spoils(separator, parse, 5, Number(1.25)) {
      PointReading(1.5, separator, parse);
      PointReading(1.25, separator, parse);
      KeptExamples();
    }
  }

  lemma KeptExamples()
    ensures Kept(1.5) == 1.5 && Kept(1.25) == 1.25
    ensures Rounded(1000000.0 * 1.5) / 1000000 == Rounded(1000000.0 * 1.25) / 1000000 == 1
  {
    RoundedIsExact(1500000, 1000000.0 * 1.5);
    RoundedIsExact(1250000, 1000000.0 * 1.25);
  }

  /** What is left of a value that is no number must not be read. */
  lemma {:induction false} NaNSpoils(separator: string, parse: string -> Option<real>, negative: bool)
    requires SparesStamps(separator) && !SkipsNaN(separator, parse, negative)
    ensures Spoils(separator, parse, 5, NotANumber(negative))
  {
    if !Spoils(separator, parse, 5, NotANumber(negative)) {
      SingleReading(5, NotANumber(negative), separator, parse);
      IntComesBack(5);
    }
  }

  lemma {:induction false} UnfitSpoils(separator: string, parse: string -> Option<real>)
    requires !Separates(separator, parse)
    ensures exists t, value :: Spoils(separator, parse, t, value)
  {
    var seps := Separating(separator);
    SeparatingIs(separator);
    if '\n' in separator {
      LineFeedSpoils(separator, parse);
    } else if seps == {} {
      NothingSeparates(separator, parse);
    } else if c :| c in seps && c in "-0123456789" {
      var t: Timestamp := if c == '-' then -1 else c as int - '0' as int;
      assert c == if t < 0 then '-' else DIGITS[t];
      DigitSpoils(separator, parse, t);
    } else if '\0' in separator {
      assert "-0123456789"[2] == '1';
      NULSpoils(separator, parse);
    } else {
      assert SparesStamps(separator);
      if '.' in separator {
        PointSpoils(separator, parse);
      } else if !SkipsNaN(separator, parse, false) {
        NaNSpoils(separator, parse, false);
      } else {
        NaNSpoils(separator, parse, true);
      }
    }
  }

  /** All that is ever saved comes back under first-write-wins, exactly with the separators that do. */
  lemma {:induction false} ComesBackIff(separator: string, parse: string -> Option<real>)
    requires ReadsFixed(parse)
    ensures Separates(separator, parse) <==>
      forall batches :: ReadsAs(Written(batches, separator), separator, parse, FirstWritten(batches))
  {
    if Separates(separator, parse) {
      forall batches: seq<Batch>
        ensures ReadsAs(Written(batches, separator), separator, parse, FirstWritten(batches))
      {
        FirstWriteWins(batches, separator, parse);
      }
    } else {
      UnfitSpoils(separator, parse);
      var t, value :| Spoils(separator, parse, t, value);
      OneReading(t, value, separator);
      assert !ReadsAs(Written([map[t := value]], separator), separator, parse, FirstWritten([map[t := value]]));
    }
  }
}
