/** Text as the TXT store writes and reads it: lines, separated fields and decimal numbers. */
module Text {
  import opened Types

  // ---------- lines ----------

  /** The lines that `getline` delivers; the last one need not be terminated. */
  function Lines(content: string): seq<string> {
    if content == "" then [] else
    var n := Span(content, {'\n'});
    [content[..n]] + (if n < |content| then Lines(content[n+1..]) else [])
  }

  /** How many characters come before the first one in `stops`. */
  function Span(s: string, stops: set<char>): (n: nat)
    ensures n <= |s| && (forall i :: 0 <= i < n ==> s[i] !in stops) && (n < |s| ==> s[n] in stops)
  {
    if s == "" || s[0] in stops then 0 else 1 + Span(s[1..], stops)
  }

  predicate Free(s: string, stops: set<char>) {
    forall i :: 0 <= i < |s| ==> s[i] !in stops
  }

  /** The span is determined by what it promises. */
  lemma {:induction false} SpanIs(s: string, stops: set<char>, n: nat)
    requires n <= |s| && Free(s[..n], stops) && (n < |s| ==> s[n] in stops)
    ensures Span(s, stops) == n
  {
    forall i | 0 <= i < n ensures s[i] !in stops {
      assert s[..n][i] == s[i];
    }
  }

  /** Every line ends with a line feed, as the store leaves its files. */
  predicate Terminated(content: string) {
    content == "" || content[|content| - 1] == '\n'
  }

  lemma {:induction false} FirstLine(line: string, rest: string)
    requires Free(line, {'\n'})
    ensures Lines(line + "\n" + rest) == [line] + Lines(rest)
  {
    var content := line + "\n" + rest;
    assert content[..|line|] == line && content[|line|+1..] == rest;
    SpanIs(content, {'\n'}, |line|);
  }

  lemma CutFirstLine(content: string) returns (line: string, rest: string)
    requires Terminated(content) && content != ""
    ensures Free(line, {'\n'}) && content == line + "\n" + rest && Terminated(rest)
  {
    var n := Span(content, {'\n'});
    assert content[|content| - 1] in {'\n'};
    line, rest := content[..n], content[n+1..];
  }

  lemma Together(a: string, b: string, c: string)
    ensures a + b + c == a + (b + c)
  {
  }

  lemma Regrouped(a: string, b: string, c: string, d: string)
    ensures a + b + c + d == a + b + (c + d)
  {
  }

  lemma {:induction false} AppendedLines(content: string, line: string, ended: string)
    requires Terminated(content) && Free(line, {'\n'}) && ended == line + "\n"
    ensures Lines(content + ended) == Lines(content) + [line]
    decreases |content|
  {
    if content == "" {
      FirstLine(line, "");
      assert content + ended == line + "\n" + "";
    } else {
      var first, rest := CutFirstLine(content);
      FirstLine(first, rest);
      FirstLine(first, rest + ended);
      Regrouped(first, "\n", rest, ended);
      AppendedLines(rest, line, ended);
    }
  }

  /** A line that is appended to a terminated file is read as one more line. */
  lemma {:induction false} AppendedLine(content: string, line: string)
    requires Terminated(content) && Free(line, {'\n'})
    ensures Lines(content + (line + "\n")) == Lines(content) + [line]
    ensures Terminated(content + (line + "\n"))
  {
    AppendedLines(content, line, line + "\n");
  }

  /** A last line that is not terminated is read as well. */
  lemma {:induction false} UnterminatedLine(content: string, line: string)
    requires Terminated(content) && Free(line, {'\n'}) && line != ""
    ensures Lines(content + line) == Lines(content) + [line]
    decreases |content|
  {
    if content == "" {
      assert content + line == line && line[..|line|] == line;
      SpanIs(line, {'\n'}, |line|);
    } else {
      var first, rest := CutFirstLine(content);
      FirstLine(first, rest);
      FirstLine(first, rest + line);
      Regrouped(first, "\n", rest, line);
      UnterminatedLine(rest, line);
    }
  }

  // ---------- fields ----------

  /** `boost::char_separator`: each of these characters separates, and empty tokens are dropped. */
  function Tokens(line: string, seps: set<char>): seq<string>
    decreases |line|
  {
    if line == "" then []
    else if line[0] in seps then Tokens(line[1..], seps)
    else var n := Span(line, seps); [line[..n]] + Tokens(line[n..], seps)
  }

  function Chars(s: string): set<char> {
    set c | c in s
  }

  /** The characters that separate: the tokenizer is given a C string, which ends before the first NUL. */
  function Separating(separator: string): set<char> {
    Chars(separator[..Span(separator, {'\0'})])
  }

  /** All of the separator separates, and that is something. */
  predicate Cuts(separator: string) {
    separator != "" && '\0' !in separator
  }

  /** Lines are printed with the whole separator. */
  function Join(fields: seq<string>, separator: string): string {
    if fields == [] then ""
    else if |fields| == 1 then fields[0]
    else fields[0] + separator + Join(fields[1..], separator)
  }

  predicate IsField(f: string, seps: set<char>) {
    f != "" && Free(f, seps)
  }

  predicate AreFields(fields: seq<string>, seps: set<char>) {
    forall i :: 0 <= i < |fields| ==> IsField(fields[i], seps)
  }

  /** Whatever a line contains, its tokens are neither empty nor do they contain a separator. */
  lemma {:induction false} TokensAreFields(line: string, seps: set<char>)
    ensures AreFields(Tokens(line, seps), seps)
    decreases |line|
  {
    if line != "" {
      if line[0] in seps {
        TokensAreFields(line[1..], seps);
      } else {
        var n := Span(line, seps);
        assert n > 0;
        assert IsField(line[..n], seps);
        TokensAreFields(line[n..], seps);
      }
    }
  }

  lemma {:induction false} LeadingSeparators(pre: string, rest: string, seps: set<char>)
    requires forall i :: 0 <= i < |pre| ==> pre[i] in seps
    ensures Tokens(pre + rest, seps) == Tokens(rest, seps)
    decreases |pre|
  {
    if pre == "" {
      assert pre + rest == rest;
    } else {
      assert (pre + rest)[1..] == pre[1..] + rest;
      LeadingSeparators(pre[1..], rest, seps);
    }
  }

  lemma {:induction false} FirstToken(f: string, rest: string, seps: set<char>)
    requires IsField(f, seps) && (rest != "" ==> rest[0] in seps)
    ensures Tokens(f + rest, seps) == [f] + Tokens(rest, seps)
  {
    var line := f + rest;
    assert line[..|f|] == f && line[|f|..] == rest;
    SpanIs(line, seps, |f|);
    assert line[0] == f[0];
  }

  lemma SeparatingIs(separator: string)
    ensures '\0' !in Separating(separator) && Separating(separator) <= Chars(separator)
    ensures '\0' !in separator ==> Separating(separator) == Chars(separator)
  {
    var n := Span(separator, {'\0'});
    assert n < |separator| ==> separator[n] == '\0';
    assert n == |separator| ==> separator[..n] == separator;
  }

  lemma {:induction false} FieldsComeBack(fields: seq<string>, separator: string)
    requires Cuts(separator) && AreFields(fields, Separating(separator))
    ensures Tokens(Join(fields, separator), Separating(separator)) == fields
    decreases |fields|
  {
    var seps := Separating(separator);
    SeparatingIs(separator);
    if fields != [] {
      var f, rest := fields[0], fields[1..];
      FieldsComeBack(rest, separator);
      if |fields| == 1 {
        FirstToken(f, "", seps);
        assert f + "" == f;
      } else {
        FirstToken(f, separator + Join(rest, separator), seps);
        assert f + (separator + Join(rest, separator)) == f + separator + Join(rest, separator);
        LeadingSeparators(separator, Join(rest, separator), seps);
      }
    }
  }

  /** How many characters of a line do not separate. */
  function Solid(s: string, seps: set<char>): nat {
    if s == "" then 0 else (if s[0] in seps then 0 else 1) + Solid(s[1..], seps)
  }

  function Lengths(fields: seq<string>): nat {
    if fields == [] then 0 else |fields[0]| + Lengths(fields[1..])
  }

  lemma {:induction false} SolidTogether(a: string, b: string, seps: set<char>)
    ensures Solid(a + b, seps) == Solid(a, seps) + Solid(b, seps)
    decreases |a|
  {
    if a == "" {
      assert a + b == b;
    } else {
      assert (a + b)[1..] == a[1..] + b;
      SolidTogether(a[1..], b, seps);
    }
  }

  lemma {:induction false} FreeIsSolid(s: string, seps: set<char>)
    requires Free(s, seps)
    ensures Solid(s, seps) == |s|
    decreases |s|
  {
    if s != "" {
      FreeIsSolid(s[1..], seps);
    }
  }

  lemma {:induction false} SolidNUL(s: string, seps: set<char>)
    requires '\0' in s && '\0' !in seps
    ensures Solid(s, seps) > 0
    decreases |s|
  {
    if s[0] != '\0' {
      SolidNUL(s[1..], seps);
    }
  }

  /** The tokens hold every character that does not separate. */
  lemma {:induction false} TokensAreSolid(line: string, seps: set<char>)
    ensures Lengths(Tokens(line, seps)) == Solid(line, seps)
    decreases |line|
  {
    if line != "" {
      if line[0] in seps {
        TokensAreSolid(line[1..], seps);
      } else {
        var n := Span(line, seps);
        TokensAreSolid(line[n..], seps);
        FreeIsSolid(line[..n], seps);
        SolidTogether(line[..n], line[n..], seps);
        assert line[..n] + line[n..] == line;
      }
    }
  }

  lemma {:induction false} JoinedSolid(fields: seq<string>, separator: string, seps: set<char>)
    requires AreFields(fields, seps)
    ensures Solid(Join(fields, separator), seps) >= Lengths(fields) + if |fields| > 1 then Solid(separator, seps) else 0
    decreases |fields|
  {
    if fields != [] {
      var f, rest := fields[0], fields[1..];
      FreeIsSolid(f, seps);
      JoinedSolid(rest, separator, seps);
      if |fields| == 1 {
        assert rest == [];
      } else {
        SolidTogether(f, separator, seps);
        SolidTogether(f + separator, Join(rest, separator), seps);
      }
    }
  }

  /** With nothing that separates a line is a single token. */
  lemma {:induction false} WholeLine(line: string)
    requires line != ""
    ensures Tokens(line, {}) == [line]
  {
    FirstToken(line, "", {});
    assert line + "" == line;
  }

  /** A printed line is read back as the fields it was printed from exactly when none of them is empty
      or contains a character that separates, and a separator between them does nothing but that. */
  lemma {:induction false} FieldsComeBackIff(fields: seq<string>, separator: string)
    ensures Tokens(Join(fields, separator), Separating(separator)) == fields <==>
      AreFields(fields, Separating(separator)) && (|fields| > 1 ==> Cuts(separator))
  {
    var seps, line := Separating(separator), Join(fields, separator);
    SeparatingIs(separator);
    TokensAreFields(line, seps);
    TokensAreSolid(line, seps);
    if AreFields(fields, seps) {
      if Cuts(separator) {
        FieldsComeBack(fields, separator);
      } else if |fields| == 1 {
        FirstToken(line, "", seps);
        assert line + "" == line;
      } else if separator == "" {
        assert |fields| > 1 ==> Tokens(line, seps) != fields by {
          if line != "" { WholeLine(line); }
        }
      } else {
        JoinedSolid(fields, separator, seps);
        SolidNUL(separator, seps);
      }
    }
  }

  lemma {:induction false} JoinedIsFree(fields: seq<string>, separator: string, stops: set<char>)
    requires Free(separator, stops) && forall i :: 0 <= i < |fields| ==> Free(fields[i], stops)
    ensures Free(Join(fields, separator), stops)
    decreases |fields|
  {
    if |fields| > 1 {
      JoinedIsFree(fields[1..], separator, stops);
    }
  }

  // ---------- numbers ----------

  const DIGITS := "0123456789"

  predicate IsDigits(s: string) {
    forall i :: 0 <= i < |s| ==> '0' <= s[i] <= '9'
  }

  function PrintNat(n: nat): (s: string)
    ensures s != "" && IsDigits(s)
  {
    if n < 10 then [DIGITS[n]] else PrintNat(n / 10) + [DIGITS[n % 10]]
  }

  /** The last `k` digits of `n`, with leading zeros. */
  function PrintDigits(n: nat, k: nat): (s: string)
    ensures |s| == k && IsDigits(s)
  {
    if k == 0 then "" else PrintDigits(n / 10, k - 1) + [DIGITS[n % 10]]
  }

  function ParseNat(s: string): nat
    requires IsDigits(s)
  {
    if s == "" then 0 else 10 * ParseNat(s[..|s|-1]) + (s[|s|-1] as int - '0' as int)
  }

  function Pow10(k: nat): (p: nat)
    ensures p > 0
  {
    if k == 0 then 1 else 10 * Pow10(k - 1)
  }

  lemma {:induction false} ParseLast(s: string, c: char)
    requires IsDigits(s) && '0' <= c <= '9'
    ensures ParseNat(s + [c]) == 10 * ParseNat(s) + (c as int - '0' as int)
  {
    assert (s + [c])[..|s|] == s;
  }

  lemma {:induction false} NatComesBack(n: nat)
    ensures ParseNat(PrintNat(n)) == n
  {
    if n < 10 {
      ParseLast("", DIGITS[n]);
      assert "" + [DIGITS[n]] == [DIGITS[n]];
    } else {
      NatComesBack(n / 10);
      ParseLast(PrintNat(n / 10), DIGITS[n % 10]);
    }
  }

  lemma {:induction false} DigitsComeBack(n: nat, k: nat)
    requires n < Pow10(k)
    ensures ParseNat(PrintDigits(n, k)) == n
    decreases k
  {
    if k > 0 {
      DigitsComeBack(n / 10, k - 1);
      ParseLast(PrintDigits(n / 10, k - 1), DIGITS[n % 10]);
    }
  }

  /** No leading zeros. */
  lemma {:induction false} FirstDigit(n: nat)
    ensures PrintNat(n)[0] == '0' <==> n == 0
  {
    if n >= 10 {
      FirstDigit(n / 10);
    } else {
      assert DIGITS[0] == '0' && (n > 0 ==> DIGITS[n] != '0');
    }
  }

  /** `std::to_string` of a time stamp. */
  function PrintInt(t: int): string {
    if t < 0 then "-" + PrintNat(-t) else PrintNat(t)
  }

  function Unsigned(s: string): string {
    if s != "" && (s[0] == '+' || s[0] == '-') then s[1..] else s
  }

  /** `boost::lexical_cast<time_t>`: a sign, digits, and a value that fits. */
  function ParseInt(s: string): Option<int> {
    var digits := Unsigned(s);
    if digits == "" || !IsDigits(digits) then None
    else
      var n: int := if s[0] == '-' then -(ParseNat(digits) as int) else ParseNat(digits);
      if -0x8000_0000_0000_0000 <= n < 0x8000_0000_0000_0000 then Some(n) else None
  }

  /** What digits stand for. */
  function Value(s: string): nat
    requires IsDigits(s)
  {
    if s == "" then 0 else (s[0] as int - '0' as int) * Pow10(|s| - 1) + Value(s[1..])
  }

  lemma {:induction false} ParseNatIs(s: string)
    requires IsDigits(s)
    ensures ParseNat(s) == Value(s)
    decreases |s|
  {
    if |s| > 1 {
      ParseNatIs(s[..|s|-1]);
      ValueOfLast(s);
    }
  }

  lemma {:induction false} ValueOfLast(s: string)
    requires s != "" && IsDigits(s)
    ensures Value(s) == 10 * Value(s[..|s|-1]) + (s[|s|-1] as int - '0' as int)
    decreases |s|
  {
    if |s| > 1 {
      var fewer := s[..|s|-1];
      ValueOfLast(s[1..]);
      assert fewer[1..] == s[1..][..|s|-2] && fewer[0] == s[0];
      TenTimes(s[0] as int - '0' as int, Pow10(|s| - 2));
    }
  }

  lemma TenTimes(d: int, p: int)
    ensures d * (10 * p) == 10 * (d * p)
  {
  }

  predicate StandsFor(s: string, sign: string, digits: string, n: int) {
    && s == sign + digits && (sign == "" || sign == "+" || sign == "-") && digits != "" && IsDigits(digits)
    && n == if sign == "-" then -(Value(digits) as int) else Value(digits)
  }

  lemma ParsedStandsFor(s: string, n: int)
    requires ParseInt(s) == Some(n)
    ensures var digits := Unsigned(s); StandsFor(s, if digits == s then "" else [s[0]], digits, n)
  {
    var digits := Unsigned(s);
    ParseNatIs(digits);
    assert digits != s ==> s == [s[0]] + digits;
    assert digits == s ==> s == "" + digits && '0' <= s[0] <= '9';
  }

  lemma StandsForIsParsed(s: string, sign: string, digits: string, n: int)
    requires StandsFor(s, sign, digits, n) && -0x8000_0000_0000_0000 <= n < 0x8000_0000_0000_0000
    ensures ParseInt(s) == Some(n)
  {
    ParseNatIs(digits);
    assert '0' <= digits[0] <= '9';
    if sign == "" {
      assert s == digits;
    } else {
      assert s[0] == sign[0] && s[1..] == digits;
    }
    assert Unsigned(s) == digits;
  }

  /** A number is read exactly from an optional sign and the digits that stand for it, if it fits. */
  lemma {:induction false} ParseIntIff(s: string, n: int)
    ensures ParseInt(s) == Some(n) <==>
      -0x8000_0000_0000_0000 <= n < 0x8000_0000_0000_0000 && exists sign, digits :: StandsFor(s, sign, digits, n)
  {
    if ParseInt(s) == Some(n) {
      ParsedStandsFor(s, n);
    }
    forall sign, digits | StandsFor(s, sign, digits, n) && -0x8000_0000_0000_0000 <= n < 0x8000_0000_0000_0000
      ensures ParseInt(s) == Some(n)
    {
      StandsForIsParsed(s, sign, digits, n);
    }
  }

  lemma IntComesBack(t: int)
    requires -0x8000_0000_0000_0000 <= t < 0x8000_0000_0000_0000
    ensures ParseInt(PrintInt(t)) == Some(t)
  {
    var n: nat := if t < 0 then -t else t;
    var digits, s := PrintNat(n), PrintInt(t);
    assert ParseNat(digits) == n by {
      NatComesBack(n);
    }
    assert '0' <= digits[0] <= '9';
    assert t < 0 ==> s[1..] == digits;
    assert Unsigned(s) == digits;
  }

  /** `printf` rounds to the nearest, and to the even one of two. */
  function Rounded(x: real): (n: nat)
    requires x >= 0.0
    ensures n as real - 0.5 <= x <= n as real + 0.5
    ensures x == n as real - 0.5 || x == n as real + 0.5 ==> n % 2 == 0
  {
    var f := x.Floor;
    var d := x - f as real;
    if d < 0.5 || (d == 0.5 && f % 2 == 0) then f else f + 1
  }

  function Fixed(negative: bool, whole: string, fraction: string): string {
    (if negative then "-" else "") + whole + "." + fraction
  }

  /** `std::to_string` of a number: six decimals. */
  function PrintFixed(v: real): string {
    var n := Rounded(if v < 0.0 then -1000000.0 * v else 1000000.0 * v);
    Fixed(v < 0.0, PrintNat(n / 1000000), PrintDigits(n % 1000000, 6))
  }

  /** A negative number has its sign, even if its digits are all zero, and nothing else has. */
  lemma SignIsPrinted(v: real)
    ensures PrintFixed(v)[0] == '-' <==> v < 0.0
  {
    var n := Rounded(if v < 0.0 then -1000000.0 * v else 1000000.0 * v);
    var whole := PrintNat(n / 1000000);
    assert v >= 0.0 ==> PrintFixed(v)[0] == whole[0];
  }

  function FixedValue(negative: bool, whole: string, fraction: string): real
    requires IsDigits(whole) && IsDigits(fraction)
  {
    var n := (1000000 * ParseNat(whole) + ParseNat(fraction)) as real / 1000000.0;
    if negative then -n else n
  }

  /** What is promised of `boost::lexical_cast<double>`: it reads what `std::to_string` prints. */
  ghost predicate ReadsFixed(parse: string -> Option<real>) {
    forall negative, whole, fraction {:trigger Fixed(negative, whole, fraction)} ::
      whole != "" && IsDigits(whole) && |fraction| == 6 && IsDigits(fraction) ==>
        parse(Fixed(negative, whole, fraction)) == Some(FixedValue(negative, whole, fraction))
  }

  /** One such parser: it reads the fixed notation and nothing else. */
  function ParseFixed(s: string): Option<real> {
    var negative := s != "" && s[0] == '-';
    var unsigned := if negative then s[1..] else s;
    var n := Span(unsigned, {'.'});
    if n == |unsigned| then None
    else
      var whole, fraction := unsigned[..n], unsigned[n+1..];
      if whole != "" && |fraction| == 6 && IsDigits(whole) && IsDigits(fraction)
      then Some(FixedValue(negative, whole, fraction)) else None
  }

  lemma ParseFixedReadsFixed()
    ensures ReadsFixed(ParseFixed)
  {
    forall negative, whole, fraction {:trigger Fixed(negative, whole, fraction)}
      | whole != "" && IsDigits(whole) && |fraction| == 6 && IsDigits(fraction)
      ensures ParseFixed(Fixed(negative, whole, fraction)) == Some(FixedValue(negative, whole, fraction))
    {
      var s, unsigned := Fixed(negative, whole, fraction), whole + "." + fraction;
      assert whole[0] != '-' && unsigned[0] == whole[0];
      assert s == (if negative then "-" else "") + unsigned;
      assert negative ==> s[1..] == unsigned;
      assert !negative ==> s == unsigned;
      assert unsigned[..|whole|] == whole && unsigned[|whole|+1..] == fraction;
      SpanIs(unsigned, {'.'}, |whole|);
    }
  }

  /** The value with six decimals that a number is kept as. */
  function Kept(v: real): real {
    if v < 0.0 then -(Rounded(-1000000.0 * v) as real / 1000000.0) else Rounded(1000000.0 * v) as real / 1000000.0
  }

  lemma KeptIsClose(v: real)
    ensures -0.0000005 <= Kept(v) - v <= 0.0000005
  {
    var n := Rounded(if v < 0.0 then -1000000.0 * v else 1000000.0 * v);
    assert Kept(v) == if v < 0.0 then -(n as real / 1000000.0) else n as real / 1000000.0;
  }

  /** A value in the middle of two with six decimals is kept as the even one, whatever its sign. */
  lemma MiddleIsKeptEven(v: real, n: nat)
    requires 1000000.0 * v == n as real + 0.5 || -1000000.0 * v == n as real + 0.5
    ensures var even := (if n % 2 == 0 then n else n + 1) as real / 1000000.0;
      Kept(v) == if v < 0.0 then -even else even
  {
    var x := if v < 0.0 then -1000000.0 * v else 1000000.0 * v;
    assert x == n as real + 0.5;
    assert Rounded(x) == n || Rounded(x) == n + 1;
  }

  lemma RoundedIsExact(n: nat, x: real)
    requires x == n as real
    ensures Rounded(x) == n
  {
  }

  /** Saving a value again that has been read loses nothing more. */
  lemma KeptIsKept(v: real)
    ensures Kept(Kept(v)) == Kept(v)
  {
    var n := Rounded(if v < 0.0 then -1000000.0 * v else 1000000.0 * v);
    var k := n as real / 1000000.0;
    assert Kept(v) == if v < 0.0 then -k else k;
    assert 1000000.0 * k == n as real && -1000000.0 * (-k) == n as real;
    RoundedIsExact(n, 1000000.0 * k);
  }

  /** Without its last `j` digits. */
  function Shifted(n: nat, j: nat): nat {
    if j == 0 then n else Shifted(n / 10, j - 1)
  }

  lemma {:induction false} DigitFromTheRight(n: nat, k: nat, j: nat)
    requires j < k
    ensures PrintDigits(n, k)[k - 1 - j] == DIGITS[Shifted(n, j) % 10]
    decreases j
  {
    if j > 0 {
      DigitFromTheRight(n / 10, k - 1, j - 1);
    }
  }

  lemma {:induction false} ShiftedOnce(n: nat, j: nat)
    ensures Shifted(n, j + 1) == Shifted(n, j) / 10
    decreases j
  {
    if j > 0 {
      ShiftedOnce(n / 10, j - 1);
    }
  }

  lemma {:induction false} DigitsOfMiddle(n: nat)
    requires n == 7812
    ensures PrintDigits(n, 6) == "007812"
  {
    ShiftedOnce(n, 0);
    ShiftedOnce(n, 1);
    ShiftedOnce(n, 2);
    ShiftedOnce(n, 3);
    ShiftedOnce(n, 4);
    DigitFromTheRight(n, 6, 0);
    DigitFromTheRight(n, 6, 1);
    DigitFromTheRight(n, 6, 2);
    DigitFromTheRight(n, 6, 3);
    DigitFromTheRight(n, 6, 4);
    DigitFromTheRight(n, 6, 5);
    SixCharacters(PrintDigits(n, 6));
  }

  lemma SixCharacters(s: string)
    requires |s| == 6
    requires s[0] == '0' && s[1] == '0' && s[2] == '7' && s[3] == '8' && s[4] == '1' && s[5] == '2'
    ensures s == "007812"
  {
  }

  lemma {:induction false} FixedOf(v: real, n: nat)
    requires v >= 0.0 && 1000000.0 * v == n as real + 0.5 && n % 2 == 0 && n < 1000000
    ensures PrintFixed(v) == "0." + PrintDigits(n, 6)
  {
    MiddleIsKeptEven(v, n);
    assert Rounded(1000000.0 * v) == n;
    assert PrintNat(0) == "0";
    assert Fixed(false, "0", PrintDigits(n, 6)) == "0." + PrintDigits(n, 6);
  }

  /** 1/128, which a binary number has exactly. */
  lemma {:induction false} MiddleIsPrintedEven()
    ensures PrintFixed(0.0078125) == "0.007812"
  {
    DigitsOfMiddle(7812);
    FixedOf(0.0078125, 7812);
  }

  lemma {:induction false} SixDigits(n: nat)
    requires n < 1000000
    ensures var s := PrintDigits(n, 6); |s| == 6 && IsDigits(s) && ParseNat(s) == n
  {
    assert Pow10(6) == 1000000 by {
      assert Pow10(0) == 1 && Pow10(1) == 10 && Pow10(2) == 100 && Pow10(3) == 1000;
    }
    DigitsComeBack(n, 6);
  }

  lemma FixedComesBack(parse: string -> Option<real>, v: real)
    requires ReadsFixed(parse)
    ensures parse(PrintFixed(v)) == Some(Kept(v))
  {
    var n := Rounded(if v < 0.0 then -1000000.0 * v else 1000000.0 * v);
    var whole, fraction := PrintNat(n / 1000000), PrintDigits(n % 1000000, 6);
    NatComesBack(n / 1000000);
    SixDigits(n % 1000000);
    assert 1000000 * (n / 1000000) + n % 1000000 == n;
    assert FixedValue(v < 0.0, whole, fraction) == Kept(v);
  }
}
