/** Classifying the lines of a sar report: blank lines, summary lines,
    the preamble (first line) and column-header lines, as the regular
    expressions of sar_parser.py and SAR.py recognise them. */
module Lines {
  import opened Wrappers
  import opened Text
  import opened Calendar
  import opened Timestamps

  /** The two parsers: sar_parser.py and its predecessor SAR.py differ in
      the summary-line pattern and the header character class. */
  datatype Dialect = Current | Legacy

  /** `line.rstrip("\n")`. */
  function StripNewlines(line: string): (r: string)
    ensures |r| <= |line| && r == line[..|r|]
    ensures r == [] || r[|r| - 1] != '\n'
    ensures forall i :: |r| <= i < |line| ==> line[i] == '\n'
  {
    if line != [] && line[|line| - 1] == '\n' then StripNewlines(line[..|line| - 1]) else line
  }

  /** `_empty_line`: `^\s*$` finds a match. */
  predicate EmptyLine(line: string) {
    forall i :: 0 <= i < |line| ==> IsSpace(line[i])
  }

  /** `_average_line`: `^Average|^Summary` in sar_parser.py, while SAR.py
      insists on the colon of `Average:`. */
  predicate AverageLine(d: Dialect, line: string) {
    (if d == Current then StartsWith(line, "Average") else StartsWith(line, "Average:"))
    || StartsWith(line, "Summary")
  }

  /** Every legacy summary line is a summary line of the current parser,
      but not conversely: `Average` without a colon is one only for the
      current parser. */
  lemma AverageLineDialects(line: string)
    ensures AverageLine(Legacy, line) ==> AverageLine(Current, line)
    ensures AverageLine(Current, "Average ") && !AverageLine(Legacy, "Average ")
  {
    if StartsWith(line, "Average:") {
      assert line[..7] == line[..8][..7];
    }
    assert "Average "[..7] == "Average";
    assert "Average "[..8][7] == ' ';
  }

  // ---- column headers ----

  /** The character class of header names: `[a-zA-Z1360%/_-]` in
      sar_parser.py, `[a-zA-Z6%/_-]` in SAR.py. */
  predicate HeaderChar(d: Dialect, c: char) {
    ('a' <= c <= 'z') || ('A' <= c <= 'Z') || c == '%' || c == '/' || c == '_' || c == '-'
    || c == '6' || (d == Current && (c == '1' || c == '3' || c == '0'))
  }

  /** `r` can be cut into header pieces: single header characters,
      whitespace, `i` with three digits and `/s`, the three IPv6 names with
      digits, and `ldavg-` with a run of digits. A non-empty such `r` that
      starts with a header piece is the header group of
      `_column_headers`. */
  predicate Pieces(d: Dialect, r: string)
    decreases |r|, 1
  {
    r == []
    || ((IsSpace(r[0]) || HeaderChar(d, r[0])) && Pieces(d, r[1..]))
    || (StartsWith(r, "i2big6/s") && Pieces(d, r[8..]))
    || (StartsWith(r, "ipck2b6/s") && Pieces(d, r[9..]))
    || (StartsWith(r, "opck2b6/s") && Pieces(d, r[9..]))
    || (|r| >= 6 && r[0] == 'i' && IsDigit(r[1]) && IsDigit(r[2]) && IsDigit(r[3])
        && r[4..6] == "/s" && Pieces(d, r[6..]))
    || (StartsWith(r, "ldavg-") && DigitsThenPieces(d, r[6..]))
  }

  /** A non-empty run of digits (the end of an `ldavg-N` name) and then
      header pieces. */
  predicate DigitsThenPieces(d: Dialect, r: string)
    decreases |r|, 0
  {
    r != [] && IsDigit(r[0]) && (Pieces(d, r[1..]) || DigitsThenPieces(d, r[1..]))
  }

  /** A decimal point never occurs in a header group, so a row of decimal
      values is never taken for a header line. */
  lemma {:induction false} PiecesNoDot(d: Dialect, r: string)
    requires Pieces(d, r)
    ensures '.' !in r
    decreases |r|, 1
  {
    if r != [] {
      if (IsSpace(r[0]) || HeaderChar(d, r[0])) && Pieces(d, r[1..]) {
        PiecesNoDot(d, r[1..]);
        assert r == [r[0]] + r[1..];
      } else if StartsWith(r, "i2big6/s") && Pieces(d, r[8..]) {
        PiecesNoDot(d, r[8..]);
        assert r == r[..8] + r[8..];
      } else if StartsWith(r, "ipck2b6/s") && Pieces(d, r[9..]) {
        PiecesNoDot(d, r[9..]);
        assert r == r[..9] + r[9..];
      } else if StartsWith(r, "opck2b6/s") && Pieces(d, r[9..]) {
        PiecesNoDot(d, r[9..]);
        assert r == r[..9] + r[9..];
      } else if |r| >= 6 && r[0] == 'i' && IsDigit(r[1]) && IsDigit(r[2]) && IsDigit(r[3])
        && r[4..6] == "/s" && Pieces(d, r[6..]) {
        PiecesNoDot(d, r[6..]);
        assert r == r[..6] + r[6..];
      } else {
        DigitsNoDot(d, r[6..]);
        assert r == r[..6] + r[6..];
      }
    }
  }

  lemma {:induction false} DigitsNoDot(d: Dialect, r: string)
    requires DigitsThenPieces(d, r)
    ensures '.' !in r
    decreases |r|, 0
  {
    if Pieces(d, r[1..]) {
      PiecesNoDot(d, r[1..]);
    } else {
      DigitsNoDot(d, r[1..]);
    }
    assert r == [r[0]] + r[1..];
  }

  /** Every header group SAR.py accepts, sar_parser.py accepts too: the
      newer character class only adds digits. */
  lemma {:induction false} LegacyPiecesAreCurrent(r: string)
    requires Pieces(Legacy, r)
    ensures Pieces(Current, r)
    decreases |r|, 1
  {
    if r != [] {
      if (IsSpace(r[0]) || HeaderChar(Legacy, r[0])) && Pieces(Legacy, r[1..]) {
        LegacyPiecesAreCurrent(r[1..]);
      } else if StartsWith(r, "i2big6/s") && Pieces(Legacy, r[8..]) {
        LegacyPiecesAreCurrent(r[8..]);
      } else if StartsWith(r, "ipck2b6/s") && Pieces(Legacy, r[9..]) {
        LegacyPiecesAreCurrent(r[9..]);
      } else if StartsWith(r, "opck2b6/s") && Pieces(Legacy, r[9..]) {
        LegacyPiecesAreCurrent(r[9..]);
      } else if |r| >= 6 && r[0] == 'i' && IsDigit(r[1]) && IsDigit(r[2]) && IsDigit(r[3])
        && r[4..6] == "/s" && Pieces(Legacy, r[6..]) {
        LegacyPiecesAreCurrent(r[6..]);
      } else {
        LegacyDigitsAreCurrent(r[6..]);
      }
    }
  }

  lemma {:induction false} LegacyDigitsAreCurrent(r: string)
    requires DigitsThenPieces(Legacy, r)
    ensures DigitsThenPieces(Current, r)
    decreases |r|, 0
  {
    if Pieces(Legacy, r[1..]) {
      LegacyPiecesAreCurrent(r[1..]);
    } else {
      LegacyDigitsAreCurrent(r[1..]);
    }
  }

  /** `[h for h in s.split(" ") if h != ""]`. */
  function Words(s: string): (r: seq<string>)
    ensures forall w :: w in r ==> w != [] && ' ' !in w
  {
    NonEmpty(Split(s, ' '))
  }

  function NonEmpty(parts: seq<string>): (r: seq<string>)
    ensures forall w :: w in r ==> w != [] && w in parts
  {
    if parts == [] then []
    else if parts[0] == "" then NonEmpty(parts[1..])
    else [parts[0]] + NonEmpty(parts[1..])
  }

  /** The result of `_column_headers`: the timestamp text and the header
      names. */
  datatype HeaderLine = HeaderLine(stamp: string, headers: seq<string>)

  /** The header names when the timestamp text ends at `k`: at least one
      whitespace character, then a header group up to the end of the line
      (trailing whitespace included). */
  function HeadersAfter(d: Dialect, line: string, k: nat): Option<seq<string>> {
    if k < |line| && IsSpace(line[k]) then
      var group := DropSpace(line[k..]);
      if group != [] && Pieces(d, group) then Some(Words(group)) else None
    else None
  }

  /** The timestamp of a header line carries an AM/PM marker at `line[9..11]`. */
  predicate MarkerAt(line: string) {
    |line| >= 11 && IsSpace(line[8]) && (line[9..11] == "AM" || line[9..11] == "PM")
  }

  /** `_column_headers(line)`: the leading `HH:MM:SS`, with its AM/PM marker
      when the rest still reads as headers (the regular expression tries the
      marker first), then the header names. */
  function ColumnHeaders(d: Dialect, line: string): (r: Option<HeaderLine>)
    ensures r.Some? ==> TimeAt(line, 0) && r.value.headers != []
    ensures r.Some? ==> r.value.stamp == line[..8] || (MarkerAt(line) && r.value.stamp == line[..11])
    ensures r.Some? ==> forall h :: h in r.value.headers ==> h != [] && ' ' !in h && '.' !in h
  {
    if !TimeAt(line, 0) then None
    else if MarkerAt(line) && HeadersAfter(d, line, 11).Some? then
      HeadersFound(d, line, 11);
      Some(HeaderLine(line[..11], HeadersAfter(d, line, 11).value))
    else match HeadersAfter(d, line, 8)
      case Some(hs) =>
        HeadersFound(d, line, 8);
        Some(HeaderLine(line[..8], hs))
      case None => None
  }

  /** Header names found after position `k` are non-empty and hold no blank
      and no decimal point. */
  lemma HeadersFound(d: Dialect, line: string, k: nat)
    requires HeadersAfter(d, line, k).Some?
    ensures HeadersAfter(d, line, k).value != []
    ensures forall h :: h in HeadersAfter(d, line, k).value ==> h != [] && ' ' !in h && '.' !in h
  {
    var group := DropSpace(line[k..]);
    PiecesNoDot(d, group);
    WordsNoDot(group);
    WordsOfNonSpace(group);
  }

  lemma WordsNoDot(s: string)
    requires '.' !in s
    ensures forall w :: w in Words(s) ==> '.' !in w
  {
    SplitPiecesWithout(s, ' ', '.');
  }

  /** No piece of a split holds a character the string does not hold. */
  lemma {:induction false} SplitPiecesWithout(s: string, sep: char, c: char)
    requires c !in s
    ensures forall p :: p in Split(s, sep) ==> c !in p
  {
    if s != [] {
      SplitPiecesWithout(s[1..], sep, c);
      assert s[0] != c by { assert s[0] in s; }
      forall i | 0 <= i < |s[1..]| ensures s[1..][i] != c {
        assert s[1..][i] == s[i + 1] && s[i + 1] in s;
      }
    }
  }

  /** A string that starts with a non-blank character has a first word. */
  lemma WordsOfNonSpace(s: string)
    requires s != [] && !IsSpace(s[0])
    ensures Words(s) != []
  {
    var parts := Split(s, ' ');
    assert parts[0] != [] by {
      var rest := Split(s[1..], ' ');
      assert parts[0] == [s[0]] + rest[0];
    }
  }

  // ---- the first line ----

  /** The preamble: kernel name, release, host name and report date. */
  datatype Preamble = Preamble(kernel: string, release: string, hostname: string, date: Date)

  predicate TwoDigitsAt(s: string, i: nat) {
    i + 2 <= |s| && IsDigit(s[i]) && IsDigit(s[i + 1])
  }

  /** `MM/DD/YY` starts `s`. */
  predicate SlashDate(s: string) {
    |s| >= 8 && TwoDigitsAt(s, 0) && s[2] == '/' && TwoDigitsAt(s, 3) && s[5] == '/' && TwoDigitsAt(s, 6)
  }

  /** The date at the start of `s`, `YYYY-MM-DD` or `MM/DD/YY` to
      `MM/DD/YYYY` (up to four year digits taken), as `[year, month, day]`
      integers with a two-digit year read in the 2000s. */
  function DateField(s: string): Option<Date> {
    if |s| >= 10 && AllDigits(s[..4]) && s[4] == '-' && TwoDigitsAt(s, 5) && s[7] == '-' && TwoDigitsAt(s, 8) then
      Some(Date(DigitsValue(s[..4]), DigitsValue(s[5..7]), DigitsValue(s[8..10])))
    else if SlashDate(s) then
      var n := if |s| > 8 && IsDigit(s[8]) then (if |s| > 9 && IsDigit(s[9]) then 4 else 3) else 2;
      var year := if n == 2 then DigitsValue("20" + s[6..8]) else DigitsValue(s[6..6 + n]);
      Some(Date(year, DigitsValue(s[..2]), DigitsValue(s[3..5])))
    else None
  }

  /** A two-digit year is a year of the 2000s. */
  lemma ShortYear(yy: string)
    requires |yy| == 2 && AllDigits(yy)
    ensures DigitsValue("20" + yy) == 2000 + DigitsValue(yy)
  {
    var s := "20" + yy;
    assert s[..3][..2] == "20" && s[..2] == "20";
    assert DigitsValue("2") == 2 by { assert "2"[..0] == []; }
    assert "20"[..1] == "2";
    assert s[..3][..2] == "20";
    assert yy[..1] == [yy[0]] && [yy[0]][..0] == [];
  }

  /** `MM/DD/YY` followed by a non-digit reads as the year `20YY`. */
  lemma SlashDateShortYear(s: string)
    requires SlashDate(s)
    requires |s| == 8 || !IsDigit(s[8])
    ensures DateField(s) == Some(Date(2000 + DigitsValue(s[6..8]), DigitsValue(s[..2]), DigitsValue(s[3..5])))
  {
    ShortYear(s[6..8]);
  }

  /** A token and the rest of the line after it: the token is the first
      maximal run of non-whitespace, and at least one whitespace character
      must follow it. */
  function TokenThenSpace(s: string): Option<(string, string)> {
    var n := TokenLength(s);
    if n >= 1 && n < |s| then Some((s[..n], DropSpace(s[n..]))) else None
  }

  /** `_parse_first_line(line)`: `kernel release (host) date ...`; the
      remainder of the line after the date is ignored. */
  function ParseFirstLine(line: string): Option<Preamble> {
    match TokenThenSpace(line)
    case None => None
    case Some(t) => AfterKernel(t.0, t.1)
  }

  /** The rest of the first line once the kernel name has been read. */
  function AfterKernel(kernel: string, r1: string): Option<Preamble> {
    match TokenThenSpace(r1)
    case None => None
    case Some(t) => AfterRelease(kernel, t.0, t.1)
  }

  /** The rest of the first line once the kernel release has been read. */
  function AfterRelease(kernel: string, release: string, r2: string): Option<Preamble> {
    match TokenThenSpace(r2)
    case None => None
    case Some(t) => AfterHost(kernel, release, t.0, t.1)
  }

  /** The host token must be parenthesised and a date must follow it. */
  function AfterHost(kernel: string, release: string, host: string, r3: string): Option<Preamble> {
    if |host| >= 3 && host[0] == '(' && host[|host| - 1] == ')' then
      match DateField(r3)
      case Some(date) => Some(Preamble(kernel, release, host[1..|host| - 1], date))
      case None => None
    else None
  }

  lemma {:induction false} TokenLengthOf(a: string, rest: string)
    requires NoSpace(a)
    requires rest == [] || IsSpace(rest[0])
    ensures TokenLength(a + rest) == |a|
    decreases |a|
  {
    if a != [] {
      TokenLengthOf(a[1..], rest);
      assert (a + rest)[1..] == a[1..] + rest;
    } else {
      assert a + rest == rest;
    }
  }

  lemma TokenThenSpaceOf(a: string, b: string)
    requires a != [] && NoSpace(a)
    requires b == [] || !IsSpace(b[0])
    ensures TokenThenSpace(a + " " + b) == Some((a, b))
  {
    var s := a + " " + b;
    TokenLengthOf(a, " " + b);
    assert s == a + (" " + b);
    assert s[..|a|] == a;
    assert s[|a|..] == " " + b;
    assert (" " + b)[1..] == b;
  }

  /** The first line sar writes: `kernel release (host) date`. */
  function PreambleText(kernel: string, release: string, host: string, date: string): string {
    kernel + " " + (release + " " + (("(" + host + ")") + " " + date))
  }

  /** A preamble written with an ISO date parses back into its four parts. */
  lemma FirstLineRoundTrip(kernel: string, release: string, host: string, date: string)
    requires kernel != [] && NoSpace(kernel) && release != [] && NoSpace(release)
    requires host != [] && NoSpace(host)
    requires |date| == 10 && AllDigits(date[..4]) && date[4] == '-' && TwoDigitsAt(date, 5)
      && date[7] == '-' && TwoDigitsAt(date, 8)
    ensures ParseFirstLine(PreambleText(kernel, release, host, date))
      == Some(Preamble(kernel, release, host,
                       Date(DigitsValue(date[..4]), DigitsValue(date[5..7]), DigitsValue(date[8..10]))))
  {
    ParenToken(host);
    assert IsDigit(date[0]);
    DateTokens(kernel, release, "(" + host + ")", date);
  }

  lemma DateTokens(kernel: string, release: string, paren: string, date: string)
    requires kernel != [] && NoSpace(kernel) && release != [] && NoSpace(release)
    requires |paren| >= 3 && NoSpace(paren) && paren[0] == '(' && paren[|paren| - 1] == ')'
    requires date != [] && !IsSpace(date[0]) && DateField(date).Some?
    ensures ParseFirstLine(kernel + " " + (release + " " + (paren + " " + date)))
      == Some(Preamble(kernel, release, paren[1..|paren| - 1], DateField(date).value))
  {
    var r2 := paren + " " + date;
    var r1 := release + " " + r2;
    TokenThenSpaceOf(kernel, r1);
    TokenThenSpaceOf(release, r2);
    TokenThenSpaceOf(paren, date);
    PreambleFromTokens(kernel + " " + r1, kernel, r1, release, r2, paren, date);
  }

  lemma ParenToken(host: string)
    requires host != [] && NoSpace(host)
    ensures NoSpace("(" + host + ")")
    ensures ("(" + host + ")")[1..|host| + 1] == host
    ensures |"(" + host + ")"| == |host| + 2
  {
    var paren := "(" + host + ")";
    forall i | 0 <= i < |paren| ensures !IsSpace(paren[i]) {
      if 0 < i < |paren| - 1 { assert paren[i] == host[i - 1]; }
    }
  }

  lemma PreambleFromTokens(line: string, kernel: string, r1: string, release: string, r2: string,
                           paren: string, r3: string)
    requires TokenThenSpace(line) == Some((kernel, r1))
    requires TokenThenSpace(r1) == Some((release, r2))
    requires TokenThenSpace(r2) == Some((paren, r3))
    requires |paren| >= 3 && paren[0] == '(' && paren[|paren| - 1] == ')'
    requires DateField(r3).Some?
    ensures ParseFirstLine(line)
      == Some(Preamble(kernel, release, paren[1..|paren| - 1], DateField(r3).value))
  {
    assert ParseFirstLine(line) == AfterKernel(kernel, r1);
    assert AfterKernel(kernel, r1) == AfterRelease(kernel, release, r2);
    assert AfterRelease(kernel, release, r2) == AfterHost(kernel, release, paren, r3);
  }
}
