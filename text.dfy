/** Character classes and the few `str` methods the sar tools use:
    `split(sep)`, `split()`, `strip(chars)`, `strip()`, `startswith`,
    `endswith`, `in`, `index`, `lower` and `int` of a digit string.
    Only the ASCII repertoire is modelled. */
module Text {
  import opened Wrappers

  /** Python's `\s` and `str.isspace` on the ASCII range. */
  predicate IsSpace(c: char) {
    c == ' ' || c == '\t' || c == '\n' || c == '\r' || c == '\U{0b}' || c == '\U{0c}'
    || ('\U{1c}' <= c <= '\U{1f}')
  }

  /** Python's `\d` and `str.isdigit` on the ASCII range. */
  predicate IsDigit(c: char) {
    '0' <= c <= '9'
  }

  predicate AllDigits(s: string) {
    forall i :: 0 <= i < |s| ==> IsDigit(s[i])
  }

  predicate NoDigit(s: string) {
    forall i :: 0 <= i < |s| ==> !IsDigit(s[i])
  }

  predicate NoSpace(s: string) {
    forall i :: 0 <= i < |s| ==> !IsSpace(s[i])
  }

  function DigitValue(c: char): (r: nat)
    requires IsDigit(c)
    ensures r < 10
  {
    (c as int) - ('0' as int)
  }

  /** `int(s)` for a string of ASCII digits (leading zeros are dropped). */
  function DigitsValue(s: string): (r: nat)
    requires AllDigits(s)
  {
    if s == [] then 0 else 10 * DigitsValue(s[..|s| - 1]) + DigitValue(s[|s| - 1])
  }

  lemma {:induction false} DigitsValueBound(s: string)
    requires AllDigits(s)
    ensures DigitsValue(s) < Pow10(|s|)
  {
    if s != [] {
      DigitsValueBound(s[..|s| - 1]);
    }
  }

  function Pow10(n: nat): (r: nat)
    ensures r >= 1
  {
    if n == 0 then 1 else 10 * Pow10(n - 1)
  }

  /** `str(n)` for a natural number. */
  function NatToString(n: nat): (r: string)
    ensures |r| >= 1 && AllDigits(r)
    ensures DigitsValue(r) == n
    decreases n
  {
    var last := ['0' + (n % 10) as char];
    if n < 10 then last
    else
      var front := NatToString(n / 10);
      assert (front + last)[..|front + last| - 1] == front;
      front + last
  }

  function LowerChar(c: char): char {
    if 'A' <= c <= 'Z' then (c as int + 32) as char else c
  }

  /** `str.lower` on ASCII letters. */
  function Lower(s: string): (r: string)
    ensures |r| == |s|
    ensures forall i :: 0 <= i < |s| ==> r[i] == LowerChar(s[i])
  {
    if s == [] then [] else [LowerChar(s[0])] + Lower(s[1..])
  }

  lemma LowerIdempotent(s: string)
    ensures Lower(Lower(s)) == Lower(s)
  {
  }

  predicate StartsWith(s: string, prefix: string) {
    |prefix| <= |s| && s[..|prefix|] == prefix
  }

  predicate EndsWith(s: string, suffix: string) {
    |suffix| <= |s| && s[|s| - |suffix|..] == suffix
  }

  /** `sub` occurs in `s` at position `i`. */
  predicate OccursAt(s: string, sub: string, i: nat) {
    i + |sub| <= |s| && s[i..i + |sub|] == sub
  }

  /** `sub in s`. */
  predicate Contains(s: string, sub: string) {
    exists i: nat :: i <= |s| && OccursAt(s, sub, i)
  }

  /** `s.find(sub)`: the first position at which `sub` occurs, if any. */
  function Find(s: string, sub: string): (r: Option<nat>)
    ensures r.Some? ==> OccursAt(s, sub, r.value)
    ensures r.Some? ==> forall j: nat :: j < r.value ==> !OccursAt(s, sub, j)
    ensures r.None? <==> !Contains(s, sub)
  {
    FindFrom(s, sub, 0)
  }

  function FindFrom(s: string, sub: string, from: nat): (r: Option<nat>)
    requires forall j: nat :: j < from ==> !OccursAt(s, sub, j)
    ensures r.Some? ==> from <= r.value && OccursAt(s, sub, r.value)
    ensures r.Some? ==> forall j: nat :: j < r.value ==> !OccursAt(s, sub, j)
    ensures r.None? <==> !Contains(s, sub)
    decreases |s| + 1 - from
  {
    if from + |sub| > |s| then
      assert forall j: nat :: OccursAt(s, sub, j) ==> j < from;
      None
    else if OccursAt(s, sub, from) then Some(from)
    else FindFrom(s, sub, from + 1)
  }

  /** `s.split(sep)` for a one-character separator: the pieces between
      consecutive separators, so there is always at least one piece. */
  function Split(s: string, sep: char): (r: seq<string>)
    ensures |r| >= 1
    ensures forall p :: p in r ==> sep !in p
  {
    if s == [] then [""]
    else
      var rest := Split(s[1..], sep);
      if s[0] == sep then [""] + rest
      else [[s[0]] + rest[0]] + rest[1..]
  }

  /** `sep.join(parts)` for a one-character separator. */
  function Join(parts: seq<string>, sep: char): string
    requires |parts| >= 1
  {
    if |parts| == 1 then parts[0] else parts[0] + [sep] + Join(parts[1..], sep)
  }

  /** Splitting and joining on the same separator are inverse to each other. */
  lemma {:induction false} JoinSplit(s: string, sep: char)
    ensures Join(Split(s, sep), sep) == s
  {
    if s != [] {
      var rest := Split(s[1..], sep);
      JoinSplit(s[1..], sep);
      if s[0] != sep {
        if |rest| == 1 {
          assert Split(s, sep) == [[s[0]] + rest[0]];
        } else {
          assert Split(s, sep)[1..] == rest[1..];
        }
      }
    }
  }

  lemma {:induction false} SplitJoin(parts: seq<string>, sep: char)
    requires |parts| >= 1
    requires forall p :: p in parts ==> sep !in p
    ensures Split(Join(parts, sep), sep) == parts
  {
    if |parts| == 1 {
      SplitNoSep(parts[0], sep);
    } else {
      SplitJoin(parts[1..], sep);
      SplitPrefix(parts[0], Join(parts[1..], sep), sep);
      assert parts == [parts[0]] + parts[1..];
    }
  }

  /** A string without the separator splits into itself alone. */
  lemma {:induction false} SplitNoSep(s: string, sep: char)
    requires sep !in s
    ensures Split(s, sep) == [s]
  {
    if s != [] {
      SplitNoSep(s[1..], sep);
      assert [s[0]] + s[1..] == s;
    }
  }

  lemma {:induction false} SplitPrefix(a: string, b: string, sep: char)
    requires sep !in a
    ensures Split(a + [sep] + b, sep) == [a] + Split(b, sep)
  {
    if a == [] {
      assert a + [sep] + b == [sep] + b;
      assert ([sep] + b)[1..] == b;
    } else {
      SplitPrefix(a[1..], b, sep);
      assert (a + [sep] + b)[1..] == a[1..] + [sep] + b;
      assert (a + [sep] + b)[0] == a[0];
      assert [a[0]] + a[1..] == a;
    }
  }

  /** The whitespace-free tokens of `s`, as `s.split()` returns them. */
  function Fields(s: string): (r: seq<string>)
    ensures forall f :: f in r ==> f != [] && NoSpace(f)
    decreases |s|
  {
    var t := DropSpace(s);
    if t == [] then []
    else
      var n := TokenLength(t);
      [t[..n]] + Fields(t[n..])
  }

  /** Every field is a piece of the original string, so `s.index(f)` finds it. */
  lemma {:induction false} FieldsOccur(s: string)
    ensures forall f :: f in Fields(s) ==> Contains(s, f)
    decreases |s|
  {
    var t := DropSpace(s);
    if t != [] {
      var n := TokenLength(t);
      assert OccursAt(t, t[..n], 0);
      SuffixContains(s, t, t[..n]);
      FieldsOccur(t[n..]);
      forall f | f in Fields(t[n..]) ensures Contains(s, f) {
        SuffixContains(t, t[n..], f);
        SuffixContains(s, t, f);
      }
    }
  }

  lemma SuffixContains(s: string, t: string, f: string)
    requires |t| <= |s| && t == s[|s| - |t|..]
    requires Contains(t, f)
    ensures Contains(s, f)
  {
    var i: nat :| i <= |t| && OccursAt(t, f, i);
    var k := |s| - |t| + i;
    assert k + |f| <= |s|;
    assert s[k..k + |f|] == t[i..i + |f|];
    assert OccursAt(s, f, k);
  }

  /** The string without its leading whitespace (a suffix of `s`). */
  function DropSpace(s: string): (r: string)
    ensures |r| <= |s| && r == s[|s| - |r|..]
    ensures r != [] ==> !IsSpace(r[0])
    ensures forall i :: 0 <= i < |s| - |r| ==> IsSpace(s[i])
  {
    if s != [] && IsSpace(s[0]) then DropSpace(s[1..]) else s
  }

  /** Length of the run of non-whitespace characters at the start of `s`. */
  function TokenLength(s: string): (n: nat)
    ensures n <= |s|
    ensures NoSpace(s[..n])
    ensures n < |s| ==> IsSpace(s[n])
    ensures s != [] && !IsSpace(s[0]) ==> n >= 1
  {
    if s == [] || IsSpace(s[0]) then 0
    else
      var n := 1 + TokenLength(s[1..]);
      assert s[..n] == [s[0]] + s[1..][..n - 1];
      n
  }

  /** `s.strip()`: whitespace removed from both ends. */
  function Strip(s: string): (r: string)
    ensures r == [] || (!IsSpace(r[0]) && !IsSpace(r[|r| - 1]))
    ensures |r| <= |s|
  {
    DropSpaceEnd(DropSpace(s))
  }

  function DropSpaceEnd(s: string): (r: string)
    ensures |r| <= |s| && r == s[..|r|]
    ensures r != [] ==> !IsSpace(r[|r| - 1])
    ensures s != [] && !IsSpace(s[0]) ==> r != [] && r[0] == s[0]
  {
    if s != [] && IsSpace(s[|s| - 1]) then DropSpaceEnd(s[..|s| - 1]) else s
  }

  /** `s.strip(c)`: the character `c` removed from both ends. */
  function StripChar(s: string, c: char): (r: string)
    ensures |r| <= |s|
    ensures r == [] || (r[0] != c && r[|r| - 1] != c)
  {
    if s != [] && s[0] == c then StripChar(s[1..], c)
    else if s != [] && s[|s| - 1] == c then StripChar(s[..|s| - 1], c)
    else s
  }

  /** `sep.join(parts)` for a string separator, as used for titles. */
  function JoinWith(parts: seq<string>, sep: string): string {
    if parts == [] then ""
    else if |parts| == 1 then parts[0]
    else parts[0] + sep + JoinWith(parts[1..], sep)
  }
}
