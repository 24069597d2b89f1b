/** The natural sort key shared by the report tools: the text is cut into
    runs of digits and runs of non-digits, digit runs compare as numbers
    and the other runs compare case-insensitively. */
module NaturalSort {
  import opened Text
  import opened Sorting

  datatype KeyPart = Str(s: string) | Num(n: nat)

  function Concat(parts: seq<string>): string {
    if parts == [] then "" else parts[0] + Concat(parts[1..])
  }

  /** Pieces as `re.split` with one capturing group returns them: a run
      without digits, then alternately a non-empty digit run and another
      run without digits. */
  predicate Alternating(r: seq<string>)
    decreases |r|
  {
    |r| >= 1 && NoDigit(r[0])
    && (|r| == 1 || (|r| >= 3 && r[1] != [] && AllDigits(r[1]) && Alternating(r[2..])))
  }

  lemma {:induction false} AlternatingAt(r: seq<string>, i: nat)
    requires Alternating(r) && i < |r|
    ensures |r| % 2 == 1
    ensures i % 2 == 0 ==> NoDigit(r[i])
    ensures i % 2 == 1 ==> r[i] != [] && AllDigits(r[i])
    decreases |r|
  {
    if |r| > 1 {
      AlternatingAt(r[2..], if i >= 2 then i - 2 else 0);
    }
  }

  /** `re.split("([0-9]+)", s)`: the maximal non-digit runs at even
      positions (possibly empty), the maximal digit runs between them. */
  function SplitDigits(s: string): (r: seq<string>)
    ensures Alternating(r)
  {
    if s == [] then [""] else Prepend(s[0], SplitDigits(s[1..]))
  }

  /** The split of `[c] + t` from the split of `t`: a digit joins a digit
      run that starts `t`, a non-digit joins the leading non-digit run. */
  function Prepend(c: char, r: seq<string>): (out: seq<string>)
    requires Alternating(r)
    ensures Alternating(out)
  {
    if IsDigit(c) then
      if r[0] == "" && |r| > 1 then
        assert (["", [c] + r[1]] + r[2..])[2..] == r[2..];
        ["", [c] + r[1]] + r[2..]
      else
        assert (["", [c]] + r)[2..] == r;
        ["", [c]] + r
    else
      var out := [[c] + r[0]] + r[1..];
      assert |r| > 1 ==> out[2..] == r[2..];
      out
  }

  lemma SplitDigitsCons(c: char, t: string)
    ensures SplitDigits([c] + t) == Prepend(c, SplitDigits(t))
  {
    assert ([c] + t)[1..] == t;
  }

  /** Nothing is lost by the split: the pieces concatenate back to `s`. */
  lemma {:induction false} SplitDigitsConcat(s: string)
    ensures Concat(SplitDigits(s)) == s
  {
    if s != [] {
      var r := SplitDigits(s[1..]);
      SplitDigitsConcat(s[1..]);
      assert r == [r[0]] + r[1..];
      var out := SplitDigits(s);
      if IsDigit(s[0]) && r[0] == "" && |r| > 1 {
        assert r[1..] == [r[1]] + r[2..];
        assert out[1..] == [[s[0]] + r[1]] + r[2..];
        assert out[1..][1..] == r[2..];
        assert Concat(r) == r[1] + Concat(r[2..]);
      } else if IsDigit(s[0]) {
        assert out[1..] == [[s[0]]] + r;
        assert out[1..][1..] == r;
      } else {
        assert out[1..] == r[1..];
      }
    }
  }

  function KeyOf(text: string): KeyPart {
    if text != [] && AllDigits(text) then Num(DigitsValue(text)) else Str(Lower(text))
  }

  /** `natural_sort_key(s)`: each piece of the split as an int if it is all
      digits, otherwise lower-cased. */
  function NaturalSortKey(s: string): (key: seq<KeyPart>)
  {
    KeysOf(SplitDigits(s))
  }

  function KeysOf(parts: seq<string>): (r: seq<KeyPart>)
    ensures |r| == |parts|
    ensures forall i :: 0 <= i < |parts| ==> r[i] == KeyOf(parts[i])
  {
    if parts == [] then [] else [KeyOf(parts[0])] + KeysOf(parts[1..])
  }

  /** The key alternates strings and numbers, starting and ending with a
      (possibly empty) lower-case string, so its length is odd. */
  lemma KeyAlternates(s: string)
    ensures |NaturalSortKey(s)| % 2 == 1
    ensures forall i :: 0 <= i < |NaturalSortKey(s)| ==>
      (NaturalSortKey(s)[i].Str? <==> i % 2 == 0)
    ensures forall i :: 0 <= i < |NaturalSortKey(s)| && i % 2 == 0 ==>
      NaturalSortKey(s)[i].s == Lower(NaturalSortKey(s)[i].s)
  {
    var parts := SplitDigits(s);
    AlternatingAt(parts, 0);
    forall i | 0 <= i < |parts| ensures KeyOf(parts[i]).Str? <==> i % 2 == 0 {
      AlternatingAt(parts, i);
      if i % 2 == 0 && parts[i] != [] {
        assert !IsDigit(parts[i][0]);
      }
    }
    forall i | 0 <= i < |parts| && i % 2 == 0
      ensures KeyOf(parts[i]).s == Lower(KeyOf(parts[i]).s)
    {
      AlternatingAt(parts, i);
      if parts[i] != [] {
        assert !IsDigit(parts[i][0]);
      }
      LowerIdempotent(parts[i]);
    }
  }

  function LowerAll(parts: seq<string>): (r: seq<string>)
    ensures |r| == |parts|
    ensures forall i :: 0 <= i < |parts| ==> r[i] == Lower(parts[i])
  {
    if parts == [] then [] else [Lower(parts[0])] + LowerAll(parts[1..])
  }

  lemma {:induction false} LowerAllAlternating(r: seq<string>)
    requires Alternating(r)
    ensures Alternating(LowerAll(r))
    decreases |r|
  {
    var lr := LowerAll(r);
    assert NoDigit(lr[0]) by {
      forall k | 0 <= k < |lr[0]| ensures !IsDigit(lr[0][k]) {
        assert lr[0][k] == LowerChar(r[0][k]);
      }
    }
    if |r| > 1 {
      LowerAllAlternating(r[2..]);
      assert LowerAll(r[2..]) == lr[2..];
      assert Lower(r[1]) == r[1];
    }
  }

  lemma PrependLower(c: char, r: seq<string>)
    requires Alternating(r)
    ensures Alternating(LowerAll(r))
    ensures LowerAll(Prepend(c, r)) == Prepend(LowerChar(c), LowerAll(r))
  {
    LowerAllAlternating(r);
    var lr := LowerAll(r);
    assert IsDigit(LowerChar(c)) == IsDigit(c);
    assert lr[0] == "" <==> r[0] == "";
    if IsDigit(c) && r[0] == "" && |r| > 1 {
      assert Lower([c] + r[1]) == [c] + lr[1];
    } else if IsDigit(c) {
      assert Lower([c]) == [c];
    } else {
      assert Lower([c] + r[0]) == [LowerChar(c)] + lr[0];
    }
  }

  /** Lower-casing commutes with the split, because it maps digits to
      themselves and non-digits to non-digits. */
  lemma {:induction false} SplitDigitsLower(s: string)
    ensures SplitDigits(Lower(s)) == LowerAll(SplitDigits(s))
  {
    if s != [] {
      SplitDigitsLower(s[1..]);
      assert Lower(s) == [LowerChar(s[0])] + Lower(s[1..]);
      SplitDigitsCons(LowerChar(s[0]), Lower(s[1..]));
      PrependLower(s[0], SplitDigits(s[1..]));
    }
  }

  lemma DigitsUnchanged(t: string)
    requires AllDigits(t)
    ensures Lower(t) == t
  {
  }

  /** The key does not depend on letter case. */
  lemma CaseInsensitive(s: string)
    ensures NaturalSortKey(s) == NaturalSortKey(Lower(s))
  {
    SplitDigitsLower(s);
    var parts := SplitDigits(s);
    forall i | 0 <= i < |parts| ensures KeyOf(parts[i]) == KeyOf(Lower(parts[i])) {
      if parts[i] != [] && AllDigits(parts[i]) {
        DigitsUnchanged(parts[i]);
      } else {
        LowerIdempotent(parts[i]);
        if Lower(parts[i]) != [] {
          assert !AllDigits(Lower(parts[i])) by {
            var k :| 0 <= k < |parts[i]| && !IsDigit(parts[i][k]);
            assert Lower(parts[i])[k] == LowerChar(parts[i][k]);
          }
        }
      }
    }
  }

  /** A run without digits in front of `t` joins the first piece of the
      split of `t`. */
  lemma {:induction false} SplitNonDigitPrefix(a: string, t: string)
    requires NoDigit(a)
    ensures SplitDigits(a + t) == [a + SplitDigits(t)[0]] + SplitDigits(t)[1..]
  {
    var st := SplitDigits(t);
    if a == [] {
      assert a + t == t;
      assert a + st[0] == st[0];
      assert st == [st[0]] + st[1..];
    } else {
      SplitNonDigitPrefix(a[1..], t);
      assert a + t == [a[0]] + (a[1..] + t);
      SplitDigitsCons(a[0], a[1..] + t);
      assert !IsDigit(a[0]);
      var r := SplitDigits(a[1..] + t);
      assert r[0] == a[1..] + st[0] && r[1..] == st[1..];
      assert [a[0]] + (a[1..] + st[0]) == a + st[0];
    }
  }

  /** A digit run in front of a text that does not start with a digit
      becomes a piece of its own. */
  lemma {:induction false} SplitDigitPrefix(d: string, t: string)
    requires d != [] && AllDigits(d)
    requires t == [] || !IsDigit(t[0])
    ensures SplitDigits(d + t) == ["", d] + SplitDigits(t)
  {
    assert d + t == [d[0]] + (d[1..] + t);
    SplitDigitsCons(d[0], d[1..] + t);
    assert IsDigit(d[0]);
    if |d| == 1 {
      assert d[1..] + t == t;
      assert d == [d[0]];
      if t != [] {
        assert t == [t[0]] + t[1..];
        SplitDigitsCons(t[0], t[1..]);
        assert SplitDigits(t)[0] != "";
      }
    } else {
      SplitDigitPrefix(d[1..], t);
      assert [d[0]] + d[1..] == d;
      assert (["", d[1..]] + SplitDigits(t))[2..] == SplitDigits(t);
    }
  }

  /** The example in the docstring: "michele0123" gives ['michele', 123, '']. */
  lemma MicheleExample()
    ensures NaturalSortKey("michele0123") == [Str("michele"), Num(123), Str("")]
  {
    MicheleSplit();
    MicheleKeys();
  }

  lemma MicheleKeys()
    ensures KeysOf(["michele", "0123", ""]) == [Str("michele"), Num(123), Str("")]
  {
    assert DigitsValue("0123") == 123 by {
      FourDigits('0', '1', '2', '3');
    }
    assert Lower("michele") == "michele" by { LowerOfLower("michele"); }
    assert !IsDigit("michele"[0]);
    assert KeyOf("michele") == Str("michele");
    assert KeyOf("0123") == Num(123);
    assert KeyOf("") == Str("");
    assert KeysOf(["michele", "0123", ""]) == [KeyOf("michele"), KeyOf("0123"), KeyOf("")];
  }

  /** The value of three digits, place by place. */
  lemma ThreeDigits(a: char, b: char, c: char)
    requires IsDigit(a) && IsDigit(b) && IsDigit(c)
    ensures DigitsValue([a, b, c]) == 100 * DigitValue(a) + 10 * DigitValue(b) + DigitValue(c)
  {
    assert [a][..0] == [];
    assert DigitsValue([a]) == DigitValue(a);
    assert [a, b][..1] == [a];
    assert DigitsValue([a, b]) == 10 * DigitValue(a) + DigitValue(b);
    assert [a, b, c][..2] == [a, b];
  }

  /** The value of four digits, place by place. */
  lemma FourDigits(a: char, b: char, c: char, d: char)
    requires IsDigit(a) && IsDigit(b) && IsDigit(c) && IsDigit(d)
    ensures DigitsValue([a, b, c, d]) == 1000 * DigitValue(a) + 100 * DigitValue(b) + 10 * DigitValue(c) + DigitValue(d)
  {
    assert [a, b, c, d][..3] == [a, b, c];
    ThreeDigits(a, b, c);
  }

  /** A text without upper-case letters is its own lower-case form. */
  lemma LowerOfLower(s: string)
    requires forall i :: 0 <= i < |s| ==> !('A' <= s[i] <= 'Z')
    ensures Lower(s) == s
  {
  }

  lemma MicheleSplit()
    ensures SplitDigits("michele0123") == ["michele", "0123", ""]
  {
    assert "michele0123" == "michele" + "0123";
    assert NoDigit("michele");
    WordThenDigits("michele", "0123");
  }

  /** A word without digits followed by a run of digits splits into the
      word, the digits and a trailing empty piece. */
  lemma WordThenDigits(w: string, d: string)
    requires NoDigit(w) && d != [] && AllDigits(d)
    ensures SplitDigits(w + d) == [w, d, ""]
  {
    assert d + "" == d;
    SplitDigitPrefix(d, "");
    assert SplitDigits("") == [""];
    SplitNonDigitPrefix(w, d);
    assert w + "" == w;
  }

  /** Digit runs lose their leading zeros: "a007" gives ['a', 7, '']. */
  lemma LeadingZerosDropped()
    ensures NaturalSortKey("a007") == [Str("a"), Num(7), Str("")]
  {
    assert "a007" == "a" + "007";
    assert NoDigit("a");
    WordThenDigits("a", "007");
    assert DigitsValue("007") == 7 by {
      ThreeDigits('0', '0', '7');
    }
  }

  /** How Python compares two key parts. A number and a string never meet
      at the same position of two keys (see KeyAlternates); numbers are put
      first only to make the order total. */
  function PartLt(a: KeyPart, b: KeyPart): bool {
    match (a, b)
    case (Num(x), Num(y)) => x < y
    case (Str(x), Str(y)) => StrLt(x, y)
    case (Num(_), Str(_)) => true
    case (Str(_), Num(_)) => false
  }

  lemma PartLtStrict()
    ensures StrictTotalOrder(PartLt)
  {
    StrLtStrict();
  }

  /** `natural_sort_key(a) <= natural_sort_key(b)`. */
  predicate NaturalLe(a: string, b: string) {
    LexLe(NaturalSortKey(a), NaturalSortKey(b), PartLt)
  }

  lemma NaturalLePreorder()
    ensures TotalPreorder(NaturalLe)
  {
    PartLtStrict();
    forall a, b ensures NaturalLe(a, b) || NaturalLe(b, a) {
      LexTotal(NaturalSortKey(a), NaturalSortKey(b), PartLt);
    }
    forall a, b, c | NaturalLe(a, b) && NaturalLe(b, c) ensures NaturalLe(a, c) {
      LexTrans(NaturalSortKey(a), NaturalSortKey(b), NaturalSortKey(c), PartLt);
    }
  }

  /** `sorted(names, key=natural_sort_key)`. */
  function NaturalSorted(names: seq<string>): (r: seq<string>)
    ensures multiset(r) == multiset(names)
    ensures SortedBy(r, NaturalLe)
  {
    NaturalLePreorder();
    SortBySorted(names, NaturalLe);
    SortBy(names, NaturalLe)
  }
}
