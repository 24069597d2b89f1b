/** Python's `sorted(xs, key=...)`: a stable sort under a total preorder,
    and the lexicographic comparison Python applies to strings and lists. */
module Sorting {

  ghost predicate TotalPreorder<T(!new)>(le: (T, T) -> bool) {
    (forall a, b :: le(a, b) || le(b, a))
    && (forall a, b, c :: le(a, b) && le(b, c) ==> le(a, c))
  }

  ghost predicate StrictTotalOrder<T(!new)>(lt: (T, T) -> bool) {
    (forall a :: !lt(a, a))
    && (forall a, b :: a != b ==> lt(a, b) || lt(b, a))
    && (forall a, b, c :: lt(a, b) && lt(b, c) ==> lt(a, c))
  }

  predicate SortedBy<T>(s: seq<T>, le: (T, T) -> bool) {
    forall i, j :: 0 <= i < j < |s| ==> le(s[i], s[j])
  }

  /** `x` goes in front of the first element it is not greater than;
      equal elements keep their relative order. */
  function Insert<T>(x: T, s: seq<T>, le: (T, T) -> bool): (r: seq<T>)
    ensures multiset(r) == multiset(s) + multiset{x}
    ensures |r| == |s| + 1
  {
    if s == [] then [x]
    else if le(x, s[0]) then [x] + s
    else
      assert s == [s[0]] + s[1..];
      [s[0]] + Insert(x, s[1..], le)
  }

  /** `sorted(s)` with the comparison `le`. */
  function SortBy<T>(s: seq<T>, le: (T, T) -> bool): (r: seq<T>)
    ensures multiset(r) == multiset(s)
    ensures |r| == |s|
  {
    if s == [] then []
    else
      assert s == [s[0]] + s[1..];
      Insert(s[0], SortBy(s[1..], le), le)
  }

  lemma {:induction false} InsertSorted<T(!new)>(x: T, s: seq<T>, le: (T, T) -> bool)
    requires TotalPreorder(le)
    requires SortedBy(s, le)
    ensures SortedBy(Insert(x, s, le), le)
  {
    if s != [] && !le(x, s[0]) {
      var t := s[1..];
      InsertSorted(x, t, le);
      var r := Insert(x, t, le);
      assert multiset(r) == multiset(t) + multiset{x};
      forall k | 0 <= k < |r| ensures le(s[0], r[k]) {
        assert r[k] in multiset(r);
        if r[k] != x {
          assert r[k] in multiset(t);
          var m :| 0 <= m < |t| && t[m] == r[k];
          assert s[m + 1] == t[m];
        }
      }
    }
  }

  /** The result of `SortBy` is ordered and is a permutation of its input. */
  lemma {:induction false} SortBySorted<T(!new)>(s: seq<T>, le: (T, T) -> bool)
    requires TotalPreorder(le)
    ensures SortedBy(SortBy(s, le), le)
    ensures multiset(SortBy(s, le)) == multiset(s)
  {
    if s != [] {
      SortBySorted(s[1..], le);
      InsertSorted(s[0], SortBy(s[1..], le), le);
    }
  }

  /** Python's comparison of two strings or two lists: the first position
      where they differ decides, and a proper prefix comes first. */
  function LexLe<T(==)>(a: seq<T>, b: seq<T>, lt: (T, T) -> bool): bool {
    if a == [] then true
    else if b == [] then false
    else if a[0] == b[0] then LexLe(a[1..], b[1..], lt)
    else lt(a[0], b[0])
  }

  lemma {:induction false} LexTotal<T(!new)>(a: seq<T>, b: seq<T>, lt: (T, T) -> bool)
    requires StrictTotalOrder(lt)
    ensures LexLe(a, b, lt) || LexLe(b, a, lt)
  {
    if a != [] && b != [] && a[0] == b[0] {
      LexTotal(a[1..], b[1..], lt);
    }
  }

  lemma {:induction false} LexTrans<T(!new)>(a: seq<T>, b: seq<T>, c: seq<T>, lt: (T, T) -> bool)
    requires StrictTotalOrder(lt)
    requires LexLe(a, b, lt) && LexLe(b, c, lt)
    ensures LexLe(a, c, lt)
  {
    if a != [] && b != [] && c != [] && a[0] == b[0] && b[0] == c[0] {
      LexTrans(a[1..], b[1..], c[1..], lt);
    }
  }

  lemma {:induction false} LexAntisym<T(!new)>(a: seq<T>, b: seq<T>, lt: (T, T) -> bool)
    requires StrictTotalOrder(lt)
    requires LexLe(a, b, lt) && LexLe(b, a, lt)
    ensures a == b
  {
    if a != [] && b != [] {
      LexAntisym(a[1..], b[1..], lt);
      assert a == [a[0]] + a[1..] && b == [b[0]] + b[1..];
    }
  }

  /** Lexicographic order over a strict total order is a total preorder, so
      `SortBy` orders sequences compared this way. */
  lemma LexTotalPreorder<T(!new)>(lt: (T, T) -> bool)
    requires StrictTotalOrder(lt)
    ensures TotalPreorder((a: seq<T>, b: seq<T>) => LexLe(a, b, lt))
  {
    forall a: seq<T>, b: seq<T> ensures LexLe(a, b, lt) || LexLe(b, a, lt) {
      LexTotal(a, b, lt);
    }
    forall a: seq<T>, b: seq<T>, c: seq<T> | LexLe(a, b, lt) && LexLe(b, c, lt)
      ensures LexLe(a, c, lt)
    {
      LexTrans(a, b, c, lt);
    }
  }

  /** Python's `<` on strings: code point by code point. */
  function CharLt(x: char, y: char): bool { x < y }

  predicate StrLe(a: string, b: string) {
    LexLe(a, b, CharLt)
  }

  predicate StrLt(a: string, b: string) {
    StrLe(a, b) && a != b
  }

  lemma StrLtStrict()
    ensures StrictTotalOrder(StrLt)
  {
    assert StrictTotalOrder(CharLt);
    forall a, b | a != b ensures StrLt(a, b) || StrLt(b, a) {
      LexTotal(a, b, CharLt);
    }
    forall a, b, c | StrLt(a, b) && StrLt(b, c) ensures StrLt(a, c) {
      LexTrans(a, b, c, CharLt);
      if a == c {
        LexAntisym(a, b, CharLt);
      }
    }
  }

  lemma StrLePreorder()
    ensures TotalPreorder(StrLe)
  {
    assert StrictTotalOrder(CharLt);
    forall a, b ensures StrLe(a, b) || StrLe(b, a) {
      LexTotal(a, b, CharLt);
    }
    forall a, b, c | StrLe(a, b) && StrLe(b, c) ensures StrLe(a, c) {
      LexTrans(a, b, c, CharLt);
    }
  }
}
