/** Rust's `Ord` as used by the search engine: three-way comparison, the
    lexicographic order the derived `Ord` of `String`, `Vec<T>` and
    `Option<T>` implements, and `sort_unstable`. */
module Ordering {
  import opened Wrappers

  /** Rust's `std::cmp::Ordering`. */
  datatype Cmp = Less | Equal | Greater {
    function Flip(): Cmp
    {
      match this
      case Less => Greater
      case Equal => Equal
      case Greater => Less
    }
  }

  /** `cmp` is a total order whose equivalence is equality, as every derived
      `Ord` of a Rust struct is. */
  ghost predicate IsTotalOrder<T(!new)>(cmp: (T, T) -> Cmp)
  {
    && (forall a, b :: cmp(a, b) == Equal <==> a == b)
    && (forall a, b :: cmp(b, a) == cmp(a, b).Flip())
    && (forall a, b, c :: cmp(a, b) != Greater && cmp(b, c) != Greater ==> cmp(a, c) != Greater)
  }

  /** Lexicographic comparison of sequences, shorter prefix first: Rust's
      `Ord` for `str`, `[T]` and `Vec<T>`. */
  function CompareSeq<T>(a: seq<T>, b: seq<T>, cmp: (T, T) -> Cmp): Cmp
  {
    if |a| == 0 then (if |b| == 0 then Equal else Less)
    else if |b| == 0 then Greater
    else if cmp(a[0], b[0]) == Equal then CompareSeq(a[1..], b[1..], cmp)
    else cmp(a[0], b[0])
  }

  lemma {:induction false} CompareSeqEqual<T(!new)>(a: seq<T>, b: seq<T>, cmp: (T, T) -> Cmp)
    requires IsTotalOrder(cmp)
    ensures CompareSeq(a, b, cmp) == Equal <==> a == b
    decreases |a|
  {
    if |a| > 0 && |b| > 0 {
      CompareSeqEqual(a[1..], b[1..], cmp);
      if a[0] == b[0] && a[1..] == b[1..] {
        assert a == [a[0]] + a[1..] && b == [b[0]] + b[1..];
      }
    }
  }

  lemma {:induction false} CompareSeqFlip<T(!new)>(a: seq<T>, b: seq<T>, cmp: (T, T) -> Cmp)
    requires IsTotalOrder(cmp)
    ensures CompareSeq(b, a, cmp) == CompareSeq(a, b, cmp).Flip()
    decreases |a|
  {
    if |a| > 0 && |b| > 0 {
      CompareSeqFlip(a[1..], b[1..], cmp);
    }
  }

  lemma {:induction false} CompareSeqTransitive<T(!new)>(a: seq<T>, b: seq<T>, c: seq<T>, cmp: (T, T) -> Cmp)
    requires IsTotalOrder(cmp)
    requires CompareSeq(a, b, cmp) != Greater && CompareSeq(b, c, cmp) != Greater
    ensures CompareSeq(a, c, cmp) != Greater
    decreases |a|
  {
    if |a| > 0 && |b| > 0 && |c| > 0 {
      if cmp(a[0], b[0]) == Equal && cmp(b[0], c[0]) == Equal {
        CompareSeqTransitive(a[1..], b[1..], c[1..], cmp);
      } else if cmp(a[0], b[0]) == Equal {
        assert a[0] == b[0];
      } else if cmp(b[0], c[0]) == Equal {
        assert b[0] == c[0];
      } else {
        assert cmp(a[0], c[0]) == Less;
      }
    }
  }

  /** Lexicographic order over a total order is a total order. */
  lemma CompareSeqIsTotalOrder<T(!new)>(cmp: (T, T) -> Cmp)
    requires IsTotalOrder(cmp)
    ensures IsTotalOrder((a: seq<T>, b: seq<T>) => CompareSeq(a, b, cmp))
  {
    var lex := (a: seq<T>, b: seq<T>) => CompareSeq(a, b, cmp);
    forall a: seq<T>, b: seq<T>
      ensures lex(a, b) == Equal <==> a == b
      ensures lex(b, a) == lex(a, b).Flip()
    {
      CompareSeqEqual(a, b, cmp);
      CompareSeqFlip(a, b, cmp);
    }
    forall a: seq<T>, b: seq<T>, c: seq<T> | lex(a, b) != Greater && lex(b, c) != Greater
      ensures lex(a, c) != Greater
    {
      CompareSeqTransitive(a, b, c, cmp);
    }
  }

  /** Rust's `Ord` for `char`: by scalar value. */
  function CompareChar(a: char, b: char): Cmp
  {
    if a < b then Less else if a == b then Equal else Greater
  }

  /** Rust's `Ord` for `String`. UTF-8 byte order and code-point order
      coincide, so comparing characters compares the bytes. */
  function CompareString(a: string, b: string): Cmp
  {
    CompareSeq(a, b, CompareChar)
  }

  /** Rust's derived `Ord` for `Option<String>`: `None` first. */
  function CompareOptionString(a: Option<string>, b: Option<string>): Cmp
  {
    match (a, b)
    case (None, None) => Equal
    case (None, Some(_)) => Less
    case (Some(_), None) => Greater
    case (Some(x), Some(y)) => CompareString(x, y)
  }

  /** Rust's `Ord` for `Vec<String>`. */
  function CompareStrings(a: seq<string>, b: seq<string>): Cmp
  {
    CompareSeq(a, b, CompareString)
  }

  lemma CompareCharIsTotalOrder()
    ensures IsTotalOrder(CompareChar)
  {
  }

  lemma StringOrderIsTotal()
    ensures IsTotalOrder(CompareString)
  {
    CompareCharIsTotalOrder();
    CompareSeqIsTotalOrder(CompareChar);
    forall a, b ensures CompareString(a, b) == ((x: string, y: string) => CompareSeq(x, y, CompareChar))(a, b) {
    }
  }

  lemma OptionStringOrderIsTotal()
    ensures IsTotalOrder(CompareOptionString)
  {
    StringOrderIsTotal();
  }

  lemma StringsOrderIsTotal()
    ensures IsTotalOrder(CompareStrings)
  {
    StringOrderIsTotal();
    CompareSeqIsTotalOrder(CompareString);
    forall a, b ensures CompareStrings(a, b) == ((x: seq<string>, y: seq<string>) => CompareSeq(x, y, CompareString))(a, b) {
    }
  }

  lemma StringOrdersAreTotal()
    ensures IsTotalOrder(CompareString)
    ensures IsTotalOrder(CompareOptionString)
    ensures IsTotalOrder(CompareStrings)
  {
    StringOrderIsTotal();
    OptionStringOrderIsTotal();
    StringsOrderIsTotal();
  }

  /** Two strings each at most the other are equal. */
  lemma StringOrderIsAntisymmetric(a: string, b: string)
    requires CompareString(a, b) != Greater && CompareString(b, a) != Greater
    ensures a == b
  {
    StringOrdersAreTotal();
  }

  /** `s` is in ascending order under `cmp`. */
  ghost predicate SortedBy<T>(s: seq<T>, cmp: (T, T) -> Cmp)
  {
    forall i, j :: 0 <= i < j < |s| ==> cmp(s[i], s[j]) != Greater
  }

  function Insert<T(!new)>(x: T, s: seq<T>, cmp: (T, T) -> Cmp): (r: seq<T>)
    requires IsTotalOrder(cmp) && SortedBy(s, cmp)
    ensures SortedBy(r, cmp)
    ensures multiset(r) == multiset(s) + multiset{x}
  {
    if |s| == 0 then [x]
    else if cmp(x, s[0]) != Greater then
      assert forall j :: 0 <= j < |s| ==> cmp(x, s[j]) != Greater by {
        forall j | 0 <= j < |s| ensures cmp(x, s[j]) != Greater {
          if j > 0 {
            assert cmp(s[0], s[j]) != Greater;
          }
        }
      }
      SortedCons(x, s, cmp);
      [x] + s
    else
      var rest := Insert(x, s[1..], cmp);
      assert forall k :: 0 <= k < |s[1..]| ==> cmp(s[0], s[1..][k]) != Greater by {
        forall k | 0 <= k < |s[1..]| ensures cmp(s[0], s[1..][k]) != Greater {
          assert s[1..][k] == s[k + 1];
        }
      }
      BelowAll(s[0], rest, s[1..], x, cmp);
      SortedCons(s[0], rest, cmp);
      assert s == [s[0]] + s[1..];
      [s[0]] + rest
  }

  /** Putting a value at most every element in front keeps a sequence
      ascending. */
  lemma SortedCons<T>(y: T, s: seq<T>, cmp: (T, T) -> Cmp)
    requires SortedBy(s, cmp)
    requires forall k :: 0 <= k < |s| ==> cmp(y, s[k]) != Greater
    ensures SortedBy([y] + s, cmp)
  {
    var r := [y] + s;
    forall i, j | 0 <= i < j < |r| ensures cmp(r[i], r[j]) != Greater {
      if i > 0 {
        assert r[i] == s[i - 1] && r[j] == s[j - 1];
      } else {
        assert r[j] == s[j - 1];
      }
    }
  }

  /** A value at most `x` and at most every element of `m` is at most every
      element of a sequence holding `m` and `x`. */
  lemma BelowAll<T(!new)>(y: T, r: seq<T>, m: seq<T>, x: T, cmp: (T, T) -> Cmp)
    requires IsTotalOrder(cmp)
    requires multiset(r) == multiset(m) + multiset{x}
    requires cmp(y, x) != Greater
    requires forall k :: 0 <= k < |m| ==> cmp(y, m[k]) != Greater
    ensures forall j :: 0 <= j < |r| ==> cmp(y, r[j]) != Greater
  {
    forall j | 0 <= j < |r| ensures cmp(y, r[j]) != Greater {
      assert r[j] in multiset(r);
      if r[j] != x {
        assert r[j] in multiset(m);
        var k :| 0 <= k < |m| && m[k] == r[j];
      }
    }
  }

  /** A model of Rust's `slice::sort_unstable`: an ascending permutation. */
  function Sort<T(!new)>(s: seq<T>, cmp: (T, T) -> Cmp): (r: seq<T>)
    requires IsTotalOrder(cmp)
    ensures SortedBy(r, cmp)
    ensures multiset(r) == multiset(s)
  {
    if |s| == 0 then []
    else
      assert s == [s[0]] + s[1..];
      Insert(s[0], Sort(s[1..], cmp), cmp)
  }

  lemma MultisetOfTail<T>(a: seq<T>)
    requires |a| > 0
    ensures multiset(a[1..]) == multiset(a) - multiset{a[0]}
  {
    assert a == [a[0]] + a[1..];
  }

  /** The first element of an ascending sequence is below every element. */
  lemma HeadIsLeast<T(!new)>(a: seq<T>, x: T, cmp: (T, T) -> Cmp)
    requires IsTotalOrder(cmp) && SortedBy(a, cmp)
    requires x in multiset(a)
    ensures cmp(a[0], x) != Greater
  {
    var i :| 0 <= i < |a| && a[i] == x;
    if i > 0 {
      assert cmp(a[0], a[i]) != Greater;
    }
  }

  /** Under a total order there is only one ascending arrangement of a
      multiset, so an unstable sort is as deterministic as a stable one. */
  lemma {:induction false} SortedPermutationsAreEqual<T(!new)>(a: seq<T>, b: seq<T>, cmp: (T, T) -> Cmp)
    requires IsTotalOrder(cmp)
    requires SortedBy(a, cmp) && SortedBy(b, cmp)
    requires multiset(a) == multiset(b)
    ensures a == b
    decreases |a|
  {
    assert |a| == |multiset(a)| == |multiset(b)| == |b|;
    if |a| > 0 {
      assert a[0] == b[0] by {
        assert a[0] in multiset(a) && b[0] in multiset(b);
        HeadIsLeast(b, a[0], cmp);
        HeadIsLeast(a, b[0], cmp);
      }
      assert multiset(a[1..]) == multiset(b[1..]) by {
        MultisetOfTail(a);
        MultisetOfTail(b);
      }
      SortedPermutationsAreEqual(a[1..], b[1..], cmp);
      assert a == [a[0]] + a[1..] && b == [b[0]] + b[1..];
    }
  }

  /** Whatever order the elements arrive in, sorting yields the same list. */
  lemma SortIgnoresInputOrder<T(!new)>(a: seq<T>, b: seq<T>, cmp: (T, T) -> Cmp)
    requires IsTotalOrder(cmp)
    requires multiset(a) == multiset(b)
    ensures Sort(a, cmp) == Sort(b, cmp)
  {
    SortedPermutationsAreEqual(Sort(a, cmp), Sort(b, cmp), cmp);
  }
}
