/** Rust `str` as the search engine sees it.

    A Rust `String` is a valid UTF-8 byte sequence; here it is the sequence of
    Unicode scalar values it encodes (Dafny's `string`), and the byte offsets
    Rust uses for indexing are recomputed from each character's UTF-8 width.
    Because UTF-8 is self-synchronising, byte-level substring search finds
    exactly the character-level occurrences, at their byte offsets, and
    byte-wise lexicographic order agrees with code-point order. */
module Text {
  import opened Wrappers

  /** Number of bytes in the UTF-8 encoding of `c` (Rust's `char::len_utf8`). */
  function Utf8Width(c: char): (w: nat)
    ensures 1 <= w <= 4
    ensures w == 1 <==> c as int < 0x80
  {
    if c as int < 0x80 then 1
    else if c as int < 0x800 then 2
    else if c as int < 0x1_0000 then 3
    else 4
  }

  /** Length in bytes of the UTF-8 encoding of `s` (Rust's `str::len`). */
  function ByteLen(s: string): nat
  {
    if |s| == 0 then 0 else ByteLen(s[..|s| - 1]) + Utf8Width(s[|s| - 1])
  }

  lemma {:induction false} ByteLenConcat(a: string, b: string)
    ensures ByteLen(a + b) == ByteLen(a) + ByteLen(b)
    decreases |b|
  {
    if |b| == 0 {
      assert a + b == a;
    } else {
      var b' := b[..|b| - 1];
      assert (a + b)[..|a + b| - 1] == a + b';
      ByteLenConcat(a, b');
    }
  }

  lemma {:induction false} ByteLenAtLeastLength(s: string)
    ensures |s| <= ByteLen(s)
    ensures ByteLen(s) == |s| <==> forall k :: 0 <= k < |s| ==> s[k] as int < 0x80
    decreases |s|
  {
    if |s| > 0 {
      var s' := s[..|s| - 1];
      ByteLenAtLeastLength(s');
      assert forall k :: 0 <= k < |s'| ==> s'[k] == s[k];
    }
  }

  /** Byte offset at which the character `s[j]` starts (or `ByteLen(s)` when
      `j == |s|`): the indices Rust's `char_indices` yields. */
  function Offset(s: string, j: nat): nat
    requires j <= |s|
  {
    ByteLen(s[..j])
  }

  lemma OffsetStep(s: string, j: nat)
    requires j < |s|
    ensures Offset(s, j + 1) == Offset(s, j) + Utf8Width(s[j])
  {
    assert s[..j + 1][..j] == s[..j];
  }

  lemma OffsetEnds(s: string)
    ensures Offset(s, 0) == 0
    ensures Offset(s, |s|) == ByteLen(s)
  {
    assert s[..|s|] == s;
  }

  /** Offsets of a prefix agree with the offsets of the whole string. */
  lemma OffsetOfPrefix(s: string, n: nat, j: nat)
    requires j <= n <= |s|
    ensures Offset(s[..n], j) == Offset(s, j)
  {
    assert s[..n][..j] == s[..j];
  }

  /** Character starts are strictly increasing: each character takes at least
      one byte. */
  lemma {:induction false} OffsetIncreasing(s: string, j: nat, k: nat)
    requires j <= k <= |s|
    ensures Offset(s, j) + (k - j) <= Offset(s, k)
    decreases k - j
  {
    if j < k {
      OffsetIncreasing(s, j, k - 1);
      OffsetStep(s, k - 1);
    }
  }

  lemma OffsetBelowByteLen(s: string, j: nat)
    requires j < |s|
    ensures Offset(s, j) < ByteLen(s)
  {
    OffsetIncreasing(s, j, |s|);
    OffsetEnds(s);
  }

  /** The character index whose start is byte offset `p`, if any. */
  function CharIndexOf(s: string, p: nat): (r: Option<nat>)
    ensures r.Some? ==> r.value <= |s| && Offset(s, r.value) == p
    ensures r.None? ==> forall j :: 0 <= j <= |s| ==> Offset(s, j) != p
    decreases |s|
  {
    OffsetEnds(s);
    if p == ByteLen(s) then Some(|s|)
    else if |s| == 0 then None
    else
      var s' := s[..|s| - 1];
      var r := CharIndexOf(s', p);
      assert forall j :: 0 <= j <= |s'| ==> Offset(s', j) == Offset(s, j) by {
        forall j | 0 <= j <= |s'| {
          OffsetOfPrefix(s, |s'|, j);
        }
      }
      r
  }

  /** Rust's `str::is_char_boundary`: `p` is the start of a character or the
      end of the string. */
  predicate IsCharBoundary(s: string, p: nat)
  {
    CharIndexOf(s, p).Some?
  }

  /** Rust's byte-range slice `&s[from..to]`; `None` where Rust panics. */
  function ByteSlice(s: string, from: nat, to: nat): (r: Option<string>)
    ensures r.Some? <==> IsCharBoundary(s, from) && IsCharBoundary(s, to) && from <= to
    ensures r.Some? ==> ByteLen(r.value) == to - from
    ensures r.Some? ==> to <= ByteLen(s)
    ensures r.Some? ==> exists i, j :: 0 <= i <= j <= |s| && Offset(s, i) == from && Offset(s, j) == to && r.value == s[i..j]
  {
    var a := CharIndexOf(s, from);
    var b := CharIndexOf(s, to);
    if a.Some? && b.Some? && from <= to then
      var i, j := a.value, b.value;
      assert i <= j by {
        if j < i {
          OffsetIncreasing(s, j, i);
        }
      }
      assert s[..j] == s[..i] + s[i..j];
      ByteLenConcat(s[..i], s[i..j]);
      OffsetIncreasing(s, j, |s|);
      OffsetEnds(s);
      Some(s[i..j])
    else
      None
  }

  /** Slicing a string from its first to its last byte gives it back. */
  lemma WholeByteSlice(s: string)
    ensures ByteSlice(s, 0, ByteLen(s)) == Some(s)
  {
    OffsetEnds(s);
    assert CharIndexOf(s, 0) == Some(0) by {
      if |s| > 0 {
        OffsetIncreasing(s, 0, |s|);
      }
    }
    assert CharIndexOf(s, ByteLen(s)) == Some(|s|);
    assert s[0..|s|] == s;
  }

  /** `needle` occurs in `hay` starting at character index `i`. */
  predicate OccursAt(hay: string, needle: string, i: nat)
  {
    i + |needle| <= |hay| && hay[i..i + |needle|] == needle
  }

  /** Rust's `str::contains` with a string pattern. */
  predicate Contains(hay: string, needle: string)
  {
    exists i: nat | i <= |hay| :: OccursAt(hay, needle, i)
  }

  /** First occurrence of `needle` in `hay` at or after character index `from`. */
  function FindFrom(hay: string, needle: string, from: nat): (r: Option<nat>)
    ensures r.Some? ==> from <= r.value && OccursAt(hay, needle, r.value)
    ensures r.Some? ==> forall k :: from <= k < r.value ==> !OccursAt(hay, needle, k)
    ensures r.None? ==> forall k :: from <= k ==> !OccursAt(hay, needle, k)
    decreases |hay| - from
  {
    if from + |needle| > |hay| then None
    else if hay[from..from + |needle|] == needle then Some(from)
    else FindFrom(hay, needle, from + 1)
  }

  /** Rust's `str::find` with a string pattern, as a character index; the
      byte index Rust returns is `Offset(hay, i)`. */
  function Find(hay: string, needle: string): (r: Option<nat>)
    ensures r.Some? <==> Contains(hay, needle)
    ensures r.Some? ==> OccursAt(hay, needle, r.value)
    ensures r.Some? ==> forall k :: 0 <= k < r.value ==> !OccursAt(hay, needle, k)
  {
    FindFrom(hay, needle, 0)
  }

  /** Rust's `str::ends_with` with a string pattern. */
  predicate EndsWith(s: string, suffix: string)
  {
    |suffix| <= |s| && s[|s| - |suffix|..] == suffix
  }

  function AsciiLowerChar(c: char): (d: char)
    ensures 'A' <= c <= 'Z' ==> d as int == c as int + 32
    ensures !('A' <= c <= 'Z') ==> d == c
  {
    if 'A' <= c <= 'Z' then (c as int + 32) as char else c
  }

  /** Rust's `str::make_ascii_lowercase`: only `A`..`Z` change. */
  function AsciiLowercase(s: string): (r: string)
    ensures |r| == |s|
    ensures forall k :: 0 <= k < |s| ==> r[k] == AsciiLowerChar(s[k])
  {
    seq(|s|, k requires 0 <= k < |s| => AsciiLowerChar(s[k]))
  }

  /** Rust's `char::is_whitespace`: the Unicode White_Space property. */
  predicate IsWhitespace(c: char)
  {
    var n := c as int;
    || 0x09 <= n <= 0x0D
    || n == 0x20
    || n == 0x85
    || n == 0xA0
    || n == 0x1680
    || 0x2000 <= n <= 0x200A
    || n == 0x2028
    || n == 0x2029
    || n == 0x202F
    || n == 0x205F
    || n == 0x3000
  }

  /** Index of the first non-whitespace character at or after `i`. */
  function SkipLeadingWhitespace(s: string, i: nat): (k: nat)
    requires i <= |s|
    ensures i <= k <= |s|
    ensures forall m :: i <= m < k ==> IsWhitespace(s[m])
    ensures k < |s| ==> !IsWhitespace(s[k])
    decreases |s| - i
  {
    if i < |s| && IsWhitespace(s[i]) then SkipLeadingWhitespace(s, i + 1) else i
  }

  /** End of `s[lo..j]` once its trailing whitespace is removed. */
  function SkipTrailingWhitespace(s: string, lo: nat, j: nat): (k: nat)
    requires lo <= j <= |s|
    ensures lo <= k <= j
    ensures forall m :: k <= m < j ==> IsWhitespace(s[m])
    ensures k > lo ==> !IsWhitespace(s[k - 1])
    decreases j
  {
    if j > lo && IsWhitespace(s[j - 1]) then SkipTrailingWhitespace(s, lo, j - 1) else j
  }

  /** `s` has no leading or trailing whitespace. */
  predicate IsTrimmed(s: string)
  {
    |s| == 0 || (!IsWhitespace(s[0]) && !IsWhitespace(s[|s| - 1]))
  }

  /** Rust's `str::trim`: the result is the slice `s[i..i + |r|]` left after
      removing whitespace, and only whitespace, from both ends. */
  function Trim(s: string): (r: string)
    ensures IsTrimmed(r)
    ensures exists i :: TrimmedFrom(s, r, i)
  {
    var a := SkipLeadingWhitespace(s, 0);
    var b := SkipTrailingWhitespace(s, a, |s|);
    assert TrimmedFrom(s, s[a..b], a);
    s[a..b]
  }

  /** `r` is `s[i..i + |r|]` and everything of `s` around it is whitespace. */
  predicate TrimmedFrom(s: string, r: string, i: nat)
  {
    i + |r| <= |s| && s[i..i + |r|] == r && WhitespaceOutside(s, i, i + |r|)
  }

  /** Every character of `s` outside `s[i..j]` is whitespace. */
  predicate WhitespaceOutside(s: string, i: nat, j: nat)
    requires i <= j <= |s|
  {
    (forall k :: 0 <= k < i ==> IsWhitespace(s[k])) && (forall k :: j <= k < |s| ==> IsWhitespace(s[k]))
  }

  /** Trimming a string that already has no surrounding whitespace changes
      nothing. */
  lemma TrimOfTrimmed(s: string)
    requires IsTrimmed(s)
    ensures Trim(s) == s
  {
  }

  /** Rust's `[String]::join(sep)`: each part at its place, with `sep`
      between each two. */
  function Join(parts: seq<string>, sep: string): (r: string)
    ensures |parts| == 0 ==> r == ""
    ensures |parts| > 0 ==> |r| == SumOfLengths(parts) + (|parts| - 1) * |sep|
    ensures |parts| > 0 ==> r[..|parts[0]|] == parts[0]
    ensures LaidOut(r, parts, sep)
  {
    if |parts| == 0 then ""
    else if |parts| == 1 then
      assert parts[0][0..|parts[0]|] == parts[0];
      parts[0]
    else
      var rest := Join(parts[1..], sep);
      JoinStep(parts, sep, rest);
      parts[0] + sep + rest
  }

  /** Every part followed by `sep`. */
  function EachFollowedBy(parts: seq<string>, sep: string): string
  {
    if |parts| == 0 then "" else parts[0] + sep + EachFollowedBy(parts[1..], sep)
  }

  /** Joining with one more part at the end puts `sep` after every earlier part. */
  lemma {:induction false} JoinWithLast(parts: seq<string>, last: string, sep: string)
    ensures Join(parts + [last], sep) == EachFollowedBy(parts, sep) + last
    decreases |parts|
  {
    if |parts| == 0 {
      assert parts + [last] == [last];
    } else {
      assert (parts + [last])[1..] == parts[1..] + [last];
      JoinWithLast(parts[1..], last, sep);
    }
  }

  /** Where the `k`-th part begins in `parts` joined by `sep`. */
  function PartStart(parts: seq<string>, sep: string, k: nat): nat
    requires k <= |parts|
  {
    if k == 0 then 0 else PartStart(parts, sep, k - 1) + |parts[k - 1]| + |sep|
  }

  /** `r` holds every part at its start and `sep` between each two parts. */
  predicate LaidOut(r: string, parts: seq<string>, sep: string)
  {
    && (forall k :: 0 <= k < |parts| ==>
          PartStart(parts, sep, k) + |parts[k]| <= |r| && r[PartStart(parts, sep, k)..PartStart(parts, sep, k) + |parts[k]|] == parts[k])
    && (forall k :: 0 <= k < |parts| - 1 ==>
          SepStart(parts, sep, k) + |sep| <= |r| && r[SepStart(parts, sep, k)..SepStart(parts, sep, k) + |sep|] == sep)
  }

  /** Where the separator after the `k`-th part begins. */
  function SepStart(parts: seq<string>, sep: string, k: nat): nat
    requires k < |parts|
  {
    PartStart(parts, sep, k) + |parts[k]|
  }

  lemma {:induction false} PartStartShift(parts: seq<string>, sep: string, k: nat)
    requires 0 < |parts| && k < |parts|
    ensures PartStart(parts, sep, k + 1) == |parts[0]| + |sep| + PartStart(parts[1..], sep, k)
    decreases k
  {
    if k > 0 {
      PartStartShift(parts, sep, k - 1);
      assert parts[1..][k - 1] == parts[k];
    }
  }

  lemma SliceAfter(a: string, b: string, from: nat, to: nat)
    requires from <= to <= |b|
    ensures (a + b)[|a| + from..|a| + to] == b[from..to]
  {
    assert forall m :: 0 <= m < to - from ==> (a + b)[|a| + from..|a| + to][m] == b[from..to][m];
  }

  /** Placing one more part and separator in front of a laid-out join. */
  lemma JoinStep(parts: seq<string>, sep: string, rest: string)
    requires |parts| > 1 && LaidOut(rest, parts[1..], sep)
    ensures LaidOut(parts[0] + sep + rest, parts, sep)
  {
    var r := parts[0] + sep + rest;
    forall k | 0 <= k < |parts|
      ensures PartStart(parts, sep, k) + |parts[k]| <= |r|
      ensures r[PartStart(parts, sep, k)..PartStart(parts, sep, k) + |parts[k]|] == parts[k]
    {
      if k > 0 {
        assert parts[1..][k - 1] == parts[k];
      }
      PartPlaced(parts, sep, rest, k);
    }
    forall k | 0 <= k < |parts| - 1
      ensures SepStart(parts, sep, k) + |sep| <= |r|
      ensures r[SepStart(parts, sep, k)..SepStart(parts, sep, k) + |sep|] == sep
    {
      if k > 0 {
        assert parts[1..][k - 1] == parts[k];
      }
      SepPlaced(parts, sep, rest, k);
    }
  }

  lemma PartPlaced(parts: seq<string>, sep: string, rest: string, k: nat)
    requires |parts| > 1 && k < |parts|
    requires k > 0 ==> var from := PartStart(parts[1..], sep, k - 1);
      from + |parts[k]| <= |rest| && rest[from..from + |parts[k]|] == parts[k]
    ensures var r := parts[0] + sep + rest;
      PartStart(parts, sep, k) + |parts[k]| <= |r| && r[PartStart(parts, sep, k)..PartStart(parts, sep, k) + |parts[k]|] == parts[k]
  {
    var head := parts[0] + sep;
    assert parts[0] + sep + rest == head + rest;
    if k == 0 {
      assert (head + rest)[0..|parts[0]|] == parts[0];
    } else {
      var tail := parts[1..];
      PartStartShift(parts, sep, k - 1);
      assert tail[k - 1] == parts[k];
      var from := PartStart(tail, sep, k - 1);
      SliceAfter(head, rest, from, from + |parts[k]|);
    }
  }

  lemma SepPlaced(parts: seq<string>, sep: string, rest: string, k: nat)
    requires |parts| > 1 && k < |parts| - 1
    requires k > 0 ==> var from := SepStart(parts[1..], sep, k - 1);
      from + |sep| <= |rest| && rest[from..from + |sep|] == sep
    ensures var r := parts[0] + sep + rest;
      SepStart(parts, sep, k) + |sep| <= |r| && r[SepStart(parts, sep, k)..SepStart(parts, sep, k) + |sep|] == sep
  {
    var head := parts[0] + sep;
    assert parts[0] + sep + rest == head + rest;
    if k == 0 {
      assert (head + rest)[|parts[0]|..|parts[0]| + |sep|] == sep;
    } else {
      var tail := parts[1..];
      PartStartShift(parts, sep, k - 1);
      assert tail[k - 1] == parts[k];
      var from := SepStart(tail, sep, k - 1);
      SliceAfter(head, rest, from, from + |sep|);
    }
  }


  function SumOfLengths(parts: seq<string>): nat
  {
    if |parts| == 0 then 0 else |parts[0]| + SumOfLengths(parts[1..])
  }
}
