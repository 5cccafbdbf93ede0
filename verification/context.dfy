/** `get_context_around_query` (src/search.rs:231-251): the bounded snippet
    shown under a vague result.

    The match index comes from `find` on a lowercased copy of the line, but
    the slice is taken from the original line, whose byte length may differ;
    so nothing here assumes the index is in range. Both cut points are found
    among the line's character starts (the iterator chains are modelled one
    adapter at a time), which is what keeps the byte slice from panicking. */
module Context {
  import opened Wrappers
  import opened Text

  /** `BOUND_OFFSET`: (80 columns - 2 * "...".len() - 2 * TAB.len()) / 2 sides. */
  const BoundOffset: nat := (80 - 6 - 8) / 2

  /** Rust's `usize::saturating_sub`. */
  function SaturatingSub(a: nat, b: nat): (r: nat)
    ensures a >= b ==> r + b == a
    ensures a < b ==> r == 0
  {
    if a >= b then a - b else 0
  }

  /** `s.char_indices().take(j).rev().find(|&(idx, _)| idx <= bound)`, as a
      character index. */
  function RevFindAtMost(s: string, j: nat, bound: nat): (r: Option<nat>)
    requires j <= |s|
    ensures r.Some? ==> r.value < j && Offset(s, r.value) <= bound
    ensures r.Some? ==> forall m :: r.value < m < j ==> Offset(s, m) > bound
    ensures r.None? ==> forall m :: 0 <= m < j ==> Offset(s, m) > bound
    decreases j
  {
    if j == 0 then None
    else if Offset(s, j - 1) <= bound then Some(j - 1)
    else RevFindAtMost(s, j - 1, bound)
  }

  /** `.skip_while(|&(idx, _)| idx < bound)` applied to the characters from
      `j` on: the character index where iteration resumes. */
  function SkipWhileBelow(s: string, j: nat, bound: nat): (k: nat)
    requires j <= |s|
    ensures j <= k <= |s|
    ensures forall m :: j <= m < k ==> Offset(s, m) < bound
    ensures k < |s| ==> Offset(s, k) >= bound
    decreases |s| - j
  {
    if j < |s| && Offset(s, j) < bound then SkipWhileBelow(s, j + 1, bound) else j
  }

  /** `.find(|&(idx, _)| idx >= bound)` over the characters from `j` on. */
  function FindAtLeast(s: string, j: nat, bound: nat): (r: Option<nat>)
    requires j <= |s|
    ensures r.Some? ==> j <= r.value < |s| && Offset(s, r.value) >= bound
    ensures r.Some? ==> forall m :: j <= m < r.value ==> Offset(s, m) < bound
    ensures r.None? ==> forall m :: j <= m < |s| ==> Offset(s, m) < bound
    decreases |s| - j
  {
    if j == |s| then None
    else if Offset(s, j) >= bound then Some(j)
    else FindAtLeast(s, j + 1, bound)
  }

  /** Lower edge of the window before rounding: `index.saturating_sub(BOUND_OFFSET)`. */
  function LowerBound(index: nat): nat
  {
    SaturatingSub(index, BoundOffset)
  }

  /** Upper edge of the window before rounding. */
  function UpperBound(index: nat, queryLen: nat): nat
  {
    index + queryLen + BoundOffset
  }

  /** `start_pos`: the last character start at or below the lower edge, or 0. */
  function StartPos(line: string, index: nat): nat
  {
    match RevFindAtMost(line, |line|, LowerBound(index))
    case Some(j) => Offset(line, j)
    case None => 0
  }

  /** `end_pos`: skip the characters before the end of the match, then the
      first character start at or above the upper edge, or the line's length. */
  function EndPos(line: string, index: nat, queryLen: nat): nat
  {
    var k := SkipWhileBelow(line, 0, index + queryLen);
    match FindAtLeast(line, k, UpperBound(index, queryLen))
    case Some(j) => Offset(line, j)
    case None => ByteLen(line)
  }

  /** The byte range `start_pos..end_pos`, for ANY `index` and `queryLen`:
      both ends are character boundaries in order within the line (so
      `&html_line[start_pos..end_pos]` cannot panic); the start is the last
      character start at or below the lower edge (so, on a non-empty line,
      never the line's end, even when `index` lies past it) and the end is the first
      character boundary at or above the upper edge, or the end of the line. */
  function WindowBounds(line: string, index: nat, queryLen: nat): (b: (nat, nat))
    ensures IsCharBoundary(line, b.0) && IsCharBoundary(line, b.1)
    ensures b.0 <= b.1 <= ByteLen(line)
    ensures b.0 <= LowerBound(index)
    ensures |line| > 0 ==> b.0 < ByteLen(line)
    ensures forall j :: 0 <= j < |line| && Offset(line, j) <= LowerBound(index) ==> Offset(line, j) <= b.0
    ensures b.1 == ByteLen(line) || b.1 >= UpperBound(index, queryLen)
    ensures forall j :: 0 <= j <= |line| && Offset(line, j) >= UpperBound(index, queryLen) ==> Offset(line, j) >= b.1
  {
    var lower, upper := LowerBound(index), UpperBound(index, queryLen);
    var start, end := StartPos(line, index), EndPos(line, index, queryLen);
    OffsetEnds(line);
    var first := RevFindAtMost(line, |line|, lower);
    var k := SkipWhileBelow(line, 0, index + queryLen);
    var last := FindAtLeast(line, k, upper);
    assert IsCharBoundary(line, start) by {
      if first.Some? {
        assert Offset(line, first.value) == start;
      } else {
        assert Offset(line, 0) == 0;
      }
    }
    assert |line| > 0 ==> start < ByteLen(line) by {
      if |line| > 0 {
        assert first.Some?;
        OffsetBelowByteLen(line, first.value);
      }
    }
    assert IsCharBoundary(line, end) by {
      if last.Some? {
        assert Offset(line, last.value) == end;
      }
    }
    assert forall j :: 0 <= j < |line| && Offset(line, j) <= lower ==> Offset(line, j) <= start by {
      forall j | 0 <= j < |line| && Offset(line, j) <= lower
        ensures Offset(line, j) <= start
      {
        if Offset(line, j) > start {
          OffsetIncreasing(line, j, first.value);
        }
      }
    }
    assert forall j :: 0 <= j <= |line| && Offset(line, j) >= upper ==> Offset(line, j) >= end by {
      forall j | 0 <= j <= |line| && Offset(line, j) >= upper
        ensures Offset(line, j) >= end
      {
        if j == |line| {
          if last.Some? {
            OffsetIncreasing(line, last.value, j);
          }
        } else if j >= k {
          OffsetIncreasing(line, last.value, j);
        }
      }
    }
    assert start <= end by {
      if first.Some? {
        OffsetBelowByteLen(line, first.value);
        if last.Some? {
          if last.value < first.value {
            OffsetIncreasing(line, last.value, first.value);
          } else {
            OffsetIncreasing(line, first.value, last.value);
          }
        }
      }
    }
    assert end <= ByteLen(line) by {
      if last.Some? {
        OffsetBelowByteLen(line, last.value);
      }
    }
    (start, end)
  }

  /** The untrimmed window `&html_line[start_pos..end_pos]`. */
  function Window(line: string, index: nat, queryLen: nat): (w: string)
    ensures var b := WindowBounds(line, index, queryLen); ByteSlice(line, b.0, b.1) == Some(w)
  {
    var b := WindowBounds(line, index, queryLen);
    ByteSlice(line, b.0, b.1).value
  }

  /** `get_context_around_query`: the trimmed window, a whitespace-free-ended
      piece of the line around the match. */
  function ContextAroundQuery(line: string, index: nat, queryLen: nat): (r: string)
    ensures IsTrimmed(r)
    ensures exists i :: TrimmedFrom(Window(line, index, queryLen), r, i)
  {
    Trim(Window(line, index, queryLen))
  }

  /** When the match lies inside the line, the window contains it. */
  lemma WindowCoversMatch(line: string, index: nat, queryLen: nat)
    requires index + queryLen <= ByteLen(line)
    ensures var b := WindowBounds(line, index, queryLen); b.0 <= index && index + queryLen <= b.1
  {
  }

  /** A match near both ends of a short line shows the whole trimmed line. */
  lemma ShortLineIsShownWhole(line: string, index: nat, queryLen: nat)
    requires index <= BoundOffset
    requires ByteLen(line) <= index + queryLen + BoundOffset
    ensures WindowBounds(line, index, queryLen) == (0, ByteLen(line))
    ensures Window(line, index, queryLen) == line
    ensures ContextAroundQuery(line, index, queryLen) == Trim(line)
  {
    assert WindowBounds(line, index, queryLen) == (0, ByteLen(line)) by {
      OffsetEnds(line);
    }
    WholeByteSlice(line);
  }

  /** The last character start at or below `p` is less than 4 bytes below it
      (when `p` lies inside the line); a character is at most 4 bytes wide. */
  lemma {:induction false} CharStartNear(line: string, j: nat, p: nat)
    requires j < |line| && Offset(line, j) <= p
    requires forall m :: j < m < |line| ==> Offset(line, m) > p
    ensures p < ByteLen(line) ==> p < Offset(line, j) + 4
    ensures p >= ByteLen(line) ==> ByteLen(line) <= Offset(line, j) + 4
  {
    OffsetStep(line, j);
    OffsetEnds(line);
    if j + 1 < |line| {
      OffsetBelowByteLen(line, j + 1);
    }
  }

  /** The window is at most `BoundOffset` bytes on each side of the match,
      plus at most 3 bytes on each side to reach a character boundary: the
      80-column budget the constant is derived from. */
  lemma WindowIsBounded(line: string, index: nat, queryLen: nat)
    ensures var b := WindowBounds(line, index, queryLen); b.1 - b.0 <= queryLen + 2 * BoundOffset + 6
  {
    var b := WindowBounds(line, index, queryLen);
    var lower, upper := LowerBound(index), UpperBound(index, queryLen);
    OffsetEnds(line);
    if |line| > 0 {
      var first := RevFindAtMost(line, |line|, lower);
      if first.Some? {
        CharStartNear(line, first.value, lower);
      }
      assert b.1 <= upper + 3 by {
        var k := SkipWhileBelow(line, 0, index + queryLen);
        var last := FindAtLeast(line, k, upper);
        if last.Some? {
          var f := last.value;
          if f > 0 {
            OffsetStep(line, f - 1);
          }
        } else {
          OffsetStep(line, |line| - 1);
        }
      }
    }
  }

  /** A line longer than the window's bound is always cut. */
  lemma LongLineIsCut(line: string, index: nat, queryLen: nat)
    requires ByteLen(line) > queryLen + 2 * BoundOffset + 6
    ensures ByteLen(Window(line, index, queryLen)) < ByteLen(line)
  {
    WindowIsBounded(line, index, queryLen);
  }
}
