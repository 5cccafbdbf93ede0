/** The two pure text rewrites of the downloader (src/download.rs:93-168):
    `sanitize_html_line`, which drops `class`, `title` and `data-language`
    attributes from tags as a four-state machine, and
    `sanitize_filename_for_windows`.

    The machine reads characters; its look-ahead guards compare bytes of the
    whole line at the current byte position. `Rest` below is the unread part
    of the line, so `position + k < length` is `k < ByteLen(rest)`; since
    every literal is ASCII, the byte comparison is the character comparison
    `AttributeAhead` makes (`AttributeGuardIsByteGuard` proves it). */
module Sanitize {
  import opened Wrappers
  import opened Text
  import opened Utf8

  datatype State = Default | InTag | InKey | InValue

  const DataLanguage: string := "data-language=\""
  const Title: string := "title=\""
  const Class: string := "class=\""

  /** The guard `position + k < length && bytes[position..position + k] == lit`
      on the unread part `rest`, as characters. */
  predicate AttributeAhead(rest: string, lit: string)
  {
    |lit| < |rest| && rest[..|lit|] == lit
  }

  /** The same guard on the UTF-8 bytes of `rest`. */
  predicate ByteGuard(rest: string, lit: string)
  {
    |lit| < ByteLen(rest) && IsPrefix(AsciiBytes(lit), Encode(rest))
  }

  /** For the ASCII literals the machine looks for, comparing bytes is
      comparing characters, including the strict length test. */
  lemma AttributeGuardIsByteGuard(rest: string, lit: string)
    requires IsAscii(lit)
    ensures ByteGuard(rest, lit) <==> AttributeAhead(rest, lit)
  {
    EncodeLength(rest);
    if AttributeAhead(rest, lit) {
      AsciiPrefixEncoding(rest, lit);
      assert rest == rest[..|lit|] + rest[|lit|..];
      ByteLenConcat(rest[..|lit|], rest[|lit|..]);
      ByteLenAtLeastLength(lit);
      assert rest[|lit|..][0] == rest[|lit|];
      ByteLenConcat([rest[|lit|]], rest[|lit| + 1..]);
      assert rest[|lit|..] == [rest[|lit|]] + rest[|lit| + 1..];
      ByteLenAtLeastLength([rest[|lit|]]);
    }
    if ByteGuard(rest, lit) {
      AsciiPrefixEncoding(rest, lit);
      if |lit| == |rest| {
        assert rest[..|lit|] == rest;
        ByteLenAtLeastLength(lit);
      }
    }
  }

  /** One character of the `for ch in html_line.chars()` loop: the next
      state and what is pushed onto the output. */
  function Step(st: State, rest: string): (r: (State, string))
    requires |rest| > 0
    ensures |r.1| <= 1 && (|r.1| == 1 ==> r.1[0] == rest[0])
  {
    var ch := rest[0];
    match st
    case Default => (if ch == '<' then InTag else Default, [ch])
    case InTag =>
      if ch == 'd' && AttributeAhead(rest, DataLanguage) then (InKey, [])
      else if ch == 't' && AttributeAhead(rest, Title) then (InKey, [])
      else if ch == 'c' && AttributeAhead(rest, Class) then (InKey, [])
      else if ch == '>' then (Default, [ch])
      else (InTag, [ch])
    case InKey => (if ch == '"' then InValue else InKey, [])
    case InValue => (if ch == '"' then InTag else InValue, [])
  }

  /** The machine over the unread part `rest`, from state `st`: the output
      and the final state. */
  function Run(rest: string, st: State): (r: (string, State))
    ensures IsSubsequence(r.0, rest)
    decreases |rest|
  {
    if |rest| == 0 then ([], st)
    else
      var step := Step(st, rest);
      var tail := Run(rest[1..], step.0);
      assert IsSubsequence(step.1 + tail.0, rest) by {
        if |step.1| == 1 {
          assert (step.1 + tail.0)[1..] == tail.0;
        } else {
          assert step.1 + tail.0 == tail.0;
        }
      }
      (step.1 + tail.0, tail.1)
  }

  /** A step that pushes nothing leaves the rest of the run as it is. */
  lemma SilentStep(rest: string, st: State)
    requires |rest| > 0 && Step(st, rest).1 == []
    ensures Run(rest, st) == Run(rest[1..], Step(st, rest).0)
  {
    var tail := Run(rest[1..], Step(st, rest).0);
    assert [] + tail.0 == tail.0;
  }

  /** `sanitize_html_line`. */
  function SanitizeHtmlLine(line: string): (r: string)
    ensures IsSubsequence(r, line)
    ensures |r| <= |line|
  {
    SubsequenceIsShorter(Run(line, Default).0, line);
    Run(line, Default).0
  }

  /** `a` is `b` with some characters left out. */
  predicate IsSubsequence(a: string, b: string)
    decreases |b|
  {
    if |b| == 0 then |a| == 0
    else (|a| > 0 && a[0] == b[0] && IsSubsequence(a[1..], b[1..])) || IsSubsequence(a, b[1..])
  }

  lemma {:induction false} SubsequenceIsShorter(a: string, b: string)
    requires IsSubsequence(a, b)
    ensures |a| <= |b|
    decreases |b|
  {
    if |b| > 0 {
      if |a| > 0 && a[0] == b[0] && IsSubsequence(a[1..], b[1..]) {
        SubsequenceIsShorter(a[1..], b[1..]);
      } else {
        SubsequenceIsShorter(a, b[1..]);
      }
    }
  }

  // ---------------------------------------------------------------------
  // Properties of the machine.

  /** Outside a tag every character is copied: a line without `<` comes out
      unchanged. */
  lemma {:induction false} NoTagIsIdentity(line: string)
    requires forall k :: 0 <= k < |line| ==> line[k] != '<'
    ensures Run(line, Default) == (line, Default)
    ensures SanitizeHtmlLine(line) == line
    decreases |line|
  {
    if |line| > 0 {
      NoTagIsIdentity(line[1..]);
      assert line == [line[0]] + line[1..];
    }
  }

  /** Inside a key or a value every character up to the next `"` is dropped,
      and that quote moves the machine on. */
  lemma {:induction false} SkipToQuote(rest: string, st: State, j: nat)
    requires st == InKey || st == InValue
    requires j < |rest| && rest[j] == '"'
    requires forall k :: 0 <= k < j ==> rest[k] != '"'
    ensures Run(rest, st) == Run(rest[j + 1..], if st == InKey then InValue else InTag)
    decreases j
  {
    var next := if st == InKey then InValue else InTag;
    SilentStep(rest, st);
    if j > 0 {
      SkipToQuote(rest[1..], st, j - 1);
      assert rest[1..][j..] == rest[j + 1..];
    }
  }

  /** The stripped attributes, as the literal that starts each. */
  predicate IsStrippedKey(lit: string)
  {
    lit == DataLanguage || lit == Title || lit == Class
  }

  /** The first character of a stripped attribute is dropped and starts its key. */
  lemma AttributeStartsKey(rest: string, lit: string)
    requires IsStrippedKey(lit)
    requires AttributeAhead(rest, lit)
    ensures Run(rest, InTag) == Run(rest[1..], InKey)
  {
    assert rest[0] == lit[0];
    SilentStep(rest, InTag);
  }

  /** Each stripped literal is a key followed by `="`, with no other quote. */
  lemma StrippedKeyShape(lit: string)
    requires IsStrippedKey(lit)
    ensures |lit| >= 3 && lit[|lit| - 1] == '"'
    ensures forall k :: 0 <= k < |lit| - 1 ==> lit[k] != '"'
  {
  }

  /** Reading a whole stripped literal from a tag leaves the machine in the
      attribute's value. */
  lemma ReadsKey(rest: string, lit: string)
    requires IsStrippedKey(lit)
    requires AttributeAhead(rest, lit)
    ensures Run(rest, InTag) == Run(rest[|lit|..], InValue)
  {
    AttributeStartsKey(rest, lit);
    StrippedKeyShape(lit);
    var key := rest[1..];
    forall k | 0 <= k < |lit| - 2 ensures key[k] != '"' {
      assert key[k] == rest[..|lit|][k + 1] == lit[k + 1];
    }
    assert key[|lit| - 2] == rest[..|lit|][|lit| - 1];
    SkipToQuote(key, InKey, |lit| - 2);
    assert key[|lit| - 1..] == rest[|lit|..];
  }

  /** In a tag, an attribute starting with `class="`, `title="` or
      `data-language="` is dropped through the quote that closes its value,
      and the tag goes on. */
  lemma DropsAttribute(rest: string, lit: string, j: nat)
    requires IsStrippedKey(lit)
    requires AttributeAhead(rest, lit)
    requires |lit| <= j < |rest| && rest[j] == '"'
    requires forall k :: |lit| <= k < j ==> rest[k] != '"'
    ensures Run(rest, InTag) == Run(rest[j + 1..], InTag)
  {
    ReadsKey(rest, lit);
    SkipsValue(rest, |lit|, j);
  }

  /** A value from `i` that closes at `j` is dropped, quote included. */
  lemma SkipsValue(rest: string, i: nat, j: nat)
    requires i <= j < |rest| && rest[j] == '"'
    requires forall k :: i <= k < j ==> rest[k] != '"'
    ensures Run(rest[i..], InValue) == Run(rest[j + 1..], InTag)
  {
    var value := rest[i..];
    assert forall k :: 0 <= k < j - i ==> value[k] != '"' by {
      forall k | 0 <= k < j - i ensures value[k] != '"' {
        assert value[k] == rest[i + k];
      }
    }
    assert value[j - i + 1..] == rest[j + 1..];
    SkipToQuote(value, InValue, j - i);
  }

  /** A `>` in a tag is kept and ends the tag. */
  lemma CloseTagReturnsToDefault(rest: string)
    requires |rest| > 0 && rest[0] == '>'
    ensures Run(rest, InTag) == (['>'] + Run(rest[1..], Default).0, Run(rest[1..], Default).1)
  {
    assert Step(InTag, rest) == (Default, ['>']);
  }

  /** Any other character in a tag, including one that merely starts like a
      stripped attribute, is kept. */
  lemma OtherTagCharacterIsKept(rest: string)
    requires |rest| > 0 && rest[0] != '>'
    requires !AttributeAhead(rest, DataLanguage) && !AttributeAhead(rest, Title) && !AttributeAhead(rest, Class)
    ensures Run(rest, InTag).0 == [rest[0]] + Run(rest[1..], InTag).0
  {
  }

  // ---------------------------------------------------------------------
  // Running the machine piece by piece.

  /** From `rest` in state `st` the machine emits `out` and then carries on
      as it would from `rest'` in state `st'`. */
  predicate Leads(rest: string, st: State, out: string, rest': string, st': State)
  {
    Run(rest, st) == (out + Run(rest', st').0, Run(rest', st').1)
  }

  lemma LeadsChain(a: string, sa: State, o1: string, b: string, sb: State, o2: string, c: string, sc: State)
    requires Leads(a, sa, o1, b, sb) && Leads(b, sb, o2, c, sc)
    ensures Leads(a, sa, o1 + o2, c, sc)
  {
    assert o1 + (o2 + Run(c, sc).0) == (o1 + o2) + Run(c, sc).0;
  }

  /** One step that keeps its character. */
  lemma KeptStep(rest: string, st: State)
    requires |rest| > 0 && Step(st, rest).1 != []
    ensures Leads(rest, st, [rest[0]], rest[1..], Step(st, rest).0)
  {
  }

  /** A kept character followed by a kept stretch is a kept stretch. */
  lemma KeptPrefix(rest: string, n: nat, st: State)
    requires 0 < n <= |rest|
    requires Leads(rest, st, [rest[0]], rest[1..], st)
    requires Leads(rest[1..], st, rest[1..][..n - 1], rest[n..], st)
    ensures Leads(rest, st, rest[..n], rest[n..], st)
  {
    LeadsChain(rest, st, [rest[0]], rest[1..], st, rest[1..][..n - 1], rest[n..], st);
    assert [rest[0]] + rest[1..][..n - 1] == rest[..n];
  }

  lemma KeptNothing(rest: string, st: State)
    ensures Leads(rest, st, rest[..0], rest[0..], st)
  {
    assert rest[..0] + Run(rest, st).0 == Run(rest, st).0;
    assert rest[0..] == rest;
  }

  /** Outside a tag, a stretch without `<` is copied. */
  lemma {:induction false} CopyOutside(rest: string, n: nat)
    requires n <= |rest|
    requires forall k :: 0 <= k < n ==> rest[k] != '<'
    ensures Leads(rest, Default, rest[..n], rest[n..], Default)
    decreases n
  {
    if n > 0 {
      KeptStep(rest, Default);
      CopyOutside(rest[1..], n - 1);
      assert rest[1..][n - 1..] == rest[n..];
      KeptPrefix(rest, n, Default);
    } else {
      KeptNothing(rest, Default);
    }
  }

  /** `<` is copied and opens a tag. */
  lemma OpenTag(rest: string)
    requires |rest| > 0 && rest[0] == '<'
    ensures Leads(rest, Default, "<", rest[1..], InTag)
  {
    KeptStep(rest, Default);
  }

  /** `>` is copied and closes a tag. */
  lemma CloseTag(rest: string)
    requires |rest| > 0 && rest[0] == '>'
    ensures Leads(rest, InTag, ">", rest[1..], Default)
  {
    KeptStep(rest, InTag);
  }

  /** `r` begins with the first three characters of `lit`. */
  predicate MayStart(r: string, lit: string)
  {
    |r| >= 3 && |lit| >= 3 && r[0] == lit[0] && r[1] == lit[1] && r[2] == lit[2]
  }

  /** In a tag, the next character is copied: it is not `>`, and the text
      from it cannot start a stripped attribute. */
  predicate CopiedInTag(r: string)
  {
    |r| > 0 && r[0] != '>' && !MayStart(r, DataLanguage) && !MayStart(r, Title) && !MayStart(r, Class)
  }

  lemma NotAttribute(r: string, lit: string)
    requires IsStrippedKey(lit) && !MayStart(r, lit)
    ensures !AttributeAhead(r, lit)
  {
    if |lit| < |r| {
      assert r[..|lit|][0] == r[0] && r[..|lit|][1] == r[1] && r[..|lit|][2] == r[2];
    }
  }

  /** Inside a tag, a character that is copied stays in the tag. */
  lemma KeepsInTag(rest: string)
    requires CopiedInTag(rest)
    ensures Leads(rest, InTag, [rest[0]], rest[1..], InTag)
  {
    NotAttribute(rest, DataLanguage);
    NotAttribute(rest, Title);
    NotAttribute(rest, Class);
    KeptStep(rest, InTag);
  }

  /** Inside a tag, a stretch of characters each of which is copied is
      copied as a whole. */
  lemma {:induction false} CopyInTag(rest: string, n: nat)
    requires n <= |rest|
    requires forall k :: 0 <= k < n ==> CopiedInTag(rest[k..])
    ensures Leads(rest, InTag, rest[..n], rest[n..], InTag)
    decreases n
  {
    if n > 0 {
      assert CopiedInTag(rest[0..]) && rest[0..] == rest;
      KeepsInTag(rest);
      forall k | 0 <= k < n - 1 ensures CopiedInTag(rest[1..][k..]) {
        assert rest[1..][k..] == rest[k + 1..];
      }
      CopyInTag(rest[1..], n - 1);
      assert rest[1..][n - 1..] == rest[n..];
      KeptPrefix(rest, n, InTag);
    } else {
      KeptNothing(rest, InTag);
    }
  }



  /** `DropsAttribute` as a piece. */
  lemma DropInTag(rest: string, lit: string, j: nat)
    requires IsStrippedKey(lit)
    requires AttributeAhead(rest, lit)
    requires |lit| <= j < |rest| && rest[j] == '"'
    requires forall k :: |lit| <= k < j ==> rest[k] != '"'
    ensures Leads(rest, InTag, [], rest[j + 1..], InTag)
  {
    DropsAttribute(rest, lit, j);
    assert [] + Run(rest[j + 1..], InTag).0 == Run(rest[j + 1..], InTag).0;
  }

  // The same steps for a text written as a piece followed by the rest.

  /** Outside a tag, a piece without `<` is copied. */
  lemma CopiesText(t: string, y: string)
    requires forall k :: 0 <= k < |t| ==> t[k] != '<'
    ensures Leads(t + y, Default, t, y, Default)
  {
    CopyOutside(t + y, |t|);
    assert (t + y)[..|t|] == t && (t + y)[|t|..] == y;
  }

  lemma OpensTag(y: string)
    ensures Leads("<" + y, Default, "<", y, InTag)
  {
    OpenTag("<" + y);
    assert ("<" + y)[1..] == y;
  }

  lemma ClosesTag(y: string)
    ensures Leads(">" + y, InTag, ">", y, Default)
  {
    CloseTag(">" + y);
    assert (">" + y)[1..] == y;
  }

  /** A character that is copied in a tag whatever follows it. */
  predicate IsPlainTagChar(c: char)
  {
    c != '>' && c != 'c' && c != 'd' && c != 't'
  }

  /** In a tag, a piece of plain characters is copied. */
  lemma CopiesTagText(t: string, y: string)
    requires forall k :: 0 <= k < |t| ==> IsPlainTagChar(t[k])
    ensures Leads(t + y, InTag, t, y, InTag)
  {
    forall k | 0 <= k < |t| ensures CopiedInTag((t + y)[k..]) {
      assert (t + y)[k..][0] == t[k];
    }
    CopyInTag(t + y, |t|);
    assert (t + y)[..|t|] == t && (t + y)[|t|..] == y;
  }

  /** The first three characters of a stripped attribute. */
  predicate StartsKey(a: char, b: char, c: char)
  {
    || (a, b, c) == ('d', 'a', 't')
    || (a, b, c) == ('t', 'i', 't')
    || (a, b, c) == ('c', 'l', 'a')
  }

  /** In a tag, a `c`, `d` or `t` is copied when it and the two characters
      after it do not begin a stripped attribute. */
  lemma KeepsLetter(c: char, y: string)
    requires c != '>'
    requires |y| >= 2 ==> !StartsKey(c, y[0], y[1])
    ensures Leads([c] + y, InTag, [c], y, InTag)
  {
    var r := [c] + y;
    assert r[0] == c;
    assert |y| >= 2 ==> r[1] == y[0] && r[2] == y[1];
    assert DataLanguage[..3] == "dat" && Title[..3] == "tit" && Class[..3] == "cla";
    KeepsInTag(r);
    assert r[1..] == y;
  }

  /** `a` is a whole stripped attribute: `lit`, a value without quotes and
      the quote that closes it. */
  predicate IsAttribute(a: string, lit: string)
  {
    && IsStrippedKey(lit) && |lit| < |a| && a[..|lit|] == lit && a[|a| - 1] == '"'
    && forall k :: |lit| <= k < |a| - 1 ==> a[k] != '"'
  }

  /** In a tag, a whole stripped attribute is dropped. */
  lemma DropsWhole(a: string, lit: string, y: string)
    requires IsAttribute(a, lit)
    ensures Run(a + y, InTag) == Run(y, InTag)
  {
    var r := a + y;
    assert r[..|lit|] == a[..|lit|];
    DropInTag(r, lit, |a| - 1);
    assert r[|a|..] == y;
    assert [] + Run(y, InTag).0 == Run(y, InTag).0;
  }

  /** What follows the first character of a stripped literal is copied in a
      tag when nothing comes after it. */
  lemma LiteralTailIsKept(lit: string)
    requires IsStrippedKey(lit)
    ensures Leads(lit[1..], InTag, lit[1..], "", InTag)
  {
    if lit == Class {
      ClassTailIsKept();
    } else if lit == Title {
      KeptAfterT("i", "le=\"");
      assert "i" + "t" + "le=\"" == Title[1..];
    } else {
      KeptAfterT("a", "a-language=\"");
      assert "a" + "t" + "a-language=\"" == DataLanguage[1..];
    }
  }

  lemma ClassTailIsKept()
    ensures Leads(Class[1..], InTag, Class[1..], "", InTag)
  {
    var tail := "lass=\"";
    CopiesTagText(tail, "");
    assert tail + "" == tail == Class[1..];
  }

  /** Plain tag text, a `t` that starts no attribute, then plain tag text
      up to the end. */
  lemma KeptAfterT(a: string, c: string)
    requires forall k :: 0 <= k < |a| ==> IsPlainTagChar(a[k])
    requires forall k :: 0 <= k < |c| ==> IsPlainTagChar(c[k])
    ensures Leads(a + "t" + c, InTag, a + "t" + c, "", InTag)
  {
    var b := "t" + c;
    CopiesTagText(a, b);
    assert b == ['t'] + c;
    KeepsLetter('t', c);
    CopiesTagText(c, "");
    assert c + "" == c;
    assert a + b == a + "t" + c;
    LeadsChain(a + b, InTag, a, b, InTag, "t", c, InTag);
    LeadsChain(a + b, InTag, a + "t", c, InTag, c, "", InTag);
  }

  /** Alone, a stripped literal does not pass its own guard, so its first
      character is kept. */
  lemma LiteralAloneIsNotAhead(lit: string)
    requires IsStrippedKey(lit)
    ensures Step(InTag, lit) == (InTag, [lit[0]])
  {
    assert !AttributeAhead(lit, lit);
    assert lit[0] == 'c' || lit[0] == 't' || lit[0] == 'd';
    assert lit[0] == 'c' <==> lit == Class;
    assert lit[0] == 't' <==> lit == Title;
  }

  /** A text whose first character is kept in a tag and whose remainder is
      copied to the end comes out whole. */
  lemma KeptWhole(x: string)
    requires |x| > 0 && Step(InTag, x) == (InTag, [x[0]])
    requires Leads(x[1..], InTag, x[1..], "", InTag)
    ensures Run(x, InTag) == (x, InTag)
  {
    KeptStep(x, InTag);
    LeadsChain(x, InTag, [x[0]], x[1..], InTag, x[1..], "", InTag);
    HeadAndTail(x);
    assert Run("", InTag) == ([], InTag);
    assert x + [] == x;
  }

  lemma HeadAndTail(x: string)
    requires |x| > 0
    ensures [x[0]] + x[1..] == x
  {
  }

  /** The look-ahead guards compare strictly (`position + k < length`): a
      stripped literal that ends exactly where the line ends is kept. */
  lemma AttributeAtLineEndIsKept(lit: string)
    requires IsStrippedKey(lit)
    ensures Run(lit, InTag) == (lit, InTag)
  {
    LiteralAloneIsNotAhead(lit);
    LiteralTailIsKept(lit);
    KeptWhole(lit);
  }

  // ---------------------------------------------------------------------
  // Texts split after a separator are sanitised part by part.

  /** The characters of the stripped literals. */
  predicate IsKeyChar(c: char)
  {
    || c == 'a' || c == 'c' || c == 'd' || c == 'e' || c == 'g' || c == 'i' || c == 'l'
    || c == 'n' || c == 's' || c == 't' || c == 'u' || c == '-' || c == '=' || c == '"'
  }

  lemma KeyChars(lit: string)
    requires IsStrippedKey(lit)
    ensures forall k :: 0 <= k < |lit| ==> IsKeyChar(lit[k])
  {
  }

  /** `x` is not empty and ends with a character no stripped literal
      contains, such as a space, `>` or a line feed. */
  predicate EndsAtSeparator(x: string)
  {
    |x| > 0 && !IsKeyChar(x[|x| - 1])
  }

  /** A look-ahead from inside `x` never reaches past its last character. */
  lemma LookaheadStops(x: string, y: string, lit: string)
    requires IsStrippedKey(lit) && EndsAtSeparator(x)
    ensures AttributeAhead(x + y, lit) <==> AttributeAhead(x, lit)
  {
    KeyChars(lit);
    if AttributeAhead(x + y, lit) {
      assert forall k :: 0 <= k < |lit| ==> (x + y)[k] == lit[k];
      assert (x + y)[|x| - 1] == x[|x| - 1];
      assert |lit| < |x|;
      assert x[..|lit|] == (x + y)[..|lit|];
    }
    if AttributeAhead(x, lit) {
      assert x[..|lit|] == (x + y)[..|lit|];
    }
  }

  lemma StepStops(x: string, y: string, st: State)
    requires EndsAtSeparator(x)
    ensures Step(st, x + y) == Step(st, x)
  {
    LookaheadStops(x, y, DataLanguage);
    LookaheadStops(x, y, Title);
    LookaheadStops(x, y, Class);
  }

  /** What follows a separator does not change how the text up to it is
      sanitised; the machine carries its state across. */
  lemma {:induction false} RunSplitsAtSeparator(x: string, y: string, st: State)
    requires EndsAtSeparator(x)
    ensures Leads(x + y, st, Run(x, st).0, y, Run(x, st).1)
    decreases |x|
  {
    StepStops(x, y, st);
    var next := Step(st, x).0;
    assert (x + y)[1..] == x[1..] + y;
    if |x| == 1 {
      assert x[1..] + y == y;
      assert Step(st, x).1 + [] == Step(st, x).1;
    } else {
      RunSplitsAtSeparator(x[1..], y, next);
      assert Step(st, x).1 + (Run(x[1..], next).0 + Run(y, Run(x[1..], next).1).0)
          == (Step(st, x).1 + Run(x[1..], next).0) + Run(y, Run(x[1..], next).1).0;
    }
  }

  /** Sanitising one more part after a prefix that ends at a separator. */
  lemma RunExtends(x: string, y: string, st: State, ox: string, sx: State, oy: string, sy: State)
    requires EndsAtSeparator(x)
    requires Run(x, st) == (ox, sx) && Run(y, sx) == (oy, sy)
    ensures Run(x + y, st) == (ox + oy, sy)
    ensures EndsAtSeparator(y) ==> EndsAtSeparator(x + y)
  {
    RunSplitsAtSeparator(x, y, st);
  }

  /** The parts of a text, concatenated. */
  function Concat(parts: seq<string>): (r: string)
    ensures |parts| == 1 ==> r == parts[0]
  {
    if |parts| == 0 then "" else parts[0] + Concat(parts[1..])
  }

  /** A text cut after separators is sanitised part by part: if part `k`,
      started in state `states[k]`, gives `outs[k]` and leaves the machine in
      `states[k + 1]`, the whole text gives the concatenated outputs. */
  lemma {:induction false} RunIsPiecewise(parts: seq<string>, outs: seq<string>, states: seq<State>)
    requires |parts| == |outs| && |states| == |parts| + 1
    requires forall k :: 0 <= k < |parts| - 1 ==> EndsAtSeparator(parts[k])
    requires forall k :: 0 <= k < |parts| ==> Run(parts[k], states[k]) == (outs[k], states[k + 1])
    ensures Run(Concat(parts), states[0]) == (Concat(outs), states[|parts|])
    decreases |parts|
  {
    if |parts| > 1 {
      RunIsPiecewise(parts[1..], outs[1..], states[1..]);
      RunSplitsAtSeparator(parts[0], Concat(parts[1..]), states[0]);
    } else if |parts| == 0 {
      assert Run("", states[0]) == ([], states[0]);
    }
  }

  /** In particular a text cut into lines, none of which leaves a tag open,
      is sanitised line by line. */
  lemma RunIsLinewise(lines: seq<string>, outs: seq<string>)
    requires |lines| == |outs|
    requires forall k :: 0 <= k < |lines| - 1 ==> |lines[k]| > 0 && lines[k][|lines[k]| - 1] == '\n'
    requires forall k :: 0 <= k < |lines| ==> Run(lines[k], Default) == (outs[k], Default)
    ensures Run(Concat(lines), Default) == (Concat(outs), Default)
  {
    var states := seq(|lines| + 1, _ => Default);
    RunIsPiecewise(lines, outs, states);
  }

  // ---------------------------------------------------------------------
  // `sanitize_filename_for_windows`

  /** `FORBIDDEN_CHARS`. */
  predicate IsForbidden(c: char)
  {
    c == '<' || c == '>' || c == ':' || c == '"' || c == '|' || c == '?' || c == '*'
  }

  /** Every forbidden character becomes `_`; nothing else changes. */
  function SanitizeFilenameForWindows(name: string): (r: string)
    ensures |r| == |name|
    ensures forall k :: 0 <= k < |r| ==> !IsForbidden(r[k])
    ensures forall k :: 0 <= k < |r| && !IsForbidden(name[k]) ==> r[k] == name[k]
    ensures forall k :: 0 <= k < |r| && IsForbidden(name[k]) ==> r[k] == '_'
  {
    seq(|name|, k requires 0 <= k < |name| => if IsForbidden(name[k]) then '_' else name[k])
  }

  /** A sanitised name is left alone by a second pass. */
  lemma FilenameSanitizingIsIdempotent(name: string)
    ensures SanitizeFilenameForWindows(SanitizeFilenameForWindows(name)) == SanitizeFilenameForWindows(name)
  {
  }
}
