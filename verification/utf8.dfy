/** The UTF-8 bytes of a string, as far as the byte-level guards of the
    HTML sanitiser need them: a character below 0x80 is its own single byte,
    and every byte of a longer encoding is at least 0x80. */
module Utf8 {
  import opened Text

  /** The UTF-8 encoding of one character (section 3 of RFC 3629). */
  function EncodeChar(c: char): (b: seq<nat>)
    ensures |b| == Utf8Width(c)
    ensures forall k :: 0 <= k < |b| ==> b[k] < 0x100
    ensures c as int < 0x80 ==> b == [c as int]
    ensures c as int >= 0x80 ==> forall k :: 0 <= k < |b| ==> b[k] >= 0x80
  {
    var n := c as int;
    if n < 0x80 then [n]
    else if n < 0x800 then [0xC0 + n / 0x40, 0x80 + n % 0x40]
    else if n < 0x1_0000 then [0xE0 + n / 0x1000, 0x80 + (n / 0x40) % 0x40, 0x80 + n % 0x40]
    else [0xF0 + n / 0x4_0000, 0x80 + (n / 0x1000) % 0x40, 0x80 + (n / 0x40) % 0x40, 0x80 + n % 0x40]
  }

  /** `str::as_bytes`. */
  function Encode(s: string): seq<nat>
  {
    if |s| == 0 then [] else EncodeChar(s[0]) + Encode(s[1..])
  }

  lemma {:induction false} EncodeLength(s: string)
    ensures |Encode(s)| == ByteLen(s)
    decreases |s|
  {
    if |s| > 0 {
      EncodeLength(s[1..]);
      assert s == [s[0]] + s[1..];
      ByteLenConcat([s[0]], s[1..]);
      assert [s[0]][..0] == [];
    }
  }

  predicate IsAscii(lit: string)
  {
    forall k :: 0 <= k < |lit| ==> lit[k] as int < 0x80
  }

  /** The bytes of an ASCII literal such as `b"class=\""`. */
  function AsciiBytes(lit: string): (b: seq<nat>)
    ensures |b| == |lit|
  {
    seq(|lit|, k requires 0 <= k < |lit| => lit[k] as int)
  }

  /** `p` is a prefix of `s`. */
  predicate IsPrefix<T(==)>(p: seq<T>, s: seq<T>)
  {
    |p| <= |s| && s[..|p|] == p
  }

  lemma PrefixByHead<T>(p: seq<T>, s: seq<T>)
    requires |p| > 0 && |s| > 0
    ensures IsPrefix(p, s) <==> p[0] == s[0] && IsPrefix(p[1..], s[1..])
  {
    if p[0] == s[0] && IsPrefix(p[1..], s[1..]) {
      assert s[..|p|] == [s[0]] + s[1..][..|p| - 1];
    }
  }

  /** The bytes of `s` start with the bytes of an ASCII literal exactly when
      its characters start with the literal. */
  lemma {:induction false} AsciiPrefixEncoding(s: string, lit: string)
    requires IsAscii(lit)
    ensures IsPrefix(AsciiBytes(lit), Encode(s)) <==> IsPrefix(lit, s)
    decreases |lit|
  {
    if |lit| > 0 && |s| > 0 {
      var tail := lit[1..];
      AsciiPrefixEncoding(s[1..], tail);
      assert AsciiBytes(lit)[1..] == AsciiBytes(tail);
      PrefixByHead(lit, s);
      if s[0] as int < 0x80 {
        assert Encode(s) == [s[0] as int] + Encode(s[1..]);
        assert Encode(s)[1..] == Encode(s[1..]);
        PrefixByHead(AsciiBytes(lit), Encode(s));
      } else {
        assert Encode(s)[0] >= 0x80;
      }
    } else if |lit| > 0 {
      assert Encode(s) == [];
    }
  }
}
