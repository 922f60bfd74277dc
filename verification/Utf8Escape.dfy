/** Escaping a byte string to valid UTF-8 and back: `nm_utils_str_utf8safe_escape` and `_unescape`. */
module Utf8Escape {
  import opened Basics

  type Byte = b: int | 0 <= b < 256

  const BACKSLASH: Byte := 92

  predicate Tail(b: Byte) { 0x80 <= b <= 0xBF }

  /** The length of the well-formed character that starts `s` (section 4 of RFC 3629), or 0. */
  function CharLength(s: seq<Byte>): (n: nat)
    ensures n <= 4 && n <= |s|
  {
    if s == [] then 0
    else if s[0] <= 0x7F then 1
    else if |s| >= 2 && 0xC2 <= s[0] <= 0xDF && Tail(s[1]) then 2
    else if |s| >= 3 && Tail(s[2]) && (|| (s[0] == 0xE0 && 0xA0 <= s[1] <= 0xBF)
                                       || (0xE1 <= s[0] <= 0xEC && Tail(s[1]))
                                       || (s[0] == 0xED && 0x80 <= s[1] <= 0x9F)
                                       || (0xEE <= s[0] <= 0xEF && Tail(s[1]))) then 3
    else if |s| >= 4 && Tail(s[2]) && Tail(s[3]) && (|| (s[0] == 0xF0 && 0x90 <= s[1] <= 0xBF)
                                                     || (0xF1 <= s[0] <= 0xF3 && Tail(s[1]))
                                                     || (s[0] == 0xF4 && 0x80 <= s[1] <= 0x8F)) then 4
    else 0
  }

  predicate IsUtf8(s: seq<Byte>)
    decreases |s|
  {
    s == [] || (CharLength(s) > 0 && IsUtf8(s[CharLength(s)..]))
  }

  /** g_utf8_validate: how far `s` is well-formed. */
  function ValidPrefix(s: seq<Byte>): (n: nat)
    ensures n <= |s|
    ensures n == |s| <==> IsUtf8(s)
    decreases |s|
  {
    var k := CharLength(s);
    if k == 0 then 0 else k + ValidPrefix(s[k..])
  }

  /** Which bytes to escape beyond backslashes and malformed ones, and whether C's char is signed. */
  datatype Flags = Flags(ctrl: bool, nonAscii: bool, charSigned: bool)

  /** The comparison `ch < ' '` also catches the bytes from 128 on where char is signed. */
  predicate Unwanted(b: Byte, flags: Flags) {
    || (flags.ctrl && (b < 32 || (flags.charSigned && b >= 128)))
    || (flags.nonAscii && b >= 127)
  }

  /** A backslash and three octal digits. */
  function Octal(b: Byte): (r: seq<Byte>) {
    [BACKSLASH, 48 + b / 64, 48 + b / 8 % 8, 48 + b % 8]
  }

  function EscapeByte(b: Byte, flags: Flags): (r: seq<Byte>) {
    if b == BACKSLASH then [BACKSLASH, BACKSLASH]
    else if Unwanted(b, flags) then Octal(b)
    else [b]
  }

  function EscapeSpan(s: seq<Byte>, flags: Flags): (r: seq<Byte>) {
    if s == [] then [] else EscapeByte(s[0], flags) + EscapeSpan(s[1..], flags)
  }

  /** The escaped form: spans of valid UTF-8, separated by malformed bytes in octal. */
  function Escaped(s: seq<Byte>, flags: Flags): (r: seq<Byte>)
    decreases |s|
  {
    var p := ValidPrefix(s);
    EscapeSpan(s[..p], flags) + if p == |s| then [] else Octal(s[p]) + Escaped(s[p + 1..], flags)
  }

  // ----- Validity of the result

  lemma CharLengthPrefix(a: seq<Byte>, b: seq<Byte>)
    requires CharLength(a) > 0
    ensures CharLength(a + b) == CharLength(a)
  {
  }

  lemma {:induction false} Utf8Concat(a: seq<Byte>, b: seq<Byte>)
    requires IsUtf8(a) && IsUtf8(b)
    ensures IsUtf8(a + b)
    decreases |a|
  {
    hide CharLength;
    if a == [] {
      assert a + b == b;
    } else {
      var k := CharLength(a);
      CharLengthPrefix(a, b);
      Utf8Concat(a[k..], b);
      assert (a + b)[k..] == a[k..] + b;
    }
  }

  lemma {:induction false} AsciiIsUtf8(s: seq<Byte>)
    requires forall i :: 0 <= i < |s| ==> s[i] <= 0x7F
    ensures IsUtf8(s)
  {
    if s != [] {
      AsciiIsUtf8(s[1..]);
    }
  }

  lemma {:induction false} EscapeSpanConcat(a: seq<Byte>, b: seq<Byte>, flags: Flags)
    ensures EscapeSpan(a + b, flags) == EscapeSpan(a, flags) + EscapeSpan(b, flags)
  {
    hide EscapeByte;
    if a == [] {
      assert a + b == b;
    } else {
      EscapeSpanConcat(a[1..], b, flags);
      assert (a + b)[1..] == a[1..] + b;
    }
  }

  /** The bytes from 128 on are all escaped or all kept, so no character is torn apart. */
  lemma {:induction false} HighBytesAlike(s: seq<Byte>, flags: Flags)
    requires forall i :: 0 <= i < |s| ==> s[i] >= 128
    ensures EscapeSpan(s, flags) == s || forall i :: 0 <= i < |EscapeSpan(s, flags)| ==> EscapeSpan(s, flags)[i] <= 0x7F
    ensures !Unwanted(128, flags) ==> EscapeSpan(s, flags) == s
    ensures Unwanted(128, flags) ==> forall i :: 0 <= i < |EscapeSpan(s, flags)| ==> EscapeSpan(s, flags)[i] <= 0x7F
  {
    if s != [] {
      HighBytesAlike(s[1..], flags);
    }
  }

  lemma EscapedCharIsUtf8(c: seq<Byte>, flags: Flags)
    requires CharLength(c) == |c| > 0
    ensures IsUtf8(EscapeSpan(c, flags))
  {
    if |c| == 1 {
      assert EscapeSpan(c, flags) == EscapeByte(c[0], flags) + [];
      AsciiIsUtf8(EscapeSpan(c, flags));
    } else {
      HighBytesAlike(c, flags);
      if Unwanted(128, flags) {
        AsciiIsUtf8(EscapeSpan(c, flags));
      } else {
        assert IsUtf8(c[|c|..]);
      }
    }
  }

  lemma {:induction false} EscapedSpanIsUtf8(s: seq<Byte>, flags: Flags)
    requires IsUtf8(s)
    ensures IsUtf8(EscapeSpan(s, flags))
    decreases |s|
  {
    if s != [] {
      var k := CharLength(s);
      assert s == s[..k] + s[k..];
      assert CharLength(s[..k]) == k;
      EscapeSpanConcat(s[..k], s[k..], flags);
      EscapedCharIsUtf8(s[..k], flags);
      EscapedSpanIsUtf8(s[k..], flags);
      Utf8Concat(EscapeSpan(s[..k], flags), EscapeSpan(s[k..], flags));
    }
  }

  lemma {:induction false} ValidPrefixIsUtf8(s: seq<Byte>)
    ensures IsUtf8(s[..ValidPrefix(s)])
    decreases |s|
  {
    var k := CharLength(s);
    if k > 0 {
      ValidPrefixIsUtf8(s[k..]);
      var p := ValidPrefix(s);
      assert s[..p] == s[..k] + s[k..][..p - k];
      assert CharLength(s[..k]) == k && IsUtf8(s[..k][k..]);
      Utf8Concat(s[..k], s[k..][..p - k]);
    }
  }

  /** The escaped text is always valid UTF-8. */
  lemma {:induction false} EscapedIsUtf8(s: seq<Byte>, flags: Flags)
    ensures IsUtf8(Escaped(s, flags))
    decreases |s|
  {
    hide IsUtf8, EscapeSpan;
    var p := ValidPrefix(s);
    ValidPrefixIsUtf8(s);
    EscapedSpanIsUtf8(s[..p], flags);
    if p < |s| {
      EscapedIsUtf8(s[p + 1..], flags);
      AsciiIsUtf8(Octal(s[p]));
      Utf8Concat(Octal(s[p]), Escaped(s[p + 1..], flags));
      Utf8Concat(EscapeSpan(s[..p], flags), Octal(s[p]) + Escaped(s[p + 1..], flags));
    } else {
      assert EscapeSpan(s[..p], flags) + [] == EscapeSpan(s[..p], flags);
    }
  }

  // ----- Round trip

  predicate OctalDigit(b: Byte) { 48 <= b <= 55 }

  /** The number of octal digits, at most `limit`, at the front of `s`. */
  function OctalRun(s: seq<Byte>, limit: nat): (n: nat)
    ensures n <= limit && n <= |s|
    ensures s != [] && limit > 0 && OctalDigit(s[0]) ==> n > 0
  {
    if limit == 0 || s == [] || !OctalDigit(s[0]) then 0 else 1 + OctalRun(s[1..], limit - 1)
  }

  /** The digits' value, accumulated in a char. */
  function OctalValue(digits: seq<Byte>): (v: Byte) {
    if digits == [] then 0
    else (OctalValue(digits[..|digits| - 1]) * 8 + digits[|digits| - 1] - 48) % 256
  }

  /** The letters with a meaning of their own behind a backslash. */
  function Letter(b: Byte): (r: Byte) {
    if b == 98 then 8 else if b == 102 then 12 else if b == 110 then 10
    else if b == 114 then 13 else if b == 116 then 9 else if b == 118 then 11
    else b
  }

  /** g_strcompress. A backslash that ends the string is dropped. */
  function Compress(s: seq<Byte>): (r: seq<Byte>)
    decreases |s|
  {
    if s == [] then []
    else if s[0] != BACKSLASH then [s[0]] + Compress(s[1..])
    else if |s| == 1 then []
    else if OctalDigit(s[1]) then
      var n := OctalRun(s[1..], 3);
      [OctalValue(s[1..1 + n])] + Compress(s[1 + n..])
    else [Letter(s[1])] + Compress(s[2..])
  }

  /** The three octal digits of a byte. */
  function OctalDigits(b: Byte): (d: seq<Byte>) { [48 + b / 64, 48 + b / 8 % 8, 48 + b % 8] }

  lemma OctalDigitsValue(b: Byte)
    ensures OctalValue(OctalDigits(b)) == b
  {
    hide OctalValue;
    var x, y, z := b / 64, b / 8 % 8, b % 8;
    OctalSplit(b);
    ThreeDigits(48 + x, 48 + y, 48 + z);
    SmallModulo(64 * x + 8 * y + z);
  }

  lemma SmallModulo(n: int)
    requires 0 <= n < 256
    ensures n % 256 == n
  {
  }

  lemma OctalSplit(b: int)
    requires 0 <= b < 256
    ensures 64 * (b / 64) + 8 * (b / 8 % 8) + b % 8 == b
  {
    var q := b / 8;
    assert q / 8 == b / 64;
    assert b == 8 * q + b % 8 && q == 8 * (q / 8) + q % 8;
  }

  lemma OneDigit(a: Byte)
    requires OctalDigit(a)
    ensures OctalValue([a]) == a - 48
  {
    assert [a][..0] == [];
  }

  lemma TwoDigits(a: Byte, b: Byte)
    requires OctalDigit(a) && OctalDigit(b)
    ensures OctalValue([a, b]) == 8 * (a - 48) + (b - 48)
  {
    OneDigit(a);
    assert [a, b][..1] == [a];
  }

  lemma ThreeDigits(a: Byte, b: Byte, c: Byte)
    requires OctalDigit(a) && OctalDigit(b) && OctalDigit(c)
    ensures OctalValue([a, b, c]) == (64 * (a - 48) + 8 * (b - 48) + (c - 48)) % 256
  {
    TwoDigits(a, b);
    assert [a, b, c][..2] == [a, b];
  }

  lemma OctalDigitsRun(b: Byte, rest: seq<Byte>)
    ensures OctalRun(OctalDigits(b) + rest, 3) == 3
  {
    var d := OctalDigits(b);
    var s := d + rest;
    assert s[1..] == [d[1], d[2]] + rest && s[1..][1..] == [d[2]] + rest;
    assert OctalRun(s[1..][1..], 1) == 1 && OctalRun(s[1..], 2) == 2;
  }

  lemma CompressOctal(b: Byte, rest: seq<Byte>)
    ensures Compress(Octal(b) + rest) == [b] + Compress(rest)
  {
    OctalDigitsValue(b);
    OctalDigitsRun(b, rest);
    hide OctalValue, OctalRun;
    var s, d := Octal(b) + rest, OctalDigits(b);
    assert s[1..] == d + rest && s[1..4] == d && s[4..] == rest;
  }

  lemma CompressByte(b: Byte, rest: seq<Byte>, flags: Flags)
    ensures Compress(EscapeByte(b, flags) + rest) == [b] + Compress(rest)
  {
    if b == BACKSLASH {
      assert ([BACKSLASH, BACKSLASH] + rest)[2..] == rest;
    } else if Unwanted(b, flags) {
      CompressOctal(b, rest);
    } else {
      assert ([b] + rest)[1..] == rest;
    }
  }

  lemma {:induction false} CompressSpan(s: seq<Byte>, rest: seq<Byte>, flags: Flags)
    ensures Compress(EscapeSpan(s, flags) + rest) == s + Compress(rest)
  {
    hide Compress, EscapeByte;
    if s == [] {
      assert EscapeSpan(s, flags) + rest == rest;
    } else {
      CompressSpan(s[1..], rest, flags);
      CompressByte(s[0], EscapeSpan(s[1..], flags) + rest, flags);
      assert EscapeSpan(s, flags) + rest == EscapeByte(s[0], flags) + (EscapeSpan(s[1..], flags) + rest);
      assert [s[0]] + (s[1..] + Compress(rest)) == s + Compress(rest);
    }
  }

  lemma CompressNothing()
    ensures Compress([]) == []
  {
  }

  /** Unescaping the escaped text gives the input back, for every byte string and every flag set. */
  lemma {:induction false} UnescapeInvertsEscape(s: seq<Byte>, flags: Flags)
    ensures Compress(Escaped(s, flags)) == s
    decreases |s|
  {
    hide Compress, Octal, ValidPrefix, EscapeSpan;
    var p := ValidPrefix(s);
    if p == |s| {
      CompressSpan(s, [], flags);
      assert EscapeSpan(s, flags) + [] == EscapeSpan(s, flags) && s + [] == s;
      CompressNothing();
      assert s[..p] == s;
    } else {
      var rest := Octal(s[p]) + Escaped(s[p + 1..], flags);
      CompressSpan(s[..p], rest, flags);
      CompressOctal(s[p], Escaped(s[p + 1..], flags));
      UnescapeInvertsEscape(s[p + 1..], flags);
      assert s == s[..p] + ([s[p]] + s[p + 1..]);
    }
  }

  // ----- When nothing needs escaping

  predicate NeedsEscape(b: Byte, flags: Flags) { b == BACKSLASH || Unwanted(b, flags) }

  lemma {:induction false} SpanUnchanged(s: seq<Byte>, flags: Flags)
    ensures |EscapeSpan(s, flags)| >= |s|
    ensures EscapeSpan(s, flags) == s <==> forall i :: 0 <= i < |s| ==> !NeedsEscape(s[i], flags)
    ensures |EscapeSpan(s, flags)| == |s| ==> EscapeSpan(s, flags) == s
  {
    if s != [] {
      SpanUnchanged(s[1..], flags);
      assert s == [s[0]] + s[1..];
    }
  }

  lemma {:induction false} EscapedLonger(s: seq<Byte>, flags: Flags)
    ensures |Escaped(s, flags)| >= |s|
    decreases |s|
  {
    var p := ValidPrefix(s);
    SpanUnchanged(s[..p], flags);
    if p < |s| {
      EscapedLonger(s[p + 1..], flags);
    }
  }

  lemma UnchangedUnlessNeeded(s: seq<Byte>, flags: Flags)
    ensures Escaped(s, flags) == s <==> IsUtf8(s) && forall i :: 0 <= i < |s| ==> !NeedsEscape(s[i], flags)
  {
    hide EscapeSpan, IsUtf8, NeedsEscape, ValidPrefix;
    var p := ValidPrefix(s);
    SpanUnchanged(s[..p], flags);
    if p < |s| {
      EscapedLonger(s[p + 1..], flags);
    } else {
      assert s[..p] == s;
    }
  }

  /**
   * The text stays as it is exactly when it is valid UTF-8 without a backslash and without a byte that a flag is
   * about: control characters (with the bytes from 128 on where char is signed), and bytes from 127 on.
   */
  lemma EscapedUnchanged(s: seq<Byte>, flags: Flags)
    ensures Escaped(s, flags) == s <==>
            && IsUtf8(s)
            && forall b :: b in s ==>
                 && b != 92
                 && !(flags.ctrl && (b < 32 || (flags.charSigned && b >= 128)))
                 && !(flags.nonAscii && b >= 127)
  {
    UnchangedUnlessNeeded(s, flags);
    hide IsUtf8, Escaped;
    forall i | 0 <= i < |s| ensures s[i] in s {}
    forall b | b in s ensures exists i :: 0 <= i < |s| && s[i] == b {}
  }

  lemma {:induction false} EscapedSpanBytes(s: seq<Byte>, flags: Flags, b: Byte)
    requires b in EscapeSpan(s, flags)
    ensures b == BACKSLASH || OctalDigit(b) || (b in s && !Unwanted(b, flags))
  {
    assert s != [];
    assert EscapeSpan(s, flags) == EscapeByte(s[0], flags) + EscapeSpan(s[1..], flags);
    if b in EscapeSpan(s[1..], flags) {
      EscapedSpanBytes(s[1..], flags, b);
    }
  }

  lemma {:induction false} EscapedBytes(s: seq<Byte>, flags: Flags, b: Byte)
    requires b in Escaped(s, flags)
    ensures b == BACKSLASH || OctalDigit(b) || (b in s && !Unwanted(b, flags))
    decreases |s|
  {
    hide EscapeSpan, ValidPrefix, Unwanted;
    var p := ValidPrefix(s);
    if b in EscapeSpan(s[..p], flags) {
      EscapedSpanBytes(s[..p], flags, b);
    } else if p < |s| && b in Escaped(s[p + 1..], flags) {
      EscapedBytes(s[p + 1..], flags, b);
    }
  }

  /** A flag is kept: no byte that it is about is in the result. */
  lemma FlagsKept(s: seq<Byte>, flags: Flags)
    ensures flags.ctrl ==> forall b :: b in Escaped(s, flags) ==> b >= 32
    ensures flags.ctrl && flags.charSigned ==> forall b :: b in Escaped(s, flags) ==> b < 128
    ensures flags.nonAscii ==> forall b :: b in Escaped(s, flags) ==> b < 127
  {
    forall b | b in Escaped(s, flags)
      ensures b == BACKSLASH || OctalDigit(b) || (b in s && !Unwanted(b, flags))
    {
      EscapedBytes(s, flags, b);
    }
    hide Escaped;
  }

  lemma {:induction false} ValidPrefixConcat(a: seq<Byte>, s: seq<Byte>)
    requires IsUtf8(a)
    ensures ValidPrefix(a + s) == |a| + ValidPrefix(s)
    decreases |a|
  {
    hide CharLength;
    if a == [] {
      assert a + s == s;
    } else {
      var k := CharLength(a);
      CharLengthPrefix(a, s);
      ValidPrefixConcat(a[k..], s);
      assert (a + s)[k..] == a[k..] + s;
    }
  }

  /** Valid text is escaped for itself, whatever follows it. */
  lemma EscapedConcat(a: seq<Byte>, s: seq<Byte>, flags: Flags)
    requires IsUtf8(a)
    ensures Escaped(a + s, flags) == Escaped(a, flags) + Escaped(s, flags)
  {
    var p := ValidPrefix(s);
    ValidPrefixConcat(a, s);
    EscapedParts(s, flags);
    EscapedParts(a + s, flags);
    EscapedValid(a, flags);
    hide *;
    SpansConcat(a, s, flags, p);
    BehindConcat(a, s, flags, p);
    Regroup(Escaped(a + s, flags), EscapeSpan((a + s)[..|a| + p], flags), Escaped(s, flags), EscapeSpan(a, flags),
      EscapeSpan(s[..p], flags), Behind(s, flags, p));
  }

  lemma EscapedValid(a: seq<Byte>, flags: Flags)
    requires IsUtf8(a)
    ensures Escaped(a, flags) == EscapeSpan(a, flags)
  {
    assert ValidPrefix(a) == |a| && a[..|a|] == a;
    hide EscapeSpan, Octal, ValidPrefix, IsUtf8;
  }

  lemma Regroup<T>(whole: seq<T>, front: seq<T>, back: seq<T>, x: seq<T>, y: seq<T>, z: seq<T>)
    requires whole == front + z && front == x + y && back == y + z
    ensures whole == x + back
  {
  }

  lemma SpansConcat(a: seq<Byte>, s: seq<Byte>, flags: Flags, p: nat)
    requires p <= |s|
    ensures EscapeSpan((a + s)[..|a| + p], flags) == EscapeSpan(a, flags) + EscapeSpan(s[..p], flags)
  {
    EscapeSpanConcat(a, s[..p], flags);
    assert (a + s)[..|a| + p] == a + s[..p];
    hide EscapeSpan;
  }

  /** The escaped form from a malformed byte on. */
  function Behind(s: seq<Byte>, flags: Flags, p: nat): (r: seq<Byte>)
    requires p <= |s|
  {
    if p == |s| then [] else Octal(s[p]) + Escaped(s[p + 1..], flags)
  }

  lemma EscapedParts(s: seq<Byte>, flags: Flags)
    ensures Escaped(s, flags) == EscapeSpan(s[..ValidPrefix(s)], flags) + Behind(s, flags, ValidPrefix(s))
    ensures IsUtf8(s) ==> ValidPrefix(s) == |s|
  {
    hide EscapeSpan, Octal, CharLength;
  }

  lemma BehindConcat(a: seq<Byte>, s: seq<Byte>, flags: Flags, p: nat)
    requires p <= |s|
    ensures Behind(a + s, flags, |a| + p) == Behind(s, flags, p)
  {
    hide Escaped, Octal;
    if p < |s| {
      assert (a + s)[|a| + p + 1..] == s[p + 1..] && (a + s)[|a| + p] == s[p];
    }
  }

  /** A byte that starts no character is written in octal, and what follows it is escaped for itself. */
  lemma EscapedMalformed(s: seq<Byte>, flags: Flags)
    requires s != [] && CharLength(s) == 0
    ensures Escaped(s, flags) == [92, 48 + s[0] / 64, 48 + s[0] / 8 % 8, 48 + s[0] % 8] + Escaped(s[1..], flags)
  {
    assert ValidPrefix(s) == 0 && EscapeSpan(s[..0], flags) == [];
    hide ValidPrefix, EscapeSpan;
  }

  /** A character of one byte: backslashes are doubled, and what the flags are about is written in octal. */
  lemma EscapedAscii(b: Byte, flags: Flags)
    requires b < 128
    ensures Escaped([b], flags) ==
            if b == 92 then [92, 92]
            else if (flags.ctrl && b < 32) || (flags.nonAscii && b == 127) then
              [92, 48 + b / 64, 48 + b / 8 % 8, 48 + b % 8]
            else [b]
  {
    EscapedWhole([b], flags);
    assert EscapeSpan([b], flags) == EscapeByte(b, flags) + EscapeSpan([], flags);
  }

  lemma EscapedWhole(c: seq<Byte>, flags: Flags)
    requires c != [] && CharLength(c) == |c|
    ensures Escaped(c, flags) == EscapeSpan(c, flags)
  {
    assert IsUtf8(c[|c|..]) && IsUtf8(c);
    EscapedValid(c, flags);
    hide IsUtf8, CharLength, Escaped, EscapeSpan;
  }

  /** With no flags set, valid UTF-8 without backslashes is left alone. */
  lemma PlainUtf8Unchanged(s: seq<Byte>, charSigned: bool)
    requires IsUtf8(s) && BACKSLASH !in s
    ensures Escaped(s, Flags(false, false, charSigned)) == s
  {
    EscapedUnchanged(s, Flags(false, false, charSigned));
  }

  // ----- Unescaping in full

  /** Text up to a backslash is copied. */
  lemma UnescapedPlain(b: Byte, rest: seq<Byte>)
    requires b != 92
    ensures Compress([b] + rest) == [b] + Compress(rest)
  {
    assert ([b] + rest)[1..] == rest;
  }

  /** Behind a backslash six letters stand for control characters, and what is no octal digit stands for itself. */
  lemma UnescapedLetter(b: Byte, rest: seq<Byte>)
    requires !(48 <= b <= 55)
    ensures Compress([92, b] + rest) ==
            [if b == 98 then 8 else if b == 102 then 12 else if b == 110 then 10
             else if b == 114 then 13 else if b == 116 then 9 else if b == 118 then 11 else b] + Compress(rest)
    ensures Compress([92]) == []
  {
    assert ([92, b] + rest)[2..] == rest;
  }

  /** Three octal digits stand for a byte. */
  lemma UnescapedOctal(a: Byte, b: Byte, c: Byte, rest: seq<Byte>)
    requires 48 <= a <= 55 && 48 <= b <= 55 && 48 <= c <= 55
    ensures Compress([92, a, b, c] + rest) == [(64 * (a - 48) + 8 * (b - 48) + (c - 48)) % 256] + Compress(rest)
  {
    hide Compress, OctalValue;
    ThreeDigits(a, b, c);
    OctalRead([92, a, b, c], [a, b, c], rest);
  }

  /** And so do two, if no third one follows. */
  lemma UnescapedTwoOctal(a: Byte, b: Byte, rest: seq<Byte>)
    requires 48 <= a <= 55 && 48 <= b <= 55 && (rest == [] || !(48 <= rest[0] <= 55))
    ensures Compress([92, a, b] + rest) == [8 * (a - 48) + (b - 48)] + Compress(rest)
  {
    hide Compress, OctalValue;
    TwoDigits(a, b);
    OctalRead([92, a, b], [a, b], rest);
  }

  /** Or one. */
  lemma UnescapedOneOctal(a: Byte, rest: seq<Byte>)
    requires 48 <= a <= 55 && (rest == [] || !(48 <= rest[0] <= 55))
    ensures Compress([92, a] + rest) == [a - 48] + Compress(rest)
  {
    hide Compress, OctalValue;
    OneDigit(a);
    OctalRead([92, a], [a], rest);
  }

  lemma {:induction false} RunOfDigits(digits: seq<Byte>, rest: seq<Byte>, limit: nat)
    requires |digits| <= limit && forall i :: 0 <= i < |digits| ==> OctalDigit(digits[i])
    requires |digits| == limit || rest == [] || !OctalDigit(rest[0])
    ensures OctalRun(digits + rest, limit) == |digits|
  {
    if digits == [] {
      assert digits + rest == rest;
    } else {
      RunOfDigits(digits[1..], rest, limit - 1);
      assert (digits + rest)[1..] == digits[1..] + rest;
    }
  }

  lemma OctalRead(text: seq<Byte>, digits: seq<Byte>, rest: seq<Byte>)
    requires 0 < |digits| <= 3 && forall i :: 0 <= i < |digits| ==> OctalDigit(digits[i])
    requires |digits| == 3 || rest == [] || !OctalDigit(rest[0])
    requires text == [92] + digits
    ensures Compress(text + rest) == [OctalValue(digits)] + Compress(rest)
  {
    var s := text + rest;
    RunOfDigits(digits, rest, 3);
    assert s[0] == 92 && |s| > 1 && s[1] == digits[0];
    assert s[1..] == digits + rest && s[1..1 + |digits|] == digits && s[1 + |digits|..] == rest;
    hide OctalValue, OctalRun;
    CompressRun(s, |digits|);
  }

  lemma CompressRun(s: seq<Byte>, n: nat)
    requires |s| > 1 && s[0] == 92 && OctalDigit(s[1]) && n == OctalRun(s[1..], 3)
    ensures Compress(s) == [OctalValue(s[1..1 + n])] + Compress(s[1 + n..])
  {
    hide OctalValue, OctalRun;
  }

  // ----- The C functions

  /**
   * The escaped form of `str`. A copy is made exactly when the escaped form differs; otherwise the
   * input itself is returned.
   */
  method Utf8SafeEscape(str: Option<seq<Byte>>, flags: Flags) returns (result: Option<seq<Byte>>, copied: bool)
    ensures result.Some? <==> str.Some?
    ensures str.Some? ==>
            result.value == Escaped(str.value, flags) && IsUtf8(result.value) && Compress(result.value) == str.value
    ensures copied <==> result != str
  {
    if str.None? { return str, false; }
    var s := str.value;
    EscapedIsUtf8(s, flags);
    UnescapeInvertsEscape(s, flags);
    UnchangedUnlessNeeded(s, flags);
    var p := ValidPrefix(s);
    if s == [] || (p == |s| && forall i :: 0 <= i < |s| ==> !NeedsEscape(s[i], flags)) {
      return str, false;
    }
    var copy := EscapeCopy(s, flags, p);
    result, copied := Some(copy), true;
  }

  /** The loop of the escaper, from the end `end` of the first valid span. */
  method EscapeCopy(s: seq<Byte>, flags: Flags, end: nat) returns (out: seq<Byte>)
    requires end == ValidPrefix(s)
    ensures out == Escaped(s, flags)
  {
    hide Escaped, EscapeSpan, Octal, IsUtf8, CharLength, ValidPrefix, Pending, Emitted;
    var i, p := 0, end;
    out := [];
    EmissionStarts(s, flags);
    while true
      invariant i <= p <= |s| && Emitted(s, flags, out, i, p)
      decreases |s| - p
    {
      while i < p
        invariant i <= p && Emitted(s, flags, out, i, p)
      {
        EmitByte(s, flags, out, i, p);
        var ch := s[i];
        if ch == BACKSLASH {
          out := out + [BACKSLASH, BACKSLASH];
        } else if Unwanted(ch, flags) {
          out := out + Octal(ch);
        } else {
          out := out + [ch];
        }
        i := i + 1;
      }
      if p == |s| { break; }
      EmitMalformed(s, flags, out, p);
      out := out + Octal(s[p]);
      i := p + 1;
      p := i + ValidPrefix(s[i..]);
    }
    EmissionEnds(s, flags, out);
  }

  /** What is still to be written from byte `i` on, inside a valid span that ends at `p`. */
  function Pending(s: seq<Byte>, flags: Flags, i: nat, p: nat): (r: seq<Byte>)
    requires i <= p <= |s|
  {
    EscapeSpan(s[i..p], flags) + if p == |s| then [] else Octal(s[p]) + Escaped(s[p + 1..], flags)
  }

  lemma PendingByte(s: seq<Byte>, flags: Flags, i: nat, p: nat)
    requires i < p <= |s|
    ensures Pending(s, flags, i, p) == EscapeByte(s[i], flags) + Pending(s, flags, i + 1, p)
  {
    hide Escaped, EscapeByte, Octal;
    assert s[i..p][1..] == s[i + 1..p];
  }

  lemma PendingMalformed(s: seq<Byte>, flags: Flags, p: nat)
    requires p < |s|
    ensures Pending(s, flags, p, p) == Octal(s[p]) + Pending(s, flags, p + 1, p + 1 + ValidPrefix(s[p + 1..]))
  {
    hide EscapeByte, Octal, IsUtf8, CharLength, ValidPrefix;
    var tail := s[p + 1..];
    var n := ValidPrefix(tail);
    assert EscapeSpan(s[p..p], flags) == [];
    assert tail[..n] == s[p + 1..p + 1 + n];
    if n < |tail| {
      assert tail[n + 1..] == s[p + 1 + n + 1..] && tail[n] == s[p + 1 + n];
    }
    assert Escaped(tail, flags) == Pending(s, flags, p + 1, p + 1 + n);
  }

  /** `out` holds the escaped form up to byte `i` of the valid span that ends at `p`. */
  ghost predicate Emitted(s: seq<Byte>, flags: Flags, out: seq<Byte>, i: nat, p: nat)
    requires i <= p <= |s|
  {
    Escaped(s, flags) == out + Pending(s, flags, i, p)
  }

  lemma EmissionStarts(s: seq<Byte>, flags: Flags)
    ensures Emitted(s, flags, [], 0, ValidPrefix(s))
  {
    hide EscapeByte, Octal, IsUtf8, CharLength, ValidPrefix;
    assert s[0..ValidPrefix(s)] == s[..ValidPrefix(s)];
    assert [] + Pending(s, flags, 0, ValidPrefix(s)) == Pending(s, flags, 0, ValidPrefix(s));
  }

  lemma EmitByte(s: seq<Byte>, flags: Flags, out: seq<Byte>, i: nat, p: nat)
    requires i < p <= |s| && Emitted(s, flags, out, i, p)
    ensures Emitted(s, flags, out + EscapeByte(s[i], flags), i + 1, p)
  {
    hide Escaped, EscapeByte, Pending;
    PendingByte(s, flags, i, p);
    var b, rest := EscapeByte(s[i], flags), Pending(s, flags, i + 1, p);
    assert out + (b + rest) == (out + b) + rest;
  }

  lemma EmitMalformed(s: seq<Byte>, flags: Flags, out: seq<Byte>, p: nat)
    requires p < |s| && Emitted(s, flags, out, p, p)
    ensures Emitted(s, flags, out + Octal(s[p]), p + 1, p + 1 + ValidPrefix(s[p + 1..]))
  {
    hide Escaped, Octal, Pending, ValidPrefix;
    PendingMalformed(s, flags, p);
    var b, rest := Octal(s[p]), Pending(s, flags, p + 1, p + 1 + ValidPrefix(s[p + 1..]));
    assert out + (b + rest) == (out + b) + rest;
  }

  lemma EmissionEnds(s: seq<Byte>, flags: Flags, out: seq<Byte>)
    requires Emitted(s, flags, out, |s|, |s|)
    ensures out == Escaped(s, flags)
  {
    hide Escaped;
    assert s[|s|..|s|] == [];
    assert out + ([] + []) == out;
  }

  lemma {:induction false} CompressWithoutBackslash(s: seq<Byte>)
    requires BACKSLASH !in s
    ensures Compress(s) == s
  {
    if s != [] {
      CompressWithoutBackslash(s[1..]);
    }
  }

  /** Text without a backslash is returned as it is. */
  method Utf8SafeUnescape(str: Option<seq<Byte>>) returns (result: Option<seq<Byte>>, copied: bool)
    ensures result.Some? <==> str.Some?
    ensures str.Some? ==> result.value == Compress(str.value)
    ensures copied <==> str.Some? && BACKSLASH in str.value
  {
    if str.None? || BACKSLASH !in str.value {
      if str.Some? { CompressWithoutBackslash(str.value); }
      return str, false;
    }
    return Some(Compress(str.value)), true;
  }
}
