/** The check of the port property, and what it lets through into the request. */
module Properties {
  import opened Basics
  import opened Generator
  import opened Glib
  import opened Numerals

  const LONG_MAX := 0x7FFF_FFFF_FFFF_FFFF

  /** isspace in the C locale, with the vertical tab. */
  predicate IsBlank(c: char) { '\U{0009}' <= c <= '\U{000D}' || c == ' ' }

  function SkipBlanks(s: string): (r: string) {
    if s != "" && IsBlank(s[0]) then SkipBlanks(s[1..]) else s
  }

  function SkipSign(s: string): (r: string) {
    if s != "" && s[0] in {'+', '-'} then s[1..] else s
  }

  /** The number of digits in front. */
  function Digits(s: string): (n: nat)
    ensures n <= |s| && AllDigits(s[..n])
    ensures n < |s| ==> !IsDigit(s[n])
  {
    if s == "" || !IsDigit(s[0]) then 0 else
      var n := Digits(s[1..]);
      assert forall i :: 0 < i <= n ==> s[i] == s[1..][i - 1];
      1 + n
  }

  /** strtol with base 10, which clamps to the range of a long; 0 without digits. */
  function Strtol(s: string): (v: int) {
    var t := SkipBlanks(s);
    var u := SkipSign(t);
    var v: int := DecimalValue(u[..Digits(u)]);
    if t != "" && t[0] == '-' then (if v > LONG_MAX then -LONG_MAX - 1 else -v)
    else if v > LONG_MAX then LONG_MAX
    else v
  }

  predicate IsValidPort(s: string) { 0 < Strtol(s) <= 65535 }

  /** What stands behind the number and is not looked at. */
  function Tail(s: string): (r: string) {
    var u := SkipSign(SkipBlanks(s));
    u[Digits(u)..]
  }

  lemma {:induction false} DigitsOfSum(s: string, tail: string)
    requires AllDigits(s) && (tail == "" || !IsDigit(tail[0]))
    ensures Digits(s + tail) == |s|
  {
    if s == "" {
      assert s + tail == tail;
    } else {
      DigitsOfSum(s[1..], tail);
      assert (s + tail)[1..] == s[1..] + tail;
    }
  }

  /** A number goes through the check with anything behind it. */
  lemma CheckIgnoresTail(number: string, tail: string)
    requires number != "" && AllDigits(number) && (tail == "" || !IsDigit(tail[0]))
    ensures IsValidPort(number + tail) <==> 0 < DecimalValue(number) <= 65535
    ensures Tail(number + tail) == tail
  {
    var s := number + tail;
    assert s[0] == number[0];
    assert SkipBlanks(s) == s && SkipSign(s) == s;
    DigitsOfSum(number, tail);
    assert s[..|number|] == number && s[|number|..] == tail;
    hide SkipBlanks, SkipSign, Digits, DecimalValue, AllDigits;
  }

  predicate IsSign(s: string) { s in {"", "+", "-"} }

  lemma {:induction false} SkipsBlanks(blanks: string, rest: string)
    requires (forall i :: 0 <= i < |blanks| ==> blanks[i] in {' ', '\t', '\n', '\r', '\U{000B}', '\U{000C}'})
    requires rest == "" || rest[0] !in {' ', '\t', '\n', '\r', '\U{000B}', '\U{000C}'}
    ensures SkipBlanks(blanks + rest) == rest
  {
    if blanks == "" {
      assert blanks + rest == rest;
    } else {
      SkipsBlanks(blanks[1..], rest);
      assert (blanks + rest)[1..] == blanks[1..] + rest;
    }
  }

  /**
   * The check in full: it passes blanks, a sign other than a minus, and digits whose value is a port, and looks at
   * nothing behind them.
   */
  lemma PortCheckExactly(blanks: string, sign: string, number: string, tail: string)
    requires forall i :: 0 <= i < |blanks| ==> blanks[i] in {' ', '\t', '\n', '\r', '\U{000B}', '\U{000C}'}
    requires IsSign(sign) && AllDigits(number) && (tail == "" || !IsDigit(tail[0]))
    requires sign == "" && number == "" && tail != "" ==>
               tail[0] !in {' ', '\t', '\n', '\r', '\U{000B}', '\U{000C}', '+', '-'}
    ensures IsValidPort(blanks + sign + number + tail) <==> sign != "-" && 0 < DecimalValue(number) <= 65535
    ensures Tail(blanks + sign + number + tail) == tail
  {
    var rest := sign + (number + tail);
    assert rest != "" ==> rest[0] == if sign != "" then sign[0] else (number + tail)[0];
    SkipsBlanks(blanks, rest);
    SignSkipped(sign, number + tail);
    DigitsOfSum(number, tail);
    Slices(number, tail);
    hide SkipBlanks, SkipSign, Digits, DecimalValue, AllDigits, IsValidPort, Tail;
    CheckedParts(blanks + rest, rest, number + tail, number);
    Associates(blanks, sign, number, tail);
  }

  lemma Associates(a: string, b: string, c: string, d: string)
    ensures a + b + c + d == a + (b + (c + d))
  {
  }

  lemma Slices(a: string, b: string)
    ensures (a + b)[..|a|] == a && (a + b)[|a|..] == b
  {
  }

  lemma CheckedParts(s: string, t: string, u: string, number: string)
    requires SkipBlanks(s) == t && SkipSign(t) == u
    requires Digits(u) == |number| && u[..|number|] == number && AllDigits(number)
    ensures IsValidPort(s) <==> !(t != "" && t[0] == '-') && 0 < DecimalValue(number) <= 65535
    ensures Tail(s) == u[|number|..]
  {
    hide SkipBlanks, SkipSign, Digits, DecimalValue, AllDigits;
  }

  lemma SignSkipped(sign: string, rest: string)
    requires IsSign(sign) && (sign == "" && rest != "" ==> rest[0] !in {'+', '-'})
    ensures SkipSign(sign + rest) == rest
    ensures sign + rest != "" && (sign + rest)[0] == '-' <==> sign == "-"
  {
    if sign == "" {
      assert sign + rest == rest;
    } else {
      assert (sign + rest)[1..] == rest;
    }
  }

  lemma {:induction false} BlanksInFront(s: string)
    ensures |SkipBlanks(s)| <= |s| && s[|s| - |SkipBlanks(s)|..] == SkipBlanks(s)
    ensures s != "" && IsBlank(s[0]) <==> |SkipBlanks(s)| < |s|
  {
    if s != "" && IsBlank(s[0]) {
      BlanksInFront(s[1..]);
    }
  }

  lemma HeadIsPlain(u: string, n: nat)
    requires n <= |u| && AllDigits(u[..n])
    ensures IsPlainPort(u[..n])
  {}

  lemma PlainOfSum(a: string, b: string)
    ensures IsPlainPort(a + b) <==> IsPlainPort(a) && IsPlainPort(b)
  {
    QueryOfSum(a, b);
    assert Free(a + b, MARKS) ==> forall i :: 0 <= i < |a| ==> a[i] == (a + b)[i];
    assert Free(a + b, MARKS) ==> forall i :: 0 <= i < |b| ==> b[i] == (a + b)[|a| + i];
  }

  /** A port is plain exactly when nothing blank stands in front of it and its tail is plain. */
  lemma PlainByTail(s: string)
    ensures IsPlainPort(s) <==> (s == "" || !IsBlank(s[0])) && IsPlainPort(Tail(s))
  {
    BlanksInFront(s);
    var t := SkipBlanks(s);
    var u := SkipSign(t);
    if |t| == |s| {
      assert t == s;
      HeadIsPlain(u, Digits(u));
      assert u == u[..Digits(u)] + Tail(s);
      PlainOfSum(u[..Digits(u)], Tail(s));
      if |u| < |s| {
        assert s == [s[0]] + u;
        PlainOfSum([s[0]], u);
      }
    } else {
      assert !IsQueryChar(s[0]);
    }
  }

  /**
   * Of the ports that go through the check, those reach the generator that do not begin with a blank and
   * whose unchecked tail is plain.
   */
  lemma CheckedPortReadsBack(p: Params)
    requires IsRequest(p) && IsProtocol(Effective(p).protocol) && IsValidPort(Effective(p).port)
    ensures ReadUrl(GeneratorUrl(p)) == Some(Effective(p)) <==>
            !IsBlank(Effective(p).port[0]) && IsPlainPort(Tail(Effective(p).port))
  {
    UrlReadsBack(p);
    PlainByTail(Effective(p).port);
    hide GeneratorUrl, ReadUrl, Effective, IsPlainPort, IsProtocol, Tail;
  }

  /** The check takes `443#x`, and with it the request arrives without its server. */
  lemma HashPassesCheck(p: Params)
    requires IsRequest(p) && IsProtocol(Effective(p).protocol) && Effective(p).port == "443#x"
    ensures IsValidPort("443#x")
    ensures ReadUrl(GeneratorUrl(p)) == Some(Request("", "", Effective(p).protocol, "443", ""))
  {
    DefaultPortFacts();
    CheckIgnoresTail(DEFAULT_PORT, "#x");
    FirstOfFree(DEFAULT_PORT, "#x", ENDS);
    assert DEFAULT_PORT + "#x" == "443#x";
    hide GeneratorUrl, ReadUrl, Effective, IsProtocol, IsPlainPort, FirstOf, IsValidPort, DecimalValue, Tail;
    HashLosesTheRest(p);
  }

  lemma DefaultPortFacts()
    ensures AllDigits(DEFAULT_PORT) && Free(DEFAULT_PORT, ENDS) && IsPlainPort(DEFAULT_PORT)
    ensures DecimalValue(DEFAULT_PORT) == 443
  {
    assert "443"[..2] == "44" && "44"[..1] == "4" && "4"[..0] == "";
  }
}
