/** Appending to a buffer of fixed size: `nm_utils_strbuf_append*` and the two printers built on them. */
module StrBuf {
  import opened Basics
  import opened CString
  import opened Glib
  import opened Numerals

  /** What a buffer of `size` bytes can show of `text`: all but one byte is for characters. */
  function Truncated(text: string, size: nat): (r: string)
    requires size > 0
  {
    if |text| < size then text else text[..size - 1]
  }

  /**
   * The window of `size` bytes at `start` shows `text`, with the cursor at `at` and `len` bytes to go.
   * A window not yet `terminated` lacks only its NUL.
   */
  ghost predicate Shows(mem: seq<char>, start: nat, size: nat, at: nat, len: nat, text: string, terminated: bool) {
    && start + size <= |mem| && at + len == start + size && start <= at
    && (size > 0 ==>
          if |text| < size then
            && at == start + |text|
            && (forall k :: 0 <= k < |text| ==> mem[start + k] == text[k])
            && (terminated ==> mem[at] == NUL)
          else
            && len == 0 && terminated
            && (forall k :: 0 <= k < size - 1 ==> mem[start + k] == text[k])
            && mem[start + size - 1] == NUL)
  }

  /** A full window shows the truncated text as a C string, and reports 0 bytes left exactly when text was lost. */
  lemma ShowsTruncated(mem: seq<char>, start: nat, size: nat, at: nat, len: nat, text: string)
    requires size > 0 && Shows(mem, start, size, at, len, text, true) && IsText(text)
    ensures Holds(mem, start, Truncated(text, size))
    ensures TextAt(mem, start) == Truncated(text, size)
    ensures len == 0 <==> Truncated(text, size) != text
  {
    HoldsIsTextAt(mem, start, Truncated(text, size));
  }

  /** The C pair of a write pointer and the bytes left behind it. */
  class Cursor {
    const mem: array<char>
    const start: nat
    const size: nat
    var at: nat
    var len: nat
    ghost var text: string
    ghost var terminated: bool

    ghost predicate Valid()
      reads this, mem
    {
      Shows(mem[..], start, size, at, len, text, terminated)
    }

    /** A cursor over the bytes from `start` to the end of `mem`, which hold nothing yet. */
    constructor (mem: array<char>, start: nat)
      requires start <= mem.Length
      ensures Valid() && text == "" && !terminated
      ensures this.mem == mem && this.start == start && size == mem.Length - start && at == start && len == size
    {
      this.mem, this.start, this.size := mem, start, mem.Length - start;
      at, len := start, mem.Length - start;
      text, terminated := "", false;
    }

    /** Bytes outside the window stay as they are. */
    twostate predicate OnlyWindow()
      reads this, mem
    {
      forall k :: 0 <= k < start && k < mem.Length ==> mem[k] == old(mem[k])
    }

    method AppendC(c: char)
      requires Valid()
      modifies this, mem
      ensures Valid() && text == old(text) + [c] && (size > 0 ==> terminated) && OnlyWindow()
    {
      ghost var before := mem[..];
      if len == 0 {
      } else if len == 1 {
        mem[at] := NUL;
        len := 0;
        at := at + 1;
        assert mem[..] == before[at - 1 := NUL];
      } else {
        mem[at] := c;
        mem[at + 1] := NUL;
        len := len - 1;
        at := at + 1;
        assert mem[..] == before[at - 1 := c][at := NUL];
      }
      text := text + [c];
      terminated := terminated || size > 0;
    }

    /** g_strlcpy onto the cursor: as much of `s` as fits, then NUL; the full length of `s` is returned. */
    method StrLCpy(s: string) returns (n: nat)
      requires len > 0 && at + len == mem.Length
      modifies mem
      ensures n == |s|
      ensures forall k :: 0 <= k < mem.Length ==>
                mem[k] == if k < at then old(mem[k])
                          else if k < at + |Truncated(s, len)| then s[k - at]
                          else if k == at + |Truncated(s, len)| then NUL
                          else old(mem[k])
    {
      var i := 0;
      while i < |s| && i + 1 < len
        invariant 0 <= i <= |s| && i < len
        invariant forall k :: 0 <= k < mem.Length ==>
                    mem[k] == if k < at then old(mem[k]) else if k < at + i then s[k - at] else old(mem[k])
      {
        mem[at + i] := s[i];
        i := i + 1;
      }
      mem[at + i] := NUL;
      return |s|;
    }

    method AppendStr(str: Option<string>)
      requires Valid() && start + size == mem.Length
      modifies this, mem
      ensures Valid() && text == old(text) + str.GetOr("") && (size > 0 ==> terminated) && OnlyWindow()
    {
      ghost var s, before := str.GetOr(""), mem[..];
      if len == 0 {
      } else if str.None? || str.value == "" {
        mem[at] := NUL;
        assert mem[..] == before[at := NUL];
      } else if len == 1 {
        mem[at] := NUL;
        len := 0;
        at := at + 1;
        assert mem[..] == before[at - 1 := NUL];
      } else {
        Print(str.value);
        return;
      }
      ShowsGrows(before, mem[..], start, size, old(at), old(len), text, terminated, s);
      text := text + s;
      terminated := terminated || size > 0;
    }

    /** The formatted variant; `s` is the text that the format and its arguments produce. */
    method Append(s: string)
      requires Valid() && start + size == mem.Length
      modifies this, mem
      ensures Valid() && text == old(text) + s && (size > 0 ==> terminated) && OnlyWindow()
    {
      if len == 0 {
        text := text + s;
        return;
      }
      Print(s);
    }

    /** Writes what fits of `s` and advances the cursor, to the end of the window when `s` does not fit. */
    method Print(s: string)
      requires Valid() && len > 0 && start + size == mem.Length
      modifies this, mem
      ensures Valid() && text == old(text) + s && terminated && OnlyWindow()
    {
      ghost var before := mem[..];
      var n := StrLCpy(s);
      ShowsGrows(before, mem[..], start, size, at, len, text, terminated, s);
      if n >= len {
        at := at + len;
        len := 0;
      } else {
        at := at + n;
        len := len - n;
      }
      text := text + s;
      terminated := true;
    }
  }

  /** The bytes after appending `s` at the cursor, whichever branch wrote them. */
  ghost predicate Appended(before: seq<char>, after: seq<char>, at: nat, len: nat, s: string) {
    && |after| == |before|
    && forall k :: 0 <= k < |after| ==>
         after[k] == if len == 0 || k < at then before[k]
                     else if k < at + |Truncated(s, len)| then s[k - at]
                     else if k == at + |Truncated(s, len)| then NUL
                     else before[k]
  }

  lemma ShowsGrows(before: seq<char>, after: seq<char>, start: nat, size: nat, at: nat, len: nat, text: string,
      terminated: bool, s: string)
    requires Shows(before, start, size, at, len, text, terminated) && start + size == |before|
    requires Appended(before, after, at, len, s)
    ensures Shows(after, start, size, if |s| < len then at + |s| else at + len, if |s| < len then len - |s| else 0,
                  text + s, terminated || size > 0)
  {
    var text' := text + s;
    forall k | 0 <= k < |text'| && k < (if |text'| < size then size else size - 1)
      ensures after[start + k] == text'[k]
    {
      if len > 0 {
        assert k < |text| ==> before[start + k] == text[k];
      }
    }
  }

  /** `str` in double quotes, with a closing `^` and the last characters missing when it does not fit. */
  function Quoted(str: Option<string>, size: nat): (r: string)
    requires size > 0
  {
    match str
    case None => Truncated("(null)", size)
    case Some(s) =>
      var full := "\"" + s + "\"";
      if |full| < size then full
      else if size == 1 then ""
      else full[..size - 2] + "^"
  }

  /** The closing character tells whether the string was cut; the result always fits. */
  lemma QuotedMarksTruncation(s: string, size: nat)
    requires size >= 2
    ensures var r, full := Quoted(Some(s), size), "\"" + s + "\"";
            && 0 < |r| < size
            && (r[|r| - 1] == '^' <==> |full| >= size)
            && (r[|r| - 1] == '"' <==> |full| < size)
            && r[..|r| - 1] == full[..|r| - 1]
    ensures size > 6 ==> Quoted(None, size) == "(null)"
  {
  }

  method StrQuote(buf: array<char>, str: Option<string>)
    requires str.Some? ==> IsText(str.value)
    modifies buf
    ensures buf.Length > 0 ==> Holds(buf[..], 0, Quoted(str, buf.Length))
  {
    if str.None? {
      var cursor := new Cursor(buf, 0);
      cursor.AppendStr(Some("(null)"));
      assert cursor.text == "(null)";
      if buf.Length > 0 { ShowsTruncated(buf[..], 0, buf.Length, cursor.at, cursor.len, "(null)"); }
      return;
    }
    if buf.Length <= 2 {
      var p := 0;
      if buf.Length == 2 {
        buf[p] := '^';
        p := p + 1;
      }
      if buf.Length >= 1 { buf[p] := NUL; }
      return;
    }
    buf[0] := '"';
    var cursor := new Cursor(buf, 1);
    cursor.AppendStr(str);
    assert cursor.text == str.value;
    CloseQuote(buf, cursor.at, cursor.len, str.value);
  }

  /** The closing quote, or `^` in the place of the last character that fits. */
  method CloseQuote(buf: array<char>, at: nat, len: nat, ghost s: string)
    requires buf.Length > 2 && IsText(s) && buf[0] == '"'
    requires Shows(buf[..], 1, buf.Length - 1, at, len, s, true)
    modifies buf
    ensures Holds(buf[..], 0, Quoted(Some(s), buf.Length))
  {
    hide Quoted, IsText;
    ghost var shown := buf[..];
    if len == 1 {
      buf[at - 1] := '^';
      assert buf[..] == shown[at - 1 := '^'];
    } else if len == 0 {
      buf[at - 2] := '^';
      assert buf[..] == shown[at - 2 := '^'];
    } else {
      buf[at] := '"';
      buf[at + 1] := NUL;
      assert buf[..] == shown[at := '"'][at + 1 := NUL];
    }
    QuoteCloses(shown, buf[..], at, len, s);
  }

  lemma QuoteCloses(shown: seq<char>, after: seq<char>, at: nat, len: nat, s: string)
    requires |shown| > 2 && IsText(s) && shown[0] == '"'
    requires Shows(shown, 1, |shown| - 1, at, len, s, true)
    requires after == if len == 1 then shown[at - 1 := '^']
                      else if len == 0 then shown[at - 2 := '^']
                      else shown[at := '"'][at + 1 := NUL]
    ensures Holds(after, 0, Quoted(Some(s), |shown|))
  {
    var r := Quoted(Some(s), |shown|);
    forall k | 0 <= k < |r| ensures after[0 + k] == r[k] != NUL {
      if 0 < k < |r| - 1 {
        assert shown[1 + (k - 1)] == s[k - 1];
      }
    }
  }

  /** A flag and its name. */
  datatype FlagDesc = FlagDesc(flag: bv32, name: string)

  // The bit operations have names of their own, so that proofs can hide them.

  predicate Has(flags: bv32, flag: bv32) { flags & flag == flag }

  predicate Disjoint(a: bv32, b: bv32) { a & b == 0 }

  function Without(flags: bv32, flag: bv32): (r: bv32) { flags & !flag }

  function Both(a: bv32, b: bv32): (r: bv32) { a | b }

  /** The descriptors whose bits are taken from `flags`, in order, and the bits that no one takes. */
  function Chosen(descs: seq<FlagDesc>, flags: bv32): (r: (seq<FlagDesc>, bv32)) {
    if flags == 0 || descs == [] then ([], flags)
    else
      var d := descs[0];
      if d.flag != 0 && Has(flags, d.flag) then
        var (chosen, residue) := Chosen(descs[1..], Without(flags, d.flag));
        ([d] + chosen, residue)
      else Chosen(descs[1..], flags)
  }

  function Union(descs: seq<FlagDesc>): (bits: bv32) {
    if descs == [] then 0 else Both(descs[0].flag, Union(descs[1..]))
  }

  lemma BothHas(a: bv32, b: bv32, c: bv32)
    ensures Has(Both(a, b), a)
    ensures Has(b, c) ==> Has(Both(a, b), c)
  {}

  lemma BothAssociative(a: bv32, b: bv32, c: bv32)
    ensures Both(Both(a, b), c) == Both(a, Both(b, c))
  {}

  lemma PutBack(flags: bv32, flag: bv32)
    requires Has(flags, flag)
    ensures Both(flag, Without(flags, flag)) == flags
  {
    assert flag | (flags & !flag) == flags | flag;
  }

  lemma WithoutDisjoint(flags: bv32, flag: bv32, a: bv32, b: bv32)
    requires Both(a, b) == Without(flags, flag)
    ensures Disjoint(flag, a) && Disjoint(flag, b)
  {
    assert (a | b) & flag == 0;
    assert (a | b) & flag == (a & flag) | (b & flag);
  }

  lemma BothDisjoint(a: bv32, b: bv32, c: bv32)
    requires Disjoint(a, c) && Disjoint(b, c)
    ensures Disjoint(Both(a, b), c)
    ensures a != 0 ==> !Has(c, a)
  {
    assert (a | b) & c == (a & c) | (b & c);
  }

  lemma TakeFlag(flags: bv32, flag: bv32, union: bv32, residue: bv32)
    requires Has(flags, flag) && Both(union, residue) == Without(flags, flag) && Disjoint(union, residue)
    ensures Both(Both(flag, union), residue) == flags
    ensures Disjoint(flag, union)
    ensures Disjoint(Both(flag, union), residue)
    ensures flag != 0 ==> !Has(residue, flag)
  {
    hide Has, Both, Disjoint, Without;
    BothAssociative(flag, union, residue);
    PutBack(flags, flag);
    WithoutDisjoint(flags, flag, union, residue);
    BothDisjoint(flag, union, residue);
  }

  lemma DisjointPart(flag: bv32, union: bv32, other: bv32)
    requires Disjoint(flag, union) && Has(union, other)
    ensures Disjoint(flag, other)
  {}

  lemma NotInPart(flags: bv32, union: bv32, residue: bv32, flag: bv32)
    requires Both(union, residue) == flags && !Has(flags, flag)
    ensures !Has(residue, flag)
  {}

  lemma NothingTaken(flags: bv32, flag: bv32)
    ensures Both(0, flags) == flags && Disjoint(0, flags)
    ensures flag != 0 ==> !Has(0, flag)
  {}

  lemma {:induction false} UnionCovers(descs: seq<FlagDesc>, d: FlagDesc)
    requires d in descs
    ensures Has(Union(descs), d.flag)
  {
    hide Has, Both;
    BothHas(descs[0].flag, Union(descs[1..]), d.flag);
    if d != descs[0] {
      assert d in descs[1..];
      UnionCovers(descs[1..], d);
    }
  }

  /**
   * The chosen flags are pairwise disjoint and, with the residue, make up exactly the input; no
   * nonzero descriptor is left wholly inside the residue.
   */
  lemma {:induction false} ChosenPartitions(descs: seq<FlagDesc>, flags: bv32)
    ensures var (chosen, residue) := Chosen(descs, flags);
            && Both(Union(chosen), residue) == flags
            && Disjoint(Union(chosen), residue)
            && (forall i, j :: 0 <= i < j < |chosen| ==> Disjoint(chosen[i].flag, chosen[j].flag))
            && (forall d :: d in descs && d.flag != 0 ==> !Has(residue, d.flag))
  {
    hide Has, Both, Disjoint, Without;
    if flags == 0 || descs == [] {
      NothingTaken(flags, 0);
      forall d | d in descs && d.flag != 0 ensures !Has(flags, d.flag) {
        NothingTaken(flags, d.flag);
      }
    } else {
      var d := descs[0];
      if d.flag != 0 && Has(flags, d.flag) {
        ChosenPartitions(descs[1..], Without(flags, d.flag));
        var (chosen, residue) := Chosen(descs[1..], Without(flags, d.flag));
        TakeFlag(flags, d.flag, Union(chosen), residue);
        assert ([d] + chosen)[1..] == chosen;
        forall j | 0 <= j < |chosen| ensures Disjoint(d.flag, chosen[j].flag) {
          UnionCovers(chosen, chosen[j]);
          DisjointPart(d.flag, Union(chosen), chosen[j].flag);
        }
      } else {
        ChosenPartitions(descs[1..], flags);
        var (chosen, residue) := Chosen(descs[1..], flags);
        if d.flag != 0 {
          NotInPart(flags, Union(chosen), residue, d.flag);
        }
      }
    }
  }

  function Names(descs: seq<FlagDesc>): (names: seq<string>) {
    seq(|descs|, i requires 0 <= i < |descs| => descs[i].name)
  }

  /** The whole text for `flags`, before truncation. */
  function FlagsText(descs: seq<FlagDesc>, flags: bv32): (s: string) {
    if flags == 0 then ZeroName(descs)
    else
      var (chosen, residue) := Chosen(descs, flags);
      Join(Names(chosen) + if residue == 0 then [] else ["0x" + Hex(residue as nat)], ',')
  }

  /** The name of the first descriptor without bits, if any. */
  function ZeroName(descs: seq<FlagDesc>): (s: string) {
    if descs == [] then "" else if descs[0].flag == 0 then descs[0].name else ZeroName(descs[1..])
  }

  /** Each descriptor in turn is taken exactly when all its bits are still left by those before it. */
  lemma {:induction false} ChosenInTurn(descs: seq<FlagDesc>, d: FlagDesc, flags: bv32)
    ensures var (chosen, residue) := Chosen(descs, flags);
            Chosen(descs + [d], flags) ==
            if d.flag != 0 && Has(residue, d.flag) then (chosen + [d], Without(residue, d.flag)) else (chosen, residue)
    ensures Chosen([], flags) == ([], flags)
  {
    if d.flag != 0 {
      NothingTaken(flags, d.flag);
    }
    hide Has, Without;
    if descs == [] {
      assert (descs + [d])[1..] == [] && descs + [d] == [d];
      assert Chosen(descs, flags) == ([], flags);
      var none: seq<FlagDesc> := [];
      assert [d] + none == [d] == none + [d];
    } else if flags != 0 {
      var first, rest := descs[0], descs[1..];
      assert (descs + [d])[0] == first && (descs + [d])[1..] == rest + [d];
      ChosenInTurn(rest, d, Without(flags, first.flag));
      ChosenInTurn(rest, d, flags);
      var chosen := Chosen(rest, Without(flags, first.flag)).0;
      assert [first] + (chosen + [d]) == ([first] + chosen) + [d];
    }
  }

  /** Without bits the text is the name of the first descriptor without bits, and empty if there is none. */
  lemma {:induction false} ZeroNameExactly(descs: seq<FlagDesc>, i: nat)
    requires i <= |descs| && forall k :: 0 <= k < i ==> descs[k].flag != 0
    requires i < |descs| ==> descs[i].flag == 0
    ensures FlagsText(descs, 0) == if i < |descs| then descs[i].name else ""
  {
    if i > 0 {
      ZeroNameExactly(descs[1..], i - 1);
    }
  }

  // ----- Reading the flags back

  /** The bits of the first descriptor with the given name. */
  function FlagOf(descs: seq<FlagDesc>, name: string): (bits: bv32) {
    if descs == [] then 0 else if descs[0].name == name then descs[0].flag else FlagOf(descs[1..], name)
  }

  /** The bits that the items name, and the number that one of them gives in hexadecimal. */
  function ReadItems(descs: seq<FlagDesc>, items: seq<string>): (r: (bv32, nat)) {
    if items == [] then (0, 0)
    else
      var (bits, rest) := ReadItems(descs, items[1..]);
      if HasPrefix(items[0], "0x") then (bits, HexValue(items[0][2..]))
      else (Both(FlagOf(descs, items[0]), bits), rest)
  }

  function ReadFlags(descs: seq<FlagDesc>, text: string): (r: (bv32, nat)) { ReadItems(descs, Fields(text, COMMA)) }

  const COMMA: set<char> := {','}

  /** Names that can be told apart, from each other and from a number. */
  ghost predicate AreReadable(descs: seq<FlagDesc>) {
    && (forall i :: 0 <= i < |descs| ==> Free(descs[i].name, COMMA) && !HasPrefix(descs[i].name, "0x"))
    && (forall i, j :: 0 <= i < j < |descs| ==> descs[i].name != descs[j].name)
  }

  lemma {:induction false} FlagOfName(descs: seq<FlagDesc>, i: nat)
    requires AreReadable(descs) && i < |descs|
    ensures FlagOf(descs, descs[i].name) == descs[i].flag
  {
    if i > 0 {
      assert descs[0].name != descs[i].name;
      FlagOfName(descs[1..], i - 1);
    }
  }

  lemma {:induction false} ChosenAmong(descs: seq<FlagDesc>, flags: bv32)
    ensures forall d :: d in Chosen(descs, flags).0 ==> d in descs
    ensures flags != 0 ==> Chosen(descs, flags).0 != [] || Chosen(descs, flags).1 != 0
  {
    hide Has, Without;
    if flags != 0 && descs != [] {
      ChosenAmong(descs[1..], Without(flags, descs[0].flag));
      ChosenAmong(descs[1..], flags);
    }
  }

  lemma {:induction false} ReadNames(descs: seq<FlagDesc>, chosen: seq<FlagDesc>, tail: seq<string>)
    requires AreReadable(descs) && forall d :: d in chosen ==> d in descs
    ensures ReadItems(descs, Names(chosen) + tail) ==
            (Both(Union(chosen), ReadItems(descs, tail).0), ReadItems(descs, tail).1)
  {
    hide Both, HasPrefix;
    var items := Names(chosen) + tail;
    if chosen == [] {
      assert items == tail;
      NothingNamed(ReadItems(descs, tail).0);
    } else {
      assert chosen[0] in chosen;
      var i :| 0 <= i < |descs| && descs[i] == chosen[0];
      FlagOfName(descs, i);
      assert items[0] == chosen[0].name && items[1..] == Names(chosen[1..]) + tail;
      ReadNames(descs, chosen[1..], tail);
      BothAssociative(chosen[0].flag, Union(chosen[1..]), ReadItems(descs, tail).0);
    }
  }

  lemma NothingNamed(bits: bv32)
    ensures Both(0, bits) == bits && Both(bits, 0) == bits
  {}

  lemma ResidueIs(flags: bv32, union: bv32, residue: bv32)
    requires Both(union, residue) == flags && Disjoint(union, residue)
    ensures Has(flags, union) && residue == Without(flags, union)
  {
    BothHas(union, residue, 0);
    NotIn(residue, union);
    WithoutBoth(union, residue);
    hide Both, Has, Without, Disjoint;
  }

  lemma WithoutBoth(a: bv32, b: bv32)
    ensures Without(Both(a, b), a) == b & !a
  {}

  lemma NotIn(residue: bv32, union: bv32)
    requires Disjoint(union, residue)
    ensures residue & !union == residue
  {
    assert residue == (residue & union) | (residue & !union);
  }

  lemma ResidueRead(descs: seq<FlagDesc>, residue: bv32)
    ensures var tail := if residue == 0 then [] else ["0x" + Hex(residue as nat)];
            ReadItems(descs, tail) == (0, residue as nat)
    ensures Free("0x" + Hex(residue as nat), COMMA)
  {
    HexRoundTrip(residue as nat);
    HexFree(residue as nat);
    var item := "0x" + Hex(residue as nat);
    assert item[..2] == "0x" && item[2..] == Hex(residue as nat);
    var none: seq<string> := [];
    assert [item][1..] == none && ReadItems(descs, none) == (0, 0);
    hide Hex, HexValue;
  }

  lemma {:induction false} HexFree(n: nat)
    ensures Free(Hex(n), COMMA)
  {
    if n >= 16 {
      HexFree(n / 16);
    }
  }

  /** From the text one can tell all flags: the named bits are among them, and the number is the rest. */
  lemma FlagsReadBack(descs: seq<FlagDesc>, flags: bv32)
    requires AreReadable(descs) && flags != 0
    ensures var (bits, rest) := ReadFlags(descs, FlagsText(descs, flags));
            Has(flags, bits) && rest == Without(flags, bits) as nat
  {
    hide Has, Both, Disjoint, Without, Hex, Fields, Free, HasPrefix, Join, AreReadable, Chosen, ReadItems, Union;
    var (chosen, residue) := Chosen(descs, flags);
    var tail := if residue == 0 then [] else ["0x" + Hex(residue as nat)];
    var parts := Names(chosen) + tail;
    ChosenPartitions(descs, flags);
    ChosenAmong(descs, flags);
    ResidueRead(descs, residue);
    ReadNames(descs, chosen, tail);
    NothingNamed(Union(chosen));
    ResidueIs(flags, Union(chosen), residue);
    forall i | 0 <= i < |parts| ensures Free(parts[i], COMMA) {
      if i < |chosen| {
        assert chosen[i] in chosen;
        NamesFree(descs, chosen[i]);
      }
    }
    FieldsOfJoin(parts, ',', COMMA);
  }

  lemma NamesFree(descs: seq<FlagDesc>, d: FlagDesc)
    requires AreReadable(descs) && d in descs
    ensures Free(d.name, COMMA)
  {
  }

  /** The C entry point asks for non-empty names. */
  ghost predicate AreDescs(descs: seq<FlagDesc>) {
    forall i :: 0 <= i < |descs| ==> descs[i].name != "" && IsText(descs[i].name)
  }

  /** The parts of a comma-separated list, none of them empty. */
  ghost predicate AreParts(parts: seq<string>) {
    forall i :: 0 <= i < |parts| ==> parts[i] != "" && IsText(parts[i])
  }

  lemma {:induction false} JoinIsText(parts: seq<string>)
    requires AreParts(parts)
    ensures IsText(Join(parts, ','))
    ensures Join(parts, ',') == "" <==> parts == []
  {
    if |parts| > 1 {
      JoinIsText(parts[1..]);
    }
  }

  /** The cursor shows the list `parts`; a one-byte buffer can show nothing of it. */
  ghost predicate Listed(cursor: Cursor, buf: array<char>, parts: seq<string>)
    reads cursor, buf
  {
    && cursor.mem == buf && cursor.start == 0 && cursor.size == buf.Length > 0
    && cursor.Valid() && cursor.terminated
    && (buf.Length == 1 || cursor.text == Join(parts, ','))
  }

  /** Appends `part` behind a comma, unless the buffer shows nothing yet. */
  method AppendItem(cursor: Cursor, buf: array<char>, part: string, ghost parts: seq<string>)
    requires Listed(cursor, buf, parts) && AreParts(parts) && part != "" && IsText(part)
    modifies cursor, buf
    ensures Listed(cursor, buf, parts + [part]) && AreParts(parts + [part])
  {
    JoinIsText(parts);
    JoinMore(parts, part, ',');
    ghost var text := cursor.text;
    assert buf.Length > 1 ==> (buf[0] == NUL <==> text == "") by {
      if buf.Length > 1 && text != "" { assert buf[..][0 + 0] == text[0]; }
    }
    if buf[0] != NUL {
      cursor.AppendC(',');
    }
    cursor.AppendStr(Some(part));
  }

  /** The first rounds took `parts`; what is left decides the rest. */
  ghost predicate Remaining(descs: seq<FlagDesc>, flags: bv32, i: nat, flags': bv32, taken: seq<FlagDesc>)
    requires i <= |descs|
  {
    var (chosen, residue) := Chosen(descs[i..], flags');
    Chosen(descs, flags) == (taken + chosen, residue)
  }

  lemma RemainingStarts(descs: seq<FlagDesc>, flags: bv32)
    ensures Remaining(descs, flags, 0, flags, [])
  {
    hide Has, Without;
    assert descs[0..] == descs;
    var chosen := Chosen(descs, flags).0;
    assert [] + chosen == chosen;
  }

  lemma RemainingStep(descs: seq<FlagDesc>, flags: bv32, i: nat, flags': bv32, taken: seq<FlagDesc>)
    requires i < |descs| && flags' != 0 && Remaining(descs, flags, i, flags', taken)
    ensures var d := descs[i];
            if d.flag != 0 && Has(flags', d.flag)
            then Remaining(descs, flags, i + 1, Without(flags', d.flag), taken + [d])
            else Remaining(descs, flags, i + 1, flags', taken)
  {
    hide Has, Without;
    var d := descs[i];
    assert descs[i..][1..] == descs[i + 1..];
    var chosen := Chosen(descs[i + 1..], Without(flags', d.flag)).0;
    assert taken + ([d] + chosen) == taken + [d] + chosen;
  }

  lemma RemainingEnds(descs: seq<FlagDesc>, flags: bv32, i: nat, flags': bv32, taken: seq<FlagDesc>)
    requires i <= |descs| && (flags' == 0 || i == |descs|) && Remaining(descs, flags, i, flags', taken)
    ensures Chosen(descs, flags) == (taken, flags')
  {
    hide Has, Without;
    assert taken + [] == taken;
  }

  lemma NamesMore(taken: seq<FlagDesc>, d: FlagDesc)
    ensures Names(taken + [d]) == Names(taken) + [d.name]
  {}

  /** Prints the names of the bits in `flags`, and what is left of them in hexadecimal. */
  method Flags2Str(descs: seq<FlagDesc>, flags: bv32, buf: array<char>)
    requires AreDescs(descs)
    modifies buf
    ensures buf.Length > 0 ==> Holds(buf[..], 0, Truncated(FlagsText(descs, flags), buf.Length))
  {
    hide Has, Without, Hex, Remaining, Chosen;
    if buf.Length == 0 { return; }
    buf[0] := NUL;
    if flags == 0 {
      PrintZeroName(descs, buf);
      return;
    }
    var cursor := new Cursor(buf, 0);
    cursor.AppendStr(None);
    var flags', i := flags, 0;
    ghost var taken: seq<FlagDesc> := [];
    assert Names(taken) == [];
    RemainingStarts(descs, flags);
    while flags' != 0 && i < |descs|
      invariant i <= |descs| && Remaining(descs, flags, i, flags', taken)
      invariant Listed(cursor, buf, Names(taken)) && AreParts(Names(taken)) && fresh(cursor)
      decreases |descs| - i
    {
      RemainingStep(descs, flags, i, flags', taken);
      var d := descs[i];
      if d.flag != 0 && Has(flags', d.flag) {
        flags' := Without(flags', d.flag);
        NamesMore(taken, d);
        AppendItem(cursor, buf, d.name, Names(taken));
        taken := taken + [d];
      }
      i := i + 1;
    }
    RemainingEnds(descs, flags, i, flags', taken);
    ghost var parts := Names(taken);
    if flags' != 0 {
      HexRoundTrip(flags' as nat);
      AppendItem(cursor, buf, "0x" + Hex(flags' as nat), parts);
      parts := parts + ["0x" + Hex(flags' as nat)];
    }
    assert Names(taken) + [] == Names(taken);
    ListedShows(cursor, buf, parts);
  }

  lemma ListedShows(cursor: Cursor, buf: array<char>, parts: seq<string>)
    requires Listed(cursor, buf, parts) && AreParts(parts)
    ensures Holds(buf[..], 0, Truncated(Join(parts, ','), buf.Length))
  {
    JoinIsText(parts);
    if buf.Length > 1 {
      ShowsTruncated(buf[..], 0, buf.Length, cursor.at, cursor.len, cursor.text);
    } else {
      assert buf[..][0] == NUL;
    }
  }

  method PrintZeroName(descs: seq<FlagDesc>, buf: array<char>)
    requires AreDescs(descs) && buf.Length > 0 && buf[0] == NUL
    modifies buf
    ensures Holds(buf[..], 0, Truncated(ZeroName(descs), buf.Length))
  {
    var i := 0;
    while i < |descs|
      invariant i <= |descs| && buf[0] == NUL
      invariant ZeroName(descs) == ZeroName(descs[i..])
    {
      assert descs[i..][0] == descs[i] && descs[i..][1..] == descs[i + 1..];
      if descs[i].flag == 0 {
        var cursor := new Cursor(buf, 0);
        cursor.AppendStr(Some(descs[i].name));
        assert cursor.text == descs[i].name;
        ShowsTruncated(buf[..], 0, buf.Length, cursor.at, cursor.len, descs[i].name);
        return;
      }
      i := i + 1;
    }
    assert buf[..][0] == NUL;
  }
}
