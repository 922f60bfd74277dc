/** The in-place splitter `nmtst_str_split`, which honours backslash escapes. */
module EscapedSplit {
  import opened CString

  /** The first token of `text` and how much of `text` it takes, delimiter included. */
  function Scan(text: string, delimiters: string): (r: (string, nat))
    ensures r.1 <= |text|
    ensures text != "" ==> r.1 >= 1
    ensures |r.0| <= r.1
  {
    if text == "" then ("", 0)
    else if text[0] == '\\' then
      if |text| == 1 then ("", 1)
      else
        var (token, used) := Scan(text[2..], delimiters);
        ([text[1]] + token, used + 2)
    else if text[0] in delimiters then ("", 1)
    else
      var (token, used) := Scan(text[1..], delimiters);
      ([text[0]] + token, used + 1)
  }

  function Tokens(text: string, delimiters: string): (tokens: seq<string>)
    decreases |text|
  {
    if text == "" then []
    else
      var (token, used) := Scan(text, delimiters);
      [token] + Tokens(text[used..], delimiters)
  }

  /** `token` with a backslash in front of every character that `mask` selects. */
  function Escape(token: string, mask: seq<bool>): (r: string)
    requires |mask| == |token|
  {
    if token == "" then ""
    else (if mask[0] then ['\\', token[0]] else [token[0]]) + Escape(token[1..], mask[1..])
  }

  /** A token with the characters that its writer chose to escape, and the delimiter that ends it. */
  datatype Item = Item(token: string, mask: seq<bool>, delimiter: char)

  /** The writer escapes at least the delimiters and the backslash. */
  ghost predicate Masks(token: string, mask: seq<bool>, delimiters: string) {
    && |mask| == |token|
    && forall k :: 0 <= k < |token| && (token[k] == '\\' || token[k] in delimiters) ==> mask[k]
  }

  ghost predicate WellEscaped(item: Item, delimiters: string) {
    Masks(item.token, item.mask, delimiters) && item.delimiter in delimiters
  }

  ghost function Text(items: seq<Item>, delimiters: string): (text: string)
    requires forall i :: 0 <= i < |items| ==> WellEscaped(items[i], delimiters)
  {
    if items == [] then ""
    else
      assert WellEscaped(items[0], delimiters);
      Escape(items[0].token, items[0].mask) + [items[0].delimiter] + Text(items[1..], delimiters)
  }

  /** An ordinary character becomes the first of the token. */
  lemma ScanPlain(c: char, rest: string, delimiters: string)
    requires c != '\\' && c !in delimiters
    ensures Scan([c] + rest, delimiters) == ([c] + Scan(rest, delimiters).0, Scan(rest, delimiters).1 + 1)
  {
    assert ([c] + rest)[1..] == rest;
  }

  /** So does whatever follows a backslash. */
  lemma ScanQuoted(c: char, rest: string, delimiters: string)
    ensures Scan(['\\', c] + rest, delimiters) == ([c] + Scan(rest, delimiters).0, Scan(rest, delimiters).1 + 2)
  {
    assert (['\\', c] + rest)[2..] == rest;
  }

  lemma ScanDelimiter(suffix: string, delimiters: string)
    requires '\\' !in delimiters && suffix != "" && suffix[0] in delimiters
    ensures Scan(suffix, delimiters) == ("", 1)
  {
  }

  /** The escaped token in front of a delimiter is the first token. */
  lemma {:induction false} ScanEscaped(token: string, mask: seq<bool>, suffix: string, delimiters: string)
    requires '\\' !in delimiters && suffix != "" && WellEscaped(Item(token, mask, suffix[0]), delimiters)
    ensures Scan(Escape(token, mask) + suffix, delimiters) == (token, |Escape(token, mask)| + 1)
    decreases |token|
  {
    DelimiterEnds(token, mask, suffix[0], delimiters);
    EscapeParts(token, mask, suffix);
    hide Scan, Escape, WellEscaped;
    if token == "" {
      ScanDelimiter(suffix, delimiters);
    } else {
      TailWellEscaped(token, mask, suffix[0], delimiters);
      ScanEscaped(token[1..], mask[1..], suffix, delimiters);
      var tail := Escape(token[1..], mask[1..]) + suffix;
      if mask[0] {
        ScanQuoted(token[0], tail, delimiters);
      } else {
        ScanPlain(token[0], tail, delimiters);
      }
      assert token == [token[0]] + token[1..];
    }
  }

  lemma EscapeParts(token: string, mask: seq<bool>, suffix: string)
    requires |mask| == |token|
    ensures token == "" ==> Escape(token, mask) + suffix == suffix && |Escape(token, mask)| == 0
    ensures token != "" ==>
              var head := if mask[0] then ['\\', token[0]] else [token[0]];
              && Escape(token, mask) + suffix == head + (Escape(token[1..], mask[1..]) + suffix)
              && |Escape(token, mask)| == |head| + |Escape(token[1..], mask[1..])|
  {
  }

  lemma DelimiterEnds(token: string, mask: seq<bool>, delimiter: char, delimiters: string)
    requires WellEscaped(Item(token, mask, delimiter), delimiters)
    ensures delimiter in delimiters && |mask| == |token|
  {
  }

  lemma TailWellEscaped(token: string, mask: seq<bool>, delimiter: char, delimiters: string)
    requires WellEscaped(Item(token, mask, delimiter), delimiters) && token != ""
    ensures |mask| == |token| && WellEscaped(Item(token[1..], mask[1..], delimiter), delimiters)
    ensures token[0] == '\\' || token[0] in delimiters ==> mask[0]
  {
    TailMasks(token, mask, delimiters);
  }

  lemma TailMasks(token: string, mask: seq<bool>, delimiters: string)
    requires Masks(token, mask, delimiters) && token != ""
    ensures |mask| == |token| && Masks(token[1..], mask[1..], delimiters)
    ensures token[0] == '\\' || token[0] in delimiters ==> mask[0]
  {
    forall k | 0 <= k < |token[1..]| && (token[1..][k] == '\\' || token[1..][k] in delimiters)
      ensures mask[1..][k]
    {
      assert token[k + 1] == token[1..][k];
    }
  }

  lemma TextParts(items: seq<Item>, delimiters: string)
    requires items != [] && forall i :: 0 <= i < |items| ==> WellEscaped(items[i], delimiters)
    ensures var first := items[0];
            && WellEscaped(Item(first.token, first.mask, first.delimiter), delimiters) && |first.mask| == |first.token|
            && first.delimiter in delimiters
            && Text(items, delimiters) ==
               Escape(first.token, first.mask) + ([first.delimiter] + Text(items[1..], delimiters))
  {
    var first := items[0];
    assert WellEscaped(first, delimiters) && first == Item(first.token, first.mask, first.delimiter);
    hide Escape;
    var rest := Text(items[1..], delimiters);
    assert Escape(first.token, first.mask) + [first.delimiter] + rest ==
           Escape(first.token, first.mask) + ([first.delimiter] + rest);
  }

  /** Splitting escaped, delimiter-terminated tokens gives back exactly the tokens, empty ones included. */
  lemma {:induction false} SplitInvertsEscape(items: seq<Item>, delimiters: string)
    requires '\\' !in delimiters
    requires forall i :: 0 <= i < |items| ==> WellEscaped(items[i], delimiters)
    ensures Tokens(Text(items, delimiters), delimiters) == seq(|items|, i requires 0 <= i < |items| => items[i].token)
  {
    if items != [] {
      TextParts(items, delimiters);
      hide Scan, Escape, WellEscaped;
      var first, suffix := items[0], [items[0].delimiter] + Text(items[1..], delimiters);
      ScanEscaped(first.token, first.mask, suffix, delimiters);
      assert Text(items, delimiters)[|Escape(first.token, first.mask)| + 1..] == Text(items[1..], delimiters);
      SplitInvertsEscape(items[1..], delimiters);
    }
  }

  /** A last token that no delimiter ends, with or without a backslash that has nothing behind it. */
  function Unended(token: string, mask: seq<bool>, dangling: bool): (text: string)
    requires |mask| == |token|
  {
    Escape(token, mask) + if dangling then "\\" else ""
  }

  lemma {:induction false} ScanUnended(token: string, mask: seq<bool>, dangling: bool, delimiters: string)
    requires '\\' !in delimiters && Masks(token, mask, delimiters)
    ensures Scan(Unended(token, mask, dangling), delimiters) == (token, |Unended(token, mask, dangling)|)
    decreases |token|
  {
    var suffix := if dangling then "\\" else "";
    EscapeParts(token, mask, suffix);
    if token == "" {
      assert Unended(token, mask, dangling) == suffix;
    } else {
      TailMasks(token, mask, delimiters);
      hide Scan, Escape, Masks;
      ScanUnended(token[1..], mask[1..], dangling, delimiters);
      var tail := Unended(token[1..], mask[1..], dangling);
      if mask[0] {
        ScanQuoted(token[0], tail, delimiters);
      } else {
        ScanPlain(token[0], tail, delimiters);
      }
      assert token == [token[0]] + token[1..];
    }
  }

  lemma TokensCons(text: string, delimiters: string, token: string, used: nat)
    requires text != "" && Scan(text, delimiters) == (token, used)
    ensures Tokens(text, delimiters) == [token] + Tokens(text[used..], delimiters)
  {
    hide Scan;
  }

  /** A last token without a delimiter is a token like the others, unless there is no text for it. */
  lemma {:induction false} SplitKeepsLast(
    items: seq<Item>, last: string, mask: seq<bool>, dangling: bool, delimiters: string)
    requires '\\' !in delimiters && Masks(last, mask, delimiters) && (last != "" || dangling)
    requires forall i :: 0 <= i < |items| ==> WellEscaped(items[i], delimiters)
    ensures Tokens(Text(items, delimiters) + Unended(last, mask, dangling), delimiters)
            == seq(|items|, i requires 0 <= i < |items| => items[i].token) + [last]
    decreases |items|
  {
    var tail := Unended(last, mask, dangling);
    if items == [] {
      OnlyLast(last, mask, dangling, delimiters);
      assert Text(items, delimiters) + tail == tail;
    } else {
      TextParts(items, delimiters);
      hide Scan, Escape, WellEscaped, Text, Masks, Unended, Tokens;
      var first, rest := items[0], Text(items[1..], delimiters) + tail;
      SplitKeepsLast(items[1..], last, mask, dangling, delimiters);
      FirstToken(first, Text(items[1..], delimiters), tail, delimiters);
      assert [first.token] + (seq(|items[1..]|, i requires 0 <= i < |items[1..]| => items[1..][i].token) + [last])
          == seq(|items|, i requires 0 <= i < |items| => items[i].token) + [last];
    }
  }

  lemma OnlyLast(last: string, mask: seq<bool>, dangling: bool, delimiters: string)
    requires '\\' !in delimiters && Masks(last, mask, delimiters) && (last != "" || dangling)
    ensures Tokens(Unended(last, mask, dangling), delimiters) == [last]
  {
    var tail := Unended(last, mask, dangling);
    ScanUnended(last, mask, dangling, delimiters);
    EscapeParts(last, mask, if dangling then "\\" else "");
    hide Scan, Escape, Masks;
    assert tail != "" && tail[|tail|..] == "";
    TokensCons(tail, delimiters, last, |tail|);
  }

  lemma FirstToken(first: Item, behind: string, tail: string, delimiters: string)
    requires '\\' !in delimiters && WellEscaped(first, delimiters)
    ensures Tokens(Escape(first.token, first.mask) + ([first.delimiter] + behind) + tail, delimiters)
            == [first.token] + Tokens(behind + tail, delimiters)
  {
    var used := |Escape(first.token, first.mask)| + 1;
    var text := Escape(first.token, first.mask) + ([first.delimiter] + behind) + tail;
    ScanEscaped(first.token, first.mask, [first.delimiter] + (behind + tail), delimiters);
    hide Scan, Escape, Tokens, Masks;
    assert text == Escape(first.token, first.mask) + ([first.delimiter] + (behind + tail));
    assert text[used..] == behind + tail;
    TokensCons(text, delimiters, first.token, used);
  }

  /** Offsets into `mem` at which the given tokens are held. */
  ghost predicate HoldsTokens(mem: seq<char>, offsets: seq<nat>, tokens: seq<string>) {
    && |offsets| == |tokens|
    && forall k :: 0 <= k < |tokens| ==> Holds(mem, offsets[k], tokens[k])
  }

  /**
   * The inner loop: unescapes one token onto the front of the C string `rest` at `base`, terminates
   * it, and returns how far it read. The write index `j` never overtakes the read index `i`.
   */
  method TakeToken(str: array<char>, base: nat, delimiters: string, ghost rest: string) returns (i: nat)
    requires Holds(str[..], base, rest) && rest != ""
    requires '\\' !in delimiters && NUL !in delimiters
    modifies str
    ensures Taken(old(str[..]), str[..], base, rest, i, delimiters)
  {
    hide Taken, ScansTo;
    ghost var original := str[..];
    ghost var written := "";
    TakingStarts(original, base, rest, delimiters);
    i := 0;
    var j := 0;
    while true
      invariant Taking(original, str[..], base, rest, i, delimiters, written) && j == |written|
      decreases |rest| - i
    {
      ghost var mem := str[..];
      var c := str[base + i];
      if c == NUL {
        TakingEnds(original, mem, base, rest, i, delimiters, written);
        str[base + j] := NUL;
        assert str[..] == mem[base + j := NUL];
        break;
      }
      TakingStep(original, mem, base, rest, i, delimiters, written);
      if c == '\\' {
        i := i + 1;
        c := str[base + i];
        str[base + j] := c;
        assert str[..] == mem[base + j := c];
        if str[base + i] == NUL {
          break;
        }
      } else {
        if c in delimiters {
          str[base + j] := NUL;
          assert str[..] == mem[base + j := NUL];
          i := i + 1;
          break;
        }
        str[base + j] := c;
        assert str[..] == mem[base + j := c];
      }
      written := written + [c];
      j := j + 1;
      i := i + 1;
    }
  }

  /** The state of the inner loop: `written` is in place, and memory from the read index on is untouched. */
  ghost predicate Taking(original: seq<char>, mem: seq<char>, base: nat, rest: string, i: nat, delimiters: string,
      written: string)
  {
    && Holds(original, base, rest)
    && |mem| == |original|
    && |written| <= i <= |rest|
    && (forall k :: 0 <= k < |mem| && (k < base || base + i <= k) ==> mem[k] == original[k])
    && (forall k :: 0 <= k < |written| ==> mem[base + k] == written[k] != NUL)
    && ScansTo(rest, i, delimiters, written)
  }

  /** What the inner loop leaves behind once it has read `i` characters. */
  ghost predicate Taken(original: seq<char>, mem: seq<char>, base: nat, rest: string, i: nat, delimiters: string) {
    && |mem| == |original|
    && i == Scan(rest, delimiters).1
    && Holds(mem, base, Scan(rest, delimiters).0)
    && (forall k :: 0 <= k < |mem| && (k < base || base + i <= k) ==> mem[k] == original[k])
  }

  lemma TakingStarts(original: seq<char>, base: nat, rest: string, delimiters: string)
    requires Holds(original, base, rest)
    ensures Taking(original, original, base, rest, 0, delimiters, "")
  {
    assert rest[0..] == rest;
    assert "" + Scan(rest, delimiters).0 == Scan(rest, delimiters).0;
  }

  lemma TakingEnds(original: seq<char>, mem: seq<char>, base: nat, rest: string, i: nat, delimiters: string,
      written: string)
    requires Taking(original, mem, base, rest, i, delimiters, written) && mem[base + i] == NUL
    ensures i == |rest|
    ensures Taken(original, mem[base + |written| := NUL], base, rest, i, delimiters)
  {
    TerminatorAt(original, base, rest, i);
    assert rest[i..] == "" && written + "" == written;
  }

  lemma TakingStep(original: seq<char>, mem: seq<char>, base: nat, rest: string, i: nat, delimiters: string,
      written: string)
    requires Taking(original, mem, base, rest, i, delimiters, written) && mem[base + i] != NUL
    ensures i < |rest| && mem[base + i] == rest[i]
    ensures var c, at := rest[i], base + |written|;
            if c == '\\' then
              var c' := mem[base + i + 1];
              if c' == NUL then
                i + 1 == |rest| && Taken(original, mem[at := c'], base, rest, i + 1, delimiters)
              else i + 1 < |rest| && Taking(original, mem[at := c'], base, rest, i + 2, delimiters, written + [c'])
            else if c in delimiters then Taken(original, mem[at := NUL], base, rest, i + 1, delimiters)
            else Taking(original, mem[at := c], base, rest, i + 1, delimiters, written + [c])
  {
    TerminatorAt(original, base, rest, i);
    TerminatorAt(original, base, rest, i + 1);
    ScanStep(rest, i, delimiters, written);
  }

  /** The first `i` characters of `rest` contribute `written` to its first token. */
  ghost predicate ScansTo(rest: string, i: nat, delimiters: string, written: string)
    requires i <= |rest|
  {
    var (token, used) := Scan(rest[i..], delimiters);
    Scan(rest, delimiters) == (written + token, i + used)
  }

  lemma ScanStepQuoted(rest: string, i: nat, delimiters: string, written: string)
    requires i + 1 < |rest| && ScansTo(rest, i, delimiters, written) && rest[i] == '\\'
    ensures ScansTo(rest, i + 2, delimiters, written + [rest[i + 1]])
  {
    hide Scan;
    assert rest[i..] == ['\\', rest[i + 1]] + rest[i + 2..];
    ScanQuoted(rest[i + 1], rest[i + 2..], delimiters);
    var token := Scan(rest[i + 2..], delimiters).0;
    assert written + ([rest[i + 1]] + token) == written + [rest[i + 1]] + token;
  }

  lemma ScanStepPlain(rest: string, i: nat, delimiters: string, written: string)
    requires i < |rest| && ScansTo(rest, i, delimiters, written) && rest[i] != '\\' && rest[i] !in delimiters
    ensures ScansTo(rest, i + 1, delimiters, written + [rest[i]])
  {
    hide Scan;
    assert rest[i..] == [rest[i]] + rest[i + 1..];
    ScanPlain(rest[i], rest[i + 1..], delimiters);
    var token := Scan(rest[i + 1..], delimiters).0;
    assert written + ([rest[i]] + token) == written + [rest[i]] + token;
  }

  /** A delimiter, or a backslash with nothing behind it, ends the token. */
  lemma ScanStepLast(rest: string, i: nat, delimiters: string, written: string)
    requires i < |rest| && ScansTo(rest, i, delimiters, written)
    requires if rest[i] == '\\' then i + 1 == |rest| else rest[i] in delimiters
    ensures Scan(rest, delimiters) == (written, i + 1)
  {
    assert written + "" == written;
    assert Scan(rest[i..], delimiters) == ("", 1);
  }

  lemma ScanStep(rest: string, i: nat, delimiters: string, written: string)
    requires i < |rest| && ScansTo(rest, i, delimiters, written)
    ensures var c, r := rest[i], Scan(rest, delimiters);
            if c == '\\' then
              if i + 1 == |rest| then r == (written, i + 1)
              else ScansTo(rest, i + 2, delimiters, written + [rest[i + 1]])
            else if c in delimiters then r == (written, i + 1)
            else ScansTo(rest, i + 1, delimiters, written + [c])
  {
    hide Scan, ScansTo;
    if rest[i] == '\\' && i + 1 < |rest| {
      ScanStepQuoted(rest, i, delimiters, written);
    } else if rest[i] == '\\' || rest[i] in delimiters {
      ScanStepLast(rest, i, delimiters, written);
    } else {
      ScanStepPlain(rest, i, delimiters, written);
    }
  }

  /**
   * Splits the C string `text` that starts `str`; the result lists where in `str` the tokens now
   * start. Memory past the string's terminator is left alone.
   */
  method StrSplit(str: array<char>, delimiters: string, ghost text: string) returns (result: seq<nat>)
    requires Holds(str[..], 0, text)
    requires '\\' !in delimiters && NUL !in delimiters
    modifies str
    ensures HoldsTokens(str[..], result, Tokens(text, delimiters))
    ensures str[|text| + 1..] == old(str[|text| + 1..])
  {
    ghost var original := str[..];
    ghost var tokens: seq<string> := [];
    result := [];
    var base := 0;
    SplittingStarts(original, text, delimiters);
    while str[base] != NUL
      invariant Splitting(original, str[..], text, delimiters, base, result, tokens)
      decreases |text| - base
    {
      ghost var before := str[..];
      SplittingStep(original, before, text, delimiters, base, result, tokens);
      var i := TakeToken(str, base, delimiters, text[base..]);
      SplittingGrows(original, before, str[..], text, delimiters, base, i, result, tokens);
      result := result + [base];
      tokens := tokens + [Scan(text[base..], delimiters).0];
      base := base + i;
    }
    SplittingEnds(original, str[..], text, delimiters, base, result, tokens);
  }

  /** The state of the outer loop: `base` characters of `text` have given `tokens`. */
  ghost predicate Splitting(
    original: seq<char>, mem: seq<char>, text: string, delimiters: string, base: nat, offsets: seq<nat>,
    tokens: seq<string>)
  {
    && Holds(original, 0, text)
    && |mem| == |original| && base <= |text|
    && (forall k :: base <= k < |mem| ==> mem[k] == original[k])
    && HoldsTokens(mem, offsets, tokens)
    && (forall k :: 0 <= k < |tokens| ==> offsets[k] + |tokens[k]| <= base)
    && Tokens(text, delimiters) == tokens + Tokens(text[base..], delimiters)
  }

  lemma SplittingStarts(original: seq<char>, text: string, delimiters: string)
    requires Holds(original, 0, text)
    ensures Splitting(original, original, text, delimiters, 0, [], [])
  {
    assert text[0..] == text;
  }

  lemma SplittingEnds(
    original: seq<char>, mem: seq<char>, text: string, delimiters: string, base: nat, offsets: seq<nat>,
    tokens: seq<string>)
    requires Splitting(original, mem, text, delimiters, base, offsets, tokens) && mem[base] == NUL
    ensures HoldsTokens(mem, offsets, Tokens(text, delimiters))
    ensures mem[|text| + 1..] == original[|text| + 1..]
  {
    TerminatorAt(original, 0, text, base);
    assert text[base..] == "" && tokens + [] == tokens;
  }

  lemma SplittingStep(
    original: seq<char>, mem: seq<char>, text: string, delimiters: string, base: nat, offsets: seq<nat>,
    tokens: seq<string>)
    requires Splitting(original, mem, text, delimiters, base, offsets, tokens) && mem[base] != NUL
    ensures text[base..] != "" && Holds(mem, base, text[base..])
  {
    forall k | 0 <= k < |text[base..]| ensures mem[base + k] == text[base..][k] != NUL {
      assert original[0 + (base + k)] == text[base + k];
    }
    TerminatorAt(original, 0, text, base);
  }

  /** One round of the outer loop. Earlier tokens lie before `base` and survive the writes behind it. */
  lemma SplittingGrows(
    original: seq<char>, before: seq<char>, after: seq<char>, text: string, delimiters: string,
    base: nat, i: nat, offsets: seq<nat>, tokens: seq<string>)
    requires Splitting(original, before, text, delimiters, base, offsets, tokens) && before[base] != NUL
    requires text[base..] != "" && Taken(before, after, base, text[base..], i, delimiters)
    ensures i > 0
    ensures var token := Scan(text[base..], delimiters).0;
            Splitting(original, after, text, delimiters, base + i, offsets + [base], tokens + [token])
  {
    var token := Scan(text[base..], delimiters).0;
    assert text[base..][i..] == text[base + i..];
    assert tokens + ([token] + Tokens(text[base + i..], delimiters)) ==
           tokens + [token] + Tokens(text[base + i..], delimiters);
    forall k | 0 <= k <= |tokens| ensures Holds(after, (offsets + [base])[k], (tokens + [token])[k]) {
      if k < |tokens| {
        assert Holds(before, offsets[k], tokens[k]);
        assert offsets[k] + |tokens[k]| < base;
        HoldsFrame(before, after, offsets[k], tokens[k]);
      }
    }
  }
}
