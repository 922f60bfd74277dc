/** The word splitter `nm_utils_strsplit_set`, with its one-allocation table of words. */
module StrSplit {
  import opened Basics
  import opened CString

  /** The end of the delimiter-free run that starts at `at`. */
  function RunEnd(s: string, delimiters: set<char>, at: nat): (end: nat)
    requires at <= |s|
    ensures at <= end <= |s|
    ensures forall k :: at <= k < end ==> s[k] !in delimiters
    ensures end < |s| ==> s[end] in delimiters
    decreases |s| - at
  {
    if at == |s| || s[at] in delimiters then at else RunEnd(s, delimiters, at + 1)
  }

  /** The delimiter-free runs from `at` on, as half-open intervals. */
  function Runs(s: string, delimiters: set<char>, at: nat): (runs: seq<(nat, nat)>)
    requires at <= |s|
    decreases |s| - at
  {
    if at == |s| then []
    else if s[at] in delimiters then Runs(s, delimiters, at + 1)
    else
      var end := RunEnd(s, delimiters, at);
      [(at, end)] + Runs(s, delimiters, end)
  }

  /** A non-empty run without delimiters that cannot be extended on either side. */
  ghost predicate MaximalRun(s: string, delimiters: set<char>, lo: nat, hi: nat) {
    && lo < hi <= |s|
    && (forall k :: lo <= k < hi ==> s[k] !in delimiters)
    && (lo == 0 || s[lo - 1] in delimiters)
    && (hi == |s| || s[hi] in delimiters)
  }

  lemma {:induction false} RunsOrdered(s: string, delimiters: set<char>, at: nat)
    requires at <= |s|
    ensures forall run :: run in Runs(s, delimiters, at) ==> at <= run.0 < |s| && s[run.0] !in delimiters
    ensures forall i, j :: 0 <= i < j < |Runs(s, delimiters, at)| ==>
                             Runs(s, delimiters, at)[i].1 < Runs(s, delimiters, at)[j].0
    decreases |s| - at
  {
    if at < |s| {
      if s[at] in delimiters {
        RunsOrdered(s, delimiters, at + 1);
      } else {
        var end := RunEnd(s, delimiters, at);
        RunsOrdered(s, delimiters, end);
        assert forall run :: run in Runs(s, delimiters, end) ==> end < run.0;
      }
    }
  }

  lemma {:induction false} RunsFrom(s: string, delimiters: set<char>, at: nat, lo: nat, hi: nat)
    requires at <= |s| && (at == 0 || at == |s| || s[at - 1] in delimiters || s[at] in delimiters)
    ensures (lo, hi) in Runs(s, delimiters, at) <==> at <= lo && MaximalRun(s, delimiters, lo, hi)
    decreases |s| - at
  {
    if at < |s| {
      if s[at] in delimiters {
        RunsFrom(s, delimiters, at + 1, lo, hi);
      } else {
        var end := RunEnd(s, delimiters, at);
        RunsFrom(s, delimiters, end, lo, hi);
        assert at < lo < end ==> s[lo - 1] !in delimiters;
      }
    }
  }

  /** Exactly the maximal runs of the input, in order. */
  lemma RunsAreTheMaximalRuns(s: string, delimiters: set<char>)
    ensures forall lo: nat, hi: nat :: (lo, hi) in Runs(s, delimiters, 0) <==> MaximalRun(s, delimiters, lo, hi)
    ensures forall i, j :: 0 <= i < j < |Runs(s, delimiters, 0)| ==>
                             Runs(s, delimiters, 0)[i].1 < Runs(s, delimiters, 0)[j].0
  {
    RunsOrdered(s, delimiters, 0);
    forall lo: nat, hi: nat ensures (lo, hi) in Runs(s, delimiters, 0) <==> MaximalRun(s, delimiters, lo, hi) {
      RunsFrom(s, delimiters, 0, lo, hi);
    }
  }

  /** A pointer into the text that a block carries behind its table. */
  datatype Pointer = Null | To(block: Block, at: nat)

  /** One allocation: a table of pointers followed by room for the text. */
  class Block {
    const table: array<Pointer>
    const text: array<char>

    constructor (slots: nat, bytes: nat)
      ensures fresh(table) && fresh(text)
      ensures table.Length == slots && text.Length == bytes
    {
      table := new Pointer[slots];
      text := new char[bytes];
    }
  }

  ghost function Pointers(block: Block, offsets: seq<nat>): (r: seq<Pointer>) {
    seq(|offsets|, i requires 0 <= i < |offsets| => To(block, offsets[i]))
  }

  /** `mem` holds each of `runs` as a C string of its own, at `offsets`. */
  ghost predicate HoldsRuns(mem: seq<char>, offsets: seq<nat>, s: string, runs: seq<(nat, nat)>) {
    && |offsets| == |runs|
    && forall i :: 0 <= i < |runs| ==> runs[i].0 <= runs[i].1 <= |s| && Holds(mem, offsets[i], s[runs[i].0..runs[i].1])
  }

  /** The words cut out so far: their runs in the text and their offsets in memory. */
  datatype Cuts = Cuts(runs: seq<(nat, nat)>, offsets: seq<nat>) {
    function Add(lo: nat, hi: nat, offset: nat): (c: Cuts) {
      Cuts(runs + [(lo, hi)], offsets + [offset])
    }
  }

  /**
   * `mem` is the text of `s` from `p` on, with the words in `done` terminated and everything from `at` on
   * untouched.
   */
  ghost predicate Cutting(s: string, p: nat, delimiters: set<char>, mem: seq<char>, done: Cuts, at: nat) {
    && Unread(s, p, mem, at)
    && HoldsRuns(mem, done.offsets, s, done.runs)
    && (forall i :: 0 <= i < |done.runs| ==>
       done.offsets[i] + p == done.runs[i].0 && (done.runs[i].1 < p + at || p + at == |s|))
    && Runs(s, delimiters, 0) == done.runs + Runs(s, delimiters, p + at)
  }

  ghost predicate Unread(s: string, p: nat, mem: seq<char>, at: nat) {
    && IsText(s) && p + at <= |s| && |mem| == |s| - p + 1
    && (forall k :: at <= k < |s| - p ==> mem[k] == s[p + k])
    && mem[|s| - p] == NUL
  }

  lemma CuttingStarts(s: string, p: nat, delimiters: set<char>)
    requires IsText(s) && p <= |s| && Runs(s, delimiters, 0) == Runs(s, delimiters, p)
    ensures Cutting(s, p, delimiters, s[p..] + [NUL], Cuts([], []), 0)
  {
  }

  lemma CuttingEnds(s: string, p: nat, delimiters: set<char>, mem: seq<char>, done: Cuts, at: nat)
    requires Cutting(s, p, delimiters, mem, done, at) && p + at == |s|
    ensures HoldsRuns(mem, done.offsets, s, Runs(s, delimiters, 0))
  {
    assert done.runs + [] == done.runs;
  }

  /** The word at `at` ends the text: its terminator is already in place. */
  lemma CutLast(s: string, p: nat, delimiters: set<char>, mem: seq<char>, done: Cuts, at: nat, end: nat)
    requires Cutting(s, p, delimiters, mem, done, at) && p + at < |s| && s[p + at] !in delimiters
    requires p + end == RunEnd(s, delimiters, p + at) == |s|
    ensures Cutting(s, p, delimiters, mem, done.Add(p + at, p + end, at), end)
  {
    assert Runs(s, delimiters, p + at) == [(p + at, p + end)];
    assert done.runs + [(p + at, p + end)] + [] == done.runs + [(p + at, p + end)];
    HoldsSuffix(s, p, mem, at, end);
  }

  lemma HoldsSuffix(s: string, p: nat, mem: seq<char>, at: nat, end: nat)
    requires IsText(s) && at <= end && p + end <= |s| && |mem| == |s| - p + 1
    requires forall k :: at <= k < end ==> mem[k] == s[p + k]
    requires mem[end] == NUL
    ensures Holds(mem, at, s[p + at..p + end])
  {
    var word := s[p + at..p + end];
    forall k | 0 <= k < |word| ensures mem[at + k] == word[k] != NUL {
      assert mem[at + k] == s[p + (at + k)];
    }
  }

  /** The delimiter behind the word at `at` becomes its terminator. */
  lemma CutWord(s: string, p: nat, delimiters: set<char>, mem: seq<char>, done: Cuts, at: nat, end: nat)
    requires Cutting(s, p, delimiters, mem, done, at) && p + at < |s| && s[p + at] !in delimiters
    requires p + end == RunEnd(s, delimiters, p + at) < |s|
    ensures Cutting(s, p, delimiters, mem[end := NUL], done.Add(p + at, p + end, at), end + 1)
  {
    var mem', done' := mem[end := NUL], done.Add(p + at, p + end, at);
    var rest := Runs(s, delimiters, p + end + 1);
    assert Runs(s, delimiters, p + at) == [(p + at, p + end)] + rest;
    assert done.runs + ([(p + at, p + end)] + rest) == done'.runs + rest;
    HoldsSuffix(s, p, mem', at, end);
    forall i | 0 <= i < |done'.runs|
      ensures Holds(mem', done'.offsets[i], s[done'.runs[i].0..done'.runs[i].1])
    {
      if i < |done.runs| {
        HoldsFrame(mem, mem', done.offsets[i], s[done.runs[i].0..done.runs[i].1]);
      }
    }
  }

  /** Further delimiters contribute no runs. */
  lemma CutSkip(s: string, p: nat, delimiters: set<char>, mem: seq<char>, done: Cuts, at: nat)
    requires Cutting(s, p, delimiters, mem, done, at) && p + at < |s| && s[p + at] in delimiters
    ensures Cutting(s, p, delimiters, mem, done, at + 1)
  {
  }

  /** The lookup table for delimiters. */
  ghost predicate IsTableFor(isDelimiter: array<bool>, delimiters: set<char>)
    reads isDelimiter
  {
    && isDelimiter.Length == 256
    && forall i :: 0 <= i < 256 ==> (isDelimiter[i] <==> i as char in delimiters)
  }

  method DelimiterTable(delimiters: string) returns (isDelimiter: array<bool>)
    requires IsText(delimiters)
    ensures fresh(isDelimiter) && IsTableFor(isDelimiter, Chars(delimiters))
  {
    isDelimiter := new bool[256](_ => false);
    for i := 0 to |delimiters|
      invariant IsTableFor(isDelimiter, Chars(delimiters[..i]))
    {
      isDelimiter[delimiters[i] as int] := true;
      assert delimiters[..i + 1] == delimiters[..i] + [delimiters[i]];
    }
    assert delimiters[..|delimiters|] == delimiters;
  }

  function Chars(s: string): (r: set<char>) {
    set c | c in s
  }

  /** The inner scan: from the word at `at` to its end. */
  method ScanWord(text: array<char>, isDelimiter: array<bool>, at: nat, ghost s: string, ghost p: nat,
      ghost delimiters: set<char>)
    returns (end: nat)
    requires IsTableFor(isDelimiter, delimiters) && NUL !in delimiters
    requires Unread(s, p, text[..], at) && p + at < |s| && s[p + at] !in delimiters
    ensures p + end == RunEnd(s, delimiters, p + at)
    ensures at < end < text.Length && (text[end] == NUL <==> p + end == |s|)
  {
    end := at;
    while true
      invariant at <= end < |s| - p && s[p + end] !in delimiters
      invariant RunEnd(s, delimiters, p + end) == RunEnd(s, delimiters, p + at)
      decreases |s| - p - end
    {
      end := end + 1;
      ReadAt(s, p, text[..], at, end);
      assert text[end] == text[..][end];
      if isDelimiter[text[end] as int] { break; }
      if text[end] == NUL { break; }
    }
  }

  lemma ReadAt(s: string, p: nat, mem: seq<char>, at: nat, i: nat)
    requires Unread(s, p, mem, at) && at <= i <= |s| - p
    ensures mem[i] as int < 256
    ensures mem[i] == NUL <==> p + i == |s|
    ensures p + i < |s| ==> mem[i] == s[p + i]
  {
    if p + i < |s| {
      assert mem[i] == s[p + i] && NUL < s[p + i];
    }
  }

  /** From behind a word to the next one, or to the end of the text. */
  method SkipDelimiters(text: array<char>, isDelimiter: array<bool>, start: nat, ghost s: string, ghost p: nat,
                        ghost delimiters: set<char>, ghost done: Cuts) returns (at: nat)
    requires IsTableFor(isDelimiter, delimiters) && NUL !in delimiters
    requires Cutting(s, p, delimiters, text[..], done, start)
    ensures Cutting(s, p, delimiters, text[..], done, at)
    ensures start <= at < text.Length && (text[at] == NUL <==> p + at == |s|)
    ensures p + at < |s| ==> s[p + at] !in delimiters
  {
    at := start;
    while true
      invariant start <= at && Cutting(s, p, delimiters, text[..], done, at)
      decreases |s| - p - at
    {
      ReadAt(s, p, text[..], at, at);
      assert text[at] == text[..][at];
      if !isDelimiter[text[at] as int] { break; }
      CutSkip(s, p, delimiters, text[..], done, at);
      at := at + 1;
    }
  }

  /** A block with twice the slots that takes over the table of `old`; the text stays where it is. */
  method Grow(previous: Block, slots: nat, bytes: nat, used: nat) returns (block: Block)
    requires used <= previous.table.Length && used <= slots
    ensures fresh(block) && fresh(block.table) && fresh(block.text)
    ensures block.table.Length == slots && block.text.Length == bytes
    ensures block.table[..used] == previous.table[..used]
  {
    block := new Block(slots, bytes);
    for i := 0 to used
      invariant block.table[..i] == previous.table[..i]
    {
      block.table[i] := previous.table[i];
    }
  }

  /** Copies the text behind the final table and points the table at the copy. */
  method Rebase(block: Block, first: Block, used: nat, ghost offsets: seq<nat>)
    requires first.text != block.text && first.text.Length == block.text.Length &&
             used == |offsets| <= block.table.Length
    requires block.table[..used] == Pointers(first, offsets)
    modifies block.table, block.text
    ensures block.text[..] == first.text[..]
    ensures block.table[..used] == Pointers(block, offsets)
    ensures block.table[used..] == old(block.table[used..])
  {
    for i := 0 to block.text.Length
      invariant block.text[..i] == first.text[..i]
      invariant block.table[..] == old(block.table[..])
    {
      block.text[i] := first.text[i];
    }
    assert block.text[..] == block.text[..block.text.Length] == first.text[..first.text.Length] == first.text[..];
    RebaseTable(block, first, used, offsets);
  }

  method RebaseTable(block: Block, first: Block, used: nat, ghost offsets: seq<nat>)
    requires used == |offsets| <= block.table.Length
    requires block.table[..used] == Pointers(first, offsets)
    modifies block.table
    ensures block.table[..used] == Pointers(block, offsets)
    ensures block.table[used..] == old(block.table[used..])
  {
    for i := 0 to used
      invariant block.table[..i] == Pointers(block, offsets[..i])
      invariant block.table[i..used] == Pointers(first, offsets[i..])
      invariant block.table[used..] == old(block.table[used..])
    {
      assert block.table[i] == block.table[i..used][0];
      block.table[i] := To(block, block.table[i].at);
      assert block.table[..i + 1] == block.table[..i] + [To(block, offsets[i])];
      assert block.table[i + 1..used] == old(block.table[..used])[i + 1..];
    }
    assert offsets[..used] == offsets;
  }

  /** The outcome: a NULL-terminated table of the words, all inside the returned allocation. */
  ghost predicate IsWordTable(block: Block, s: string, delimiters: set<char>)
    reads block, block.table, block.text
  {
    var runs := Runs(s, delimiters, 0);
    && |runs| < block.table.Length
    && block.table[|runs|] == Null
    && forall i :: 0 <= i < |runs| ==>
         && runs[i].0 <= runs[i].1 <= |s|
         && block.table[i].To?
         && block.table[i].block == block
         && Holds(block.text[..], block.table[i].at, s[runs[i].0..runs[i].1])
  }

  lemma WordTable(block: Block, s: string, delimiters: set<char>, offsets: seq<nat>)
    requires var runs := Runs(s, delimiters, 0);
             && |runs| < block.table.Length
             && HoldsRuns(block.text[..], offsets, s, runs)
             && block.table[|runs|] == Null && block.table[..|runs|] == Pointers(block, offsets)
    ensures IsWordTable(block, s, delimiters)
  {
    var runs := Runs(s, delimiters, 0);
    forall i | 0 <= i < |runs| ensures block.table[i] == To(block, offsets[i]) {
      assert block.table[i] == block.table[..|runs|][i];
    }
  }

  /** The copy of the text, from its first word on, behind a table of eight words. */
  method FirstBlock(s: string, p: nat, slots: nat) returns (first: Block)
    requires p <= |s|
    ensures fresh(first) && fresh(first.table) && fresh(first.text)
    ensures first.table.Length == slots && first.text[..] == s[p..] + [NUL]
  {
    var length := |s| - p + 1;
    first := new Block(slots, length);
    for i := 0 to length - 1
      invariant first.text[..i] == s[p..p + i]
    {
      first.text[i] := s[p + i];
    }
    first.text[length - 1] := NUL;
    assert s[p..] == s[p..p + length - 1];
  }

  /** The main loop: cuts the words out of a copy of the text and collects them in a table that grows as needed. */
  method CutWords(s: string, p: nat, isDelimiter: array<bool>, ghost delimiters: set<char>)
    returns (first: Block, block: Block, used: nat, ghost offsets: seq<nat>)
    requires IsTableFor(isDelimiter, delimiters) && NUL !in delimiters && IsText(s)
    requires p < |s| && s[p] !in delimiters && Runs(s, delimiters, 0) == Runs(s, delimiters, p)
    ensures HoldsRuns(first.text[..], offsets, s, Runs(s, delimiters, 0))
    ensures exists allocSize: nat :: Collected(block, first, used, allocSize, offsets)
    ensures fresh(block) && fresh(block.table) && fresh(block.text) && fresh(first.text)
    ensures block == first || block.text != first.text
  {
    hide Cutting, HoldsRuns, Unread, IsText, IsTableFor, Runs, RunEnd, Holds;
    var allocSize, at, more := 8, 0, true;
    first := FirstBlock(s, p, allocSize + 1);
    block, used := first, 0;
    ghost var done := Cuts([], []);
    CuttingStarts(s, p, delimiters);
    while more
      invariant Cutting(s, p, delimiters, first.text[..], done, at)
      invariant if more then p + at < |s| && s[p + at] !in delimiters else p + at == |s|
      invariant Collected(block, first, used, allocSize, done.offsets)
      invariant fresh(block) && fresh(block.table) && fresh(block.text) && fresh(first.text)
      invariant block == first || block.text != first.text
      decreases |s| - p - at, more
    {
      block, allocSize := AddPointer(block, first, used, allocSize, at, done.offsets);
      used := used + 1;
      at, done := CutWordAt(first.text, isDelimiter, at, s, p, delimiters, done);
      more := first.text[at] != NUL;
    }
    CuttingEnds(s, p, delimiters, first.text[..], done, at);
    offsets := done.offsets;
  }

  /** The table in `block` has room for `allocSize` words and holds those at `offsets` in `first`. */
  ghost predicate Collected(block: Block, first: Block, used: nat, allocSize: nat, offsets: seq<nat>)
    reads block.table
  {
    && 8 <= allocSize && used == |offsets| <= allocSize
    && block.table.Length == allocSize + 1 && block.text.Length == first.text.Length
    && block.table[..used] == Pointers(first, offsets)
  }

  /** Appends a pointer to the table, doubling the table when it is full. */
  method AddPointer(block: Block, first: Block, used: nat, allocSize: nat, at: nat, ghost offsets: seq<nat>)
    returns (block': Block, allocSize': nat)
    requires Collected(block, first, used, allocSize, offsets)
    modifies block.table
    ensures Collected(block', first, used + 1, allocSize', offsets + [at])
    ensures block' == block || (fresh(block') && fresh(block'.table) && fresh(block'.text))
    ensures block' != block ==> block'.text != first.text
  {
    block', allocSize' := block, allocSize;
    if used >= allocSize {
      allocSize' := allocSize * 2;
      block' := Grow(block, allocSize' + 1, block.text.Length, used);
    }
    block'.table[used] := To(first, at);
    assert block'.table[..used + 1] == block'.table[..used] + [To(first, at)];
  }

  /** One round on the text: the word at `at` becomes a C string, and the next word is found. */
  method CutWordAt(text: array<char>, isDelimiter: array<bool>, at: nat, ghost s: string, ghost p: nat,
      ghost delimiters: set<char>, ghost done: Cuts)
    returns (next: nat, ghost done': Cuts)
    requires IsTableFor(isDelimiter, delimiters) && NUL !in delimiters
    requires Cutting(s, p, delimiters, text[..], done, at) && p + at < |s| && s[p + at] !in delimiters
    modifies text
    ensures Cutting(s, p, delimiters, text[..], done', next) && done'.offsets == done.offsets + [at]
    ensures at < next < text.Length && (text[next] == NUL <==> p + next == |s|)
    ensures p + next < |s| ==> s[p + next] !in delimiters
  {
    ghost var mem := text[..];
    var end := ScanWord(text, isDelimiter, at, s, p, delimiters);
    done' := done.Add(p + at, p + end, at);
    if text[end] == NUL {
      CutLast(s, p, delimiters, mem, done, at, end);
      next := end;
    } else {
      CutWord(s, p, delimiters, mem, done, at, end);
      text[end] := NUL;
      assert text[..] == mem[end := NUL];
      next := SkipDelimiters(text, isDelimiter, end + 1, s, p, delimiters, done');
    }
  }

  /**
   * Splits `str` at the characters of `delimiters`, blank, tab and newline by default. NULL when
   * there is no word; otherwise a table of exactly the maximal delimiter-free runs.
   */
  method StrSplitSet(str: Option<string>, delimiters: Option<string>) returns (result: Block?)
    requires str.Some? ==> IsText(str.value)
    requires delimiters.Some? ==> IsText(delimiters.value)
    ensures result == null <==> str.None? || Runs(str.value, Chars(delimiters.GetOr(" \t\n")), 0) == []
    ensures result != null ==> fresh(result) && IsWordTable(result, str.value, Chars(delimiters.GetOr(" \t\n")))
  {
    if str.None? { return null; }
    var s := str.value;
    ghost var d := Chars(delimiters.GetOr(" \t\n"));
    var isDelimiter := DelimiterTable(delimiters.GetOr(" \t\n"));

    var p := 0;
    while p < |s| && isDelimiter[s[p] as int]
      invariant p <= |s| && Runs(s, d, 0) == Runs(s, d, p)
    {
      assert s[p] in d;
      p := p + 1;
    }
    if p == |s| { return null; }
    assert s[p] !in d;

    var first, block, used, offsets := CutWords(s, p, isDelimiter, d);
    block.table[used] := Null;
    if block != first {
      Rebase(block, first, used, offsets);
    }
    WordTable(block, s, d, offsets);
    result := block;
  }
}
