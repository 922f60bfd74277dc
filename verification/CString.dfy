/** NUL-terminated text in memory. */
module CString {

  const NUL: char := '\0'

  /** Text that a C string can hold: bytes other than NUL. */
  predicate IsText(s: string) {
    forall i :: 0 <= i < |s| ==> NUL < s[i] && s[i] as int < 256
  }

  /** The C string that starts at `at`: everything before the first NUL. */
  function TextAt(mem: seq<char>, at: nat): (s: string)
    requires at <= |mem|
    decreases |mem| - at
  {
    if at == |mem| || mem[at] == NUL then "" else [mem[at]] + TextAt(mem, at + 1)
  }

  /** `mem` holds the text `s` and its terminator at `at`. */
  predicate Holds(mem: seq<char>, at: nat, s: string) {
    && at + |s| < |mem|
    && (forall k :: 0 <= k < |s| ==> mem[at + k] == s[k] != NUL)
    && mem[at + |s|] == NUL
  }

  lemma TerminatorAt(mem: seq<char>, at: nat, s: string, i: nat)
    requires Holds(mem, at, s) && i <= |s|
    ensures i < |s| ==> mem[at + i] == s[i]
    ensures mem[at + i] == NUL <==> i == |s|
  {
  }

  lemma HoldsFrame(before: seq<char>, after: seq<char>, at: nat, s: string)
    requires Holds(before, at, s) && |after| >= |before|
    requires forall m :: at <= m <= at + |s| ==> after[m] == before[m]
    ensures Holds(after, at, s)
  {
    forall k | 0 <= k < |s| ensures after[at + k] == s[k] {
      assert before[at + k] == s[k];
    }
  }

  lemma {:induction false} HoldsIsTextAt(mem: seq<char>, at: nat, s: string)
    requires Holds(mem, at, s)
    ensures TextAt(mem, at) == s
    decreases |s|
  {
    if s != "" {
      assert mem[at + 0] == s[0];
      forall k | 0 <= k < |s[1..]| ensures mem[at + 1 + k] == s[1..][k] {
        assert mem[at + (1 + k)] == s[1 + k];
      }
      HoldsIsTextAt(mem, at + 1, s[1..]);
      assert s == [s[0]] + s[1..];
    }
  }
}
