/** The in-place shuffle `nmtst_rand_perm` and the exact distribution of its results. */
module RandPerm {

  /** Exchanges the first element of `s` with the one at `j`. */
  function SwapHead<T>(s: seq<T>, j: nat): (r: seq<T>)
    requires j < |s|
  {
    s[0 := s[j]][j := s[0]]
  }

  /** What the random source may return: draw k lies in [0, n - k), and n elements take n - 1 draws. */
  predicate IsDraws(draws: seq<nat>, n: nat) {
    && |draws| == (if n == 0 then 0 else n - 1)
    && forall k :: 0 <= k < |draws| ==> draws[k] < n - k
  }

  /** The order in which the shuffle leaves `s` for a given sequence of draws. */
  function Shuffled<T>(s: seq<T>, draws: seq<nat>): (r: seq<T>)
    requires IsDraws(draws, |s|)
    decreases |s|
  {
    if |s| <= 1 then s
    else [s[draws[0]]] + Shuffled(SwapHead(s, draws[0])[1..], draws[1..])
  }

  ghost predicate Distinct<T(!new)>(s: seq<T>) {
    forall i, j :: 0 <= i < j < |s| ==> s[i] != s[j]
  }

  lemma SwapHeadMultiset<T>(s: seq<T>, j: nat)
    requires j < |s|
    ensures multiset(SwapHead(s, j)) == multiset(s)
    ensures multiset(SwapHead(s, j)[1..]) == multiset(s) - multiset{s[j]}
  {
    var r := SwapHead(s, j);
    assert r == [s[j]] + r[1..];
  }

  /** The result is a permutation of the input, whatever is drawn. */
  lemma {:induction false} ShuffledPermutes<T>(s: seq<T>, draws: seq<nat>)
    requires IsDraws(draws, |s|)
    ensures |Shuffled(s, draws)| == |s|
    ensures multiset(Shuffled(s, draws)) == multiset(s)
    decreases |s|
  {
    if |s| > 1 {
      SwapHeadMultiset(s, draws[0]);
      hide SwapHead;
      var rest := SwapHead(s, draws[0])[1..];
      ShuffledPermutes(rest, draws[1..]);
      assert multiset([s[draws[0]]] + Shuffled(rest, draws[1..])) == multiset{s[draws[0]]} + multiset(rest);
    }
  }

  lemma DistinctMultiset<T(!new)>(s: seq<T>)
    requires Distinct(s)
    ensures forall x :: multiset(s)[x] <= 1
  {
    if s != [] {
      DistinctMultiset(s[1..]);
      assert s == [s[0]] + s[1..];
      assert s[0] !in s[1..];
    }
  }

  lemma MultisetDistinct<T(!new)>(s: seq<T>)
    requires forall x :: multiset(s)[x] <= 1
    ensures Distinct(s)
  {
    forall i, j | 0 <= i < j < |s| ensures s[i] != s[j] {
      assert s == s[..i] + [s[i]] + s[i + 1..];
      assert s[i + 1..][j - i - 1] == s[j];
      assert s[j] in multiset(s[i + 1..]);
      assert multiset(s)[s[i]] >= 1 + multiset(s[i + 1..])[s[i]];
    }
  }

  /** The draws that produce `target` from `s`. */
  ghost function DrawsFor<T(!new)>(s: seq<T>, target: seq<T>): (draws: seq<nat>)
    requires Distinct(s) && multiset(target) == multiset(s)
    ensures IsDraws(draws, |s|) && Shuffled(s, draws) == target
    decreases |s|
  {
    assert |target| == |multiset(target)| && |s| == |multiset(s)|;
    if |s| <= 1 then
      assert |s| == 1 ==> target[0] in multiset(s);
      []
    else
      assert target[0] in multiset(s);
      var j: nat :| j < |s| && s[j] == target[0];
      TailReady(s, target, j);
      [j] + DrawsFor(SwapHead(s, j)[1..], target[1..])
  }

  lemma TailReady<T(!new)>(s: seq<T>, target: seq<T>, j: nat)
    requires Distinct(s) && multiset(target) == multiset(s)
    requires j < |s| && target != [] && s[j] == target[0]
    ensures Distinct(SwapHead(s, j)[1..])
    ensures multiset(target[1..]) == multiset(SwapHead(s, j)[1..])
  {
    SwapHeadMultiset(s, j);
    assert target == [target[0]] + target[1..];
    TailDistinct(s, j);
  }

  /** Distinct elements: different draws give different orders. */
  lemma {:induction false} DrawsUnique<T(!new)>(s: seq<T>, a: seq<nat>, b: seq<nat>)
    requires Distinct(s) && IsDraws(a, |s|) && IsDraws(b, |s|)
    requires Shuffled(s, a) == Shuffled(s, b)
    ensures a == b
    decreases |s|
  {
    if |s| > 1 {
      ShuffledHead(s, a);
      ShuffledHead(s, b);
      assert a[0] == b[0];
      var rest := SwapHead(s, a[0])[1..];
      TailDistinct(s, a[0]);
      DrawsUnique(rest, a[1..], b[1..]);
      assert a == [a[0]] + a[1..] && b == [b[0]] + b[1..];
    }
  }

  lemma ShuffledHead<T>(s: seq<T>, draws: seq<nat>)
    requires |s| > 1 && IsDraws(draws, |s|)
    ensures Shuffled(s, draws) != [] && Shuffled(s, draws)[0] == s[draws[0]]
    ensures Shuffled(s, draws)[1..] == Shuffled(SwapHead(s, draws[0])[1..], draws[1..])
  {
  }

  lemma TailDistinct<T(!new)>(s: seq<T>, j: nat)
    requires Distinct(s) && j < |s|
    ensures Distinct(SwapHead(s, j)[1..])
  {
    SwapHeadMultiset(s, j);
    DistinctMultiset(s);
    MultisetDistinct(SwapHead(s, j)[1..]);
  }

  /**
   * For distinct elements, draws and orders correspond one to one: an order is reachable exactly
   * when it is a permutation of the input, and then by exactly one sequence of draws.
   */
  lemma DrawsBijectToPermutations<T(!new)>(s: seq<T>, target: seq<T>)
    requires Distinct(s)
    ensures multiset(target) == multiset(s) <==>
            exists draws :: IsDraws(draws, |s|) && Shuffled(s, draws) == target
    ensures forall a, b :: IsDraws(a, |s|) && IsDraws(b, |s|) && Shuffled(s, a) == target && Shuffled(s, b) == target
                           ==> a == b
  {
    if multiset(target) == multiset(s) {
      var draws := DrawsFor(s, target);
      assert IsDraws(draws, |s|) && Shuffled(s, draws) == target;
    }
    forall draws | IsDraws(draws, |s|) && Shuffled(s, draws) == target
      ensures multiset(target) == multiset(s)
    {
      ShuffledPermutes(s, draws);
    }
    forall a, b | IsDraws(a, |s|) && IsDraws(b, |s|) && Shuffled(s, a) == target && Shuffled(s, b) == target
      ensures a == b
    {
      DrawsUnique(s, a, b);
    }
  }

  /**
   * Shuffles `dst` after copying `src` into it when one is given; `draws` are the values the random
   * source returns for the ranges [0, n), [0, n - 1), ..., [0, 2).
   */
  method RandPerm<T>(dst: array<T>, src: seq<T>, copy: bool, draws: seq<nat>)
    requires copy ==> |src| == dst.Length
    requires IsDraws(draws, dst.Length)
    modifies dst
    ensures dst[..] == Shuffled(if copy then src else old(dst[..]), draws)
  {
    var n := dst.Length;
    if n == 0 { return; }
    if copy {
      forall k | 0 <= k < n { dst[k] := src[k]; }
      assert dst[..] == src;
    }
    ghost var start := dst[..];
    var p := 0;
    var i := n;
    while i > 1
      invariant 1 <= i <= n && p == n - i
      invariant IsDraws(draws[p..], |dst[p..]|)
      invariant dst[..p] + Shuffled(dst[p..], draws[p..]) == Shuffled(start, draws)
    {
      var j := draws[p];
      ghost var before := dst[..];
      ShuffleStep(before, p, draws, j);
      if j != 0 {
        dst[p], dst[p + j] := dst[p + j], dst[p];
      }
      assert dst[..] == before[p := before[p + j]][p + j := before[p]];
      assert dst[..p + 1] == dst[..][..p + 1] && dst[p + 1..] == dst[..][p + 1..];
      p := p + 1;
      i := i - 1;
    }
    assert dst[..] == dst[..p] + dst[p..];
  }

  /** One round of the loop: position `p` receives its final element and the rest stays to be shuffled. */
  lemma ShuffleStep<T>(s: seq<T>, p: nat, draws: seq<nat>, j: nat)
    requires p + 1 < |s| && p < |draws| && j == draws[p] && IsDraws(draws[p..], |s[p..]|)
    ensures p + j < |s| && IsDraws(draws[p + 1..], |s| - p - 1)
    ensures var r := s[p := s[p + j]][p + j := s[p]];
            r[..p + 1] + Shuffled(r[p + 1..], draws[p + 1..]) == s[..p] + Shuffled(s[p..], draws[p..])
  {
    assert draws[p..][0] == j;
    assert draws[p + 1..] == draws[p..][1..];
    var r := s[p := s[p + j]][p + j := s[p]];
    ShuffledHead(s[p..], draws[p..]);
    assert SwapHead(s[p..], j)[1..] == r[p + 1..];
    assert draws[p..][1..] == draws[p + 1..];
    assert r[..p + 1] == s[..p] + [s[p + j]];
    assert Shuffled(s[p..], draws[p..]) == [s[p + j]] + Shuffled(r[p + 1..], draws[p + 1..]);
  }
}
