/** The greedy matcher `nmtst_find_all_indexes`. */
module FindIndexes {

  /** `idx` pairs needles with elements: -1 or an equal element, and no element twice. */
  ghost predicate IsMatching<E, N>(elements: seq<E>, needles: seq<N>, eq: (E, N) -> bool, idx: seq<int>) {
    && |idx| == |needles|
    && (forall i :: 0 <= i < |idx| ==> -1 <= idx[i] < |elements|)
    && (forall i :: 0 <= i < |idx| && idx[i] >= 0 ==> eq(elements[idx[i]], needles[i]))
    && (forall i, k :: 0 <= k < i < |idx| && idx[i] >= 0 ==> idx[k] != idx[i])
  }

  /** Element `j` equals needle `i` and no earlier needle holds it. */
  ghost predicate Available<E, N>(elements: seq<E>, needles: seq<N>, eq: (E, N) -> bool, idx: seq<int>, i: nat, j: nat)
    requires i < |needles| && i <= |idx| && j < |elements|
  {
    j !in idx[..i] && eq(elements[j], needles[i])
  }

  /** Each needle in turn holds the least available element, or -1 when there is none. */
  ghost predicate IsGreedy<E, N>(elements: seq<E>, needles: seq<N>, eq: (E, N) -> bool, idx: seq<int>) {
    && |idx| <= |needles|
    && forall i :: 0 <= i < |idx| ==> IsLeastAvailable(elements, needles, eq, idx, i, idx[i])
  }

  ghost predicate IsLeastAvailable<E, N>(
    elements: seq<E>, needles: seq<N>, eq: (E, N) -> bool, idx: seq<int>, i: nat, at: int)
    requires i < |needles| && i <= |idx|
  {
    && -1 <= at < |elements|
    && (at >= 0 ==> Available(elements, needles, eq, idx, i, at))
    && forall j :: 0 <= j < (if at >= 0 then at else |elements|) ==> !Available(elements, needles, eq, idx, i, j)
  }

  /** Each needle gets the first element that equals it and that no earlier needle has got, or else -1. */
  lemma GreedyTakesFirst<E, N>(elements: seq<E>, needles: seq<N>, eq: (E, N) -> bool, idx: seq<int>, i: nat)
    requires IsGreedy(elements, needles, eq, idx) && i < |idx|
    ensures idx[i] != -1 ==> 0 <= idx[i] < |elements| && eq(elements[idx[i]], needles[i]) && idx[i] !in idx[..i]
    ensures forall j :: 0 <= j < |elements| && (idx[i] == -1 || j < idx[i]) && j !in idx[..i] ==>
              !eq(elements[j], needles[i])
  {
    assert IsLeastAvailable(elements, needles, eq, idx, i, idx[i]);
    forall j | 0 <= j < |elements| && (idx[i] == -1 || j < idx[i]) && j !in idx[..i]
      ensures !eq(elements[j], needles[i])
    {
      assert !Available(elements, needles, eq, idx, i, j);
    }
  }

  /** The number of needles that were found. */
  function Count(idx: seq<int>): (n: nat) {
    if idx == [] then 0 else Count(idx[..|idx| - 1]) + if idx[|idx| - 1] >= 0 then 1 else 0
  }

  lemma GreedyIsMatching<E, N>(elements: seq<E>, needles: seq<N>, eq: (E, N) -> bool, idx: seq<int>)
    requires IsGreedy(elements, needles, eq, idx) && |idx| == |needles|
    ensures IsMatching(elements, needles, eq, idx)
  {
    forall i, k | 0 <= k < i < |idx| && idx[i] >= 0 ensures idx[k] != idx[i] {
      assert IsLeastAvailable(elements, needles, eq, idx, i, idx[i]);
      assert idx[..i][k] == idx[k];
    }
    forall i | 0 <= i < |idx| ensures -1 <= idx[i] < |elements| && (idx[i] >= 0 ==> eq(elements[idx[i]], needles[i])) {
      assert IsLeastAvailable(elements, needles, eq, idx, i, idx[i]);
    }
  }

  /** The keys of the elements that `idx` leaves free, with repetition. */
  function FreeKeys<K>(keys: seq<K>, idx: seq<int>): (free: multiset<K>) {
    if keys == [] then multiset{}
    else
      var last := |keys| - 1;
      FreeKeys(keys[..last], idx) + if last in idx then multiset{} else multiset{keys[last]}
  }

  lemma {:induction false} FreeKeysOfNone<K>(keys: seq<K>)
    ensures FreeKeys(keys, []) == multiset(keys)
  {
    if keys != [] {
      var last := |keys| - 1;
      FreeKeysOfNone(keys[..last]);
      assert keys == keys[..last] + [keys[last]];
    }
  }

  lemma {:induction false} FreeKeyExists<K>(keys: seq<K>, idx: seq<int>, key: K)
    ensures key in FreeKeys(keys, idx) <==> exists j :: 0 <= j < |keys| && j !in idx && keys[j] == key
  {
    if keys != [] {
      var last := |keys| - 1;
      FreeKeyExists(keys[..last], idx, key);
      assert forall j :: 0 <= j < last ==> keys[..last][j] == keys[j];
    }
  }

  /** Giving a free element to the next needle removes exactly its key from the free ones. */
  lemma {:induction false} FreeKeysStep<K>(keys: seq<K>, idx: seq<int>, at: int)
    requires at < 0 || at !in idx
    ensures FreeKeys(keys, idx + [at]) ==
            if 0 <= at < |keys| then FreeKeys(keys, idx) - multiset{keys[at]} else FreeKeys(keys, idx)
    ensures 0 <= at < |keys| ==> keys[at] in FreeKeys(keys, idx)
  {
    if keys != [] {
      var last := |keys| - 1;
      var front := keys[..last];
      FreeKeysStep(front, idx, at);
      assert last in idx + [at] <==> last in idx || last == at;
      if 0 <= at < last {
        assert keys[at] == front[at];
        var free, here := FreeKeys(front, idx), if last in idx then multiset{} else multiset{keys[last]};
        assert (free - multiset{keys[at]}) + here == (free + here) - multiset{keys[at]};
      }
    }
  }

  /** `eq` compares keys. */
  ghost predicate ComparesKeys<E(!new), N(!new), K>(eq: (E, N) -> bool, elementKey: E -> K, needleKey: N -> K) {
    forall e, n :: eq(e, n) <==> elementKey(e) == needleKey(n)
  }

  function KeysOf<T, K>(s: seq<T>, key: T -> K): (keys: seq<K>) {
    seq(|s|, i requires 0 <= i < |s| => key(s[i]))
  }

  /**
   * What a matching of keys leaves free: at least the elements in excess of the needles, and exactly
   * those when the matching is the greedy one.
   */
  lemma {:induction false} FreeKeysOfMatching<E(!new), N(!new), K>(
    elements: seq<E>, needles: seq<N>, eq: (E, N) -> bool, elementKey: E -> K, needleKey: N -> K, idx: seq<int>)
    requires ComparesKeys(eq, elementKey, needleKey)
    requires IsMatching(elements, needles, eq, idx)
    ensures var e, n := KeysOf(elements, elementKey), KeysOf(needles, needleKey);
            && FreeKeys(e, idx) >= multiset(e) - multiset(n)
            && |FreeKeys(e, idx)| == |elements| - Count(idx)
            && (IsGreedy(elements, needles, eq, idx) ==> FreeKeys(e, idx) == multiset(e) - multiset(n))
    decreases |idx|
  {
    var e, n := KeysOf(elements, elementKey), KeysOf(needles, needleKey);
    if idx == [] {
      FreeKeysOfNone(e);
      assert multiset(n) == multiset{};
    } else {
      var last := |idx| - 1;
      var at, idx', needles', n' := idx[last], idx[..last], needles[..last], n[..last];
      LastOfMatching(elements, needles, eq, elementKey, needleKey, idx);
      if IsGreedy(elements, needles, eq, idx) {
        GreedyPrefix(elements, needles, eq, idx);
        if at < 0 {
          GreedyFindsNone(elements, needles, eq, elementKey, needleKey, idx);
        }
      }
      hide IsGreedy, IsMatching, ComparesKeys, FreeKeys, KeysOf;
      FreeKeysOfMatching(elements, needles', eq, elementKey, needleKey, idx');
      FreeKeysStep(e, idx', at);
      SplitLast(n);
      SplitLast(idx);
      LeftFree(multiset(e), multiset(n'), FreeKeys(e, idx'), FreeKeys(e, idx), n[last], at >= 0);
    }
  }

  /** A matching without its last index, and the key of the last element that it gives away. */
  lemma LastOfMatching<E(!new), N(!new), K>(
    elements: seq<E>, needles: seq<N>, eq: (E, N) -> bool, elementKey: E -> K, needleKey: N -> K, idx: seq<int>)
    requires ComparesKeys(eq, elementKey, needleKey) && IsMatching(elements, needles, eq, idx) && idx != []
    ensures var last, e, n := |idx| - 1, KeysOf(elements, elementKey), KeysOf(needles, needleKey);
            && |needles| == |idx| && |e| == |elements| && |n| == |needles|
            && IsMatching(elements, needles[..last], eq, idx[..last])
            && KeysOf(needles[..last], needleKey) == n[..last] && n[last] == needleKey(needles[last])
            && (idx[last] >= 0 ==> idx[last] < |e| && idx[last] !in idx[..last] && e[idx[last]] == n[last])
  {
    var last := |idx| - 1;
    if idx[last] >= 0 {
      assert eq(elements[idx[last]], needles[last]);
    }
  }

  lemma SplitLast<T>(s: seq<T>)
    requires s != []
    ensures s == s[..|s| - 1] + [s[|s| - 1]] && multiset(s) == multiset(s[..|s| - 1]) + multiset{s[|s| - 1]}
  {
    assert s == s[..|s| - 1] + [s[|s| - 1]];
  }

  /** One more needle with key `x`, which takes a free element or finds none. */
  lemma LeftFree<K>(e: multiset<K>, n: multiset<K>, free: multiset<K>, free': multiset<K>, x: K, taken: bool)
    requires free >= e - n
    requires if taken then x in free && free' == free - multiset{x} else free' == free
    ensures free' >= e - (n + multiset{x})
    ensures |free'| == |free| - if taken then 1 else 0
    ensures free == e - n && (taken || x !in free) ==> free' == e - (n + multiset{x})
  {
  }

  /** Where the greedy matching leaves a needle without an element, none with its key is free. */
  lemma GreedyFindsNone<E(!new), N(!new), K>(
    elements: seq<E>, needles: seq<N>, eq: (E, N) -> bool, elementKey: E -> K, needleKey: N -> K, idx: seq<int>)
    requires ComparesKeys(eq, elementKey, needleKey) && IsMatching(elements, needles, eq, idx) &&
             IsGreedy(elements, needles, eq, idx)
    requires idx != [] && idx[|idx| - 1] < 0
    ensures needleKey(needles[|idx| - 1]) !in FreeKeys(KeysOf(elements, elementKey), idx[..|idx| - 1])
  {
    var last := |idx| - 1;
    var e, idx', key := KeysOf(elements, elementKey), idx[..last], needleKey(needles[last]);
    FreeKeyExists(e, idx', key);
    assert IsLeastAvailable(elements, needles, eq, idx, last, idx[last]);
    forall j | 0 <= j < |e| && j !in idx' ensures e[j] != key {
      assert !Available(elements, needles, eq, idx, last, j);
    }
  }

  lemma GreedyPrefix<E, N>(elements: seq<E>, needles: seq<N>, eq: (E, N) -> bool, idx: seq<int>)
    requires idx != [] && |idx| == |needles| && IsGreedy(elements, needles, eq, idx)
    ensures IsGreedy(elements, needles[..|idx| - 1], eq, idx[..|idx| - 1])
  {
    var idx', needles' := idx[..|idx| - 1], needles[..|idx| - 1];
    forall i | 0 <= i < |idx'| ensures IsLeastAvailable(elements, needles', eq, idx', i, idx'[i]) {
      assert IsLeastAvailable(elements, needles, eq, idx, i, idx[i]);
      assert idx'[..i] == idx[..i];
      forall j | 0 <= j < |elements|
        ensures Available(elements, needles', eq, idx', i, j) == Available(elements, needles, eq, idx, i, j)
      {
      }
    }
  }

  lemma IntersectionSize<K>(a: multiset<K>, b: multiset<K>)
    ensures |a * b| == |a| - |a - b|
  {
    assert a == (a * b) + (a - b);
  }

  /**
   * With key equality the greedy result is a maximum matching: its size is that of the multiset
   * intersection of the keys, and no matching whatever is larger.
   */
  lemma GreedyIsMaximum<E(!new), N(!new), K>(
    elements: seq<E>, needles: seq<N>, eq: (E, N) -> bool, elementKey: E -> K, needleKey: N -> K, idx: seq<int>)
    requires ComparesKeys(eq, elementKey, needleKey)
    requires IsGreedy(elements, needles, eq, idx) && |idx| == |needles|
    ensures Count(idx) == |multiset(KeysOf(elements, elementKey)) * multiset(KeysOf(needles, needleKey))|
    ensures forall other :: IsMatching(elements, needles, eq, other) ==> Count(other) <= Count(idx)
  {
    var e, n := KeysOf(elements, elementKey), KeysOf(needles, needleKey);
    GreedyIsMatching(elements, needles, eq, idx);
    FreeKeysOfMatching(elements, needles, eq, elementKey, needleKey, idx);
    IntersectionSize(multiset(e), multiset(n));
    forall other | IsMatching(elements, needles, eq, other) ensures Count(other) <= Count(idx) {
      FreeKeysOfMatching(elements, needles, eq, elementKey, needleKey, other);
      var free, excess := FreeKeys(e, other), multiset(e) - multiset(n);
      assert free == excess + (free - excess);
    }
  }

  /** Elements that share a needle go with the same needles: the comparison falls into separate blocks. */
  ghost predicate IsBlockwise<E(!new), N(!new)>(eq: (E, N) -> bool) {
    forall e, f, n, m :: eq(e, n) && eq(f, n) && eq(e, m) ==> eq(f, m)
  }

  /** On all inputs the greedy matching finds as many needles as any other. */
  ghost predicate IsGreedyMaximum<E(!new), N(!new)>(eq: (E, N) -> bool) {
    forall elements: seq<E>, needles: seq<N>, idx, other ::
      IsGreedy(elements, needles, eq, idx) && |idx| == |needles| && IsMatching(elements, needles, eq, other) ==>
      Count(other) <= Count(idx)
  }

  /** A block is named by the needles in it; what goes with nothing stands alone. */
  datatype Key<!N> = ElementAlone | NeedleAlone | Block(needles: iset<N>)

  ghost function ElementKey<E(!new), N(!new)>(eq: (E, N) -> bool, e: E): (key: Key<N>) {
    if exists n :: eq(e, n) then Block(iset n | eq(e, n)) else ElementAlone
  }

  /** Some element goes with both needles. */
  ghost predicate AreTogether<E(!new), N>(eq: (E, N) -> bool, n: N, m: N) {
    exists e :: eq(e, n) && eq(e, m)
  }

  ghost function NeedleKey<E(!new), N(!new)>(eq: (E, N) -> bool, n: N): (key: Key<N>) {
    if exists e :: eq(e, n) then Block(iset m | AreTogether(eq, n, m)) else NeedleAlone
  }

  /** A comparison in blocks compares the names of the blocks. */
  lemma BlocksAreKeys<E(!new), N(!new)>(eq: (E, N) -> bool)
    requires IsBlockwise(eq)
    ensures ComparesKeys(eq, e => ElementKey(eq, e), n => NeedleKey(eq, n))
  {
    forall e, n ensures eq(e, n) <==> ElementKey(eq, e) == NeedleKey(eq, n) {
      var own, block := iset m | eq(e, m), iset m | AreTogether(eq, n, m);
      if eq(e, n) {
        assert own == block;
      } else {
        assert n !in own;
        assert (exists f :: eq(f, n)) ==> n in block;
      }
    }
  }

  /** Where two elements share one needle but not another, greedy can give the wrong one away. */
  lemma GreedyMisses<E(!new), N(!new)>(eq: (E, N) -> bool, e: E, f: E, n: N, m: N)
    requires eq(e, n) && eq(f, n) && eq(e, m) && !eq(f, m)
    ensures IsGreedy([e, f], [n, m], eq, [0, -1]) && IsMatching([e, f], [n, m], eq, [1, 0])
    ensures Count([0, -1]) < Count([1, 0])
  {
    assert IsLeastAvailable([e, f], [n, m], eq, [0, -1], 0, 0);
    assert [0, -1][..1] == [0];
    assert IsLeastAvailable([e, f], [n, m], eq, [0, -1], 1, -1);
    assert [1, 0][..1] == [1] && [1][..0] == [] && [0][..0] == [];
    assert Count([1]) == 1 && Count([0]) == 1;
  }

  /** Greedy is a maximum matching on all inputs exactly for the comparisons that fall into blocks. */
  lemma GreedyIsMaximumExactly<E(!new), N(!new)>(eq: (E, N) -> bool)
    ensures IsGreedyMaximum(eq) <==> IsBlockwise(eq)
  {
    if IsBlockwise(eq) {
      BlocksAreKeys(eq);
      forall elements: seq<E>, needles: seq<N>, idx, other
        | IsGreedy(elements, needles, eq, idx) && |idx| == |needles| && IsMatching(elements, needles, eq, other)
        ensures Count(other) <= Count(idx)
      {
        GreedyIsMaximum(elements, needles, eq, e => ElementKey(eq, e), n => NeedleKey(eq, n), idx);
      }
    } else {
      var e, f, n, m :| eq(e, n) && eq(f, n) && eq(e, m) && !eq(f, m);
      GreedyMisses(eq, e, f, n, m);
      assert |[0, -1]| == |[n, m]|;
    }
  }

  /** Equality up to a wildcard on either side is no such comparison: greedy misses a larger matching. */
  lemma GreedyNotMaximumInGeneral()
    ensures var eq := (e: int, n: int) => n == 0 || e == 0;
            && IsGreedy([0, 1], [0, 1], eq, [0, -1])
            && IsMatching([0, 1], [0, 1], eq, [1, 0])
            && Count([0, -1]) < Count([1, 0])
  {
    GreedyMisses((e: int, n: int) => n == 0 || e == 0, 0, 1, 0, 1);
  }

  /** The first element that goes with needle `i` and was not given away yet, or -1. */
  method FirstAvailable<E, N>(elements: seq<E>, needles: seq<N>, eq: (E, N) -> bool, outIdx: array<int>, i: nat)
    returns (idx: int)
    requires i < |needles| <= outIdx.Length
    ensures IsLeastAvailable(elements, needles, eq, outIdx[..i], i, idx)
  {
    ghost var done := outIdx[..i];
    idx := -1;
    var j := 0;
    while j < |elements|
      invariant 0 <= j <= |elements| && idx == -1
      invariant forall m :: 0 <= m < j ==> !Available(elements, needles, eq, done, i, m)
    {
      // no duplicates
      var taken := false;
      for k := 0 to i
        invariant taken <==> j in done[..k]
      {
        assert done[..k + 1] == done[..k] + [done[k]];
        if outIdx[k] == j {
          taken := true;
          break;
        }
      }
      assert !taken ==> done[..i] == done;
      if !taken && eq(elements[j], needles[i]) {
        idx := j;
        break;
      }
      j := j + 1;
    }
  }

  method FindAllIndexes<E, N>(elements: seq<E>, needles: seq<N>, eq: (E, N) -> bool, outIdx: array<int>)
    returns (found: nat)
    requires outIdx.Length >= |needles|
    modifies outIdx
    ensures IsGreedy(elements, needles, eq, outIdx[..|needles|])
    ensures IsMatching(elements, needles, eq, outIdx[..|needles|])
    ensures found == Count(outIdx[..|needles|])
    ensures outIdx[|needles|..] == old(outIdx[|needles|..])
  {
    hide IsGreedy, IsLeastAvailable, IsMatching, Count;
    found := 0;
    ghost var done: seq<int> := [];
    NothingIsGreedy(elements, needles, eq);
    for i := 0 to |needles|
      invariant outIdx[..i] == done && IsGreedy(elements, needles, eq, done) && found == Count(done)
      invariant forall k :: |needles| <= k < outIdx.Length ==> outIdx[k] == old(outIdx[k])
    {
      var idx := FirstAvailable(elements, needles, eq, outIdx, i);
      outIdx[i] := idx;
      GreedyExtends(elements, needles, eq, done, idx);
      CountMore(done, idx);
      if idx >= 0 {
        found := found + 1;
      }
      done := done + [idx];
      assert outIdx[..i + 1] == done;
    }
    GreedyIsMatching(elements, needles, eq, done);
  }

  lemma CountMore(idx: seq<int>, at: int)
    ensures Count(idx + [at]) == Count(idx) + if at >= 0 then 1 else 0
  {
    assert (idx + [at])[..|idx|] == idx;
  }

  lemma NothingIsGreedy<E, N>(elements: seq<E>, needles: seq<N>, eq: (E, N) -> bool)
    ensures IsGreedy(elements, needles, eq, []) && Count([]) == 0
  {
  }

  lemma GreedyExtends<E, N>(elements: seq<E>, needles: seq<N>, eq: (E, N) -> bool, idx: seq<int>, at: int)
    requires |idx| < |needles| && IsGreedy(elements, needles, eq, idx)
    requires IsLeastAvailable(elements, needles, eq, idx, |idx|, at)
    ensures IsGreedy(elements, needles, eq, idx + [at])
  {
    forall i | 0 <= i <= |idx| ensures IsLeastAvailable(elements, needles, eq, idx + [at], i, (idx + [at])[i]) {
      assert (idx + [at])[..i] == idx[..i];
      forall j | 0 <= j < |elements|
        ensures Available(elements, needles, eq, idx + [at], i, j) == Available(elements, needles, eq, idx, i, j) {
      }
      assert i < |idx| ==> IsLeastAvailable(elements, needles, eq, idx, i, idx[i]);
    }
  }
}
