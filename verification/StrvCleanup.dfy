/** Searching and cleaning a NULL-terminated vector of strings. */
module StrvCleanup {
  import opened Basics
  import opened Glib

  /** A heap-allocated C string. */
  class Str {
    var text: string

    constructor (text: string)
      ensures this.text == text
    {
      this.text := text;
    }
  }

  /** The first `n` slots hold strings and the next one ends the vector. */
  ghost predicate IsStrv(strv: array<Str?>, n: nat)
    reads strv
  {
    && n < strv.Length && strv[n] == null
    && forall i :: 0 <= i < n ==> strv[i] != null
  }

  ghost function Strings(strv: array<Str?>, n: nat): (strs: seq<Str>)
    requires IsStrv(strv, n)
    reads strv
  {
    seq(n, i requires 0 <= i < n reads strv requires IsStrv(strv, n) => strv[i])
  }

  /** The strings hold the given texts. */
  ghost predicate Have(strs: seq<Str>, texts: seq<string>)
    reads strs
  {
    |strs| == |texts| && forall i :: 0 <= i < |strs| ==> strs[i].text == texts[i]
  }

  ghost predicate Distinct(strs: seq<Str>) {
    forall i, j :: 0 <= i < j < |strs| ==> strs[i] != strs[j]
  }

  ghost predicate Matches(str: Str?, needle: Option<string>)
    reads str
  {
    if needle.None? then str == null else str != null && str.text == needle.value
  }

  /** The length of the part of the list that a search looks at. */
  ghost predicate SearchLength(list: array?<Str?>, len: int, n: nat)
    reads list
  {
    if len > 0 then n == (if list == null then 0 else len)
    else if len < 0 then (if list == null then n == 0 else IsStrv(list, n))
    else n == 0
  }

  /**
   * The index of the first match in the first `len` slots, or for negative `len` up to the NULL;
   * -1 without a match. Only a search of known length can look for NULL.
   */
  method StrvFindFirst(list: array?<Str?>, len: int, needle: Option<string>, ghost n: nat) returns (r: int)
    requires list != null && len > 0 ==> len <= list.Length
    requires SearchLength(list, len, n)
    ensures -1 <= r < n
    ensures len < 0 && needle.None? ==> r == -1
    ensures !(len < 0 && needle.None?) ==>
              && (r >= 0 ==> Matches(list[r], needle))
              && forall k :: 0 <= k < (if r >= 0 then r else n) ==> !Matches(list[k], needle)
  {
    var i := 0;
    if len > 0 {
      if list == null { return -1; }
      if needle.None? {
        while i < len
          invariant 0 <= i <= len && forall k :: 0 <= k < i ==> list[k] != null
        {
          if list[i] == null { return i; }
          i := i + 1;
        }
      } else {
        while i < len
          invariant 0 <= i <= len && forall k :: 0 <= k < i ==> !Matches(list[k], needle)
        {
          if list[i] != null && needle.value == list[i].text { return i; }
          i := i + 1;
        }
      }
    } else if len < 0 {
      if needle.None? { return -1; }
      if list != null {
        while list[i] != null
          invariant 0 <= i <= n && forall k :: 0 <= k < i ==> !Matches(list[k], needle)
          decreases n - i
        {
          if needle.value == list[i].text { return i; }
          i := i + 1;
        }
      }
    }
    return -1;
  }

  /** String `i` survives: not an unwanted empty string, and not an unwanted repetition. */
  predicate Keeps(texts: seq<string>, i: nat, skipEmpty: bool, skipRepeated: bool)
    requires i < |texts|
  {
    !(skipEmpty && texts[i] == "") && !(skipRepeated && texts[i] in texts[..i])
  }

  /** The items whose texts survive, in order. */
  function Kept<T>(items: seq<T>, texts: seq<string>, skipEmpty: bool, skipRepeated: bool): (kept: seq<T>)
    requires |items| == |texts|
  {
    if items == [] then []
    else
      var last := |items| - 1;
      Kept(items[..last], texts[..last], skipEmpty, skipRepeated)
      + if Keeps(texts, last, skipEmpty, skipRepeated) then [items[last]] else []
  }

  function Dropped<T>(items: seq<T>, texts: seq<string>, skipEmpty: bool, skipRepeated: bool): (dropped: seq<T>)
    requires |items| == |texts|
  {
    if items == [] then []
    else
      var last := |items| - 1;
      Dropped(items[..last], texts[..last], skipEmpty, skipRepeated)
      + if Keeps(texts, last, skipEmpty, skipRepeated) then [] else [items[last]]
  }

  /** Every item is kept or dropped, exactly once. */
  lemma {:induction false} KeptAndDropped<T>(items: seq<T>, texts: seq<string>, skipEmpty: bool, skipRepeated: bool)
    requires |items| == |texts|
    ensures multiset(Kept(items, texts, skipEmpty, skipRepeated))
            + multiset(Dropped(items, texts, skipEmpty, skipRepeated)) == multiset(items)
  {
    hide Keeps;
    if items != [] {
      var last := |items| - 1;
      KeptAndDropped(items[..last], texts[..last], skipEmpty, skipRepeated);
      assert items == items[..last] + [items[last]];
      var kept := Kept(items[..last], texts[..last], skipEmpty, skipRepeated);
      var dropped := Dropped(items[..last], texts[..last], skipEmpty, skipRepeated);
      OneMore(kept, dropped, items[..last], items[last]);
    }
  }

  lemma OneMore<T>(kept: seq<T>, dropped: seq<T>, items: seq<T>, item: T)
    requires multiset(kept) + multiset(dropped) == multiset(items)
    ensures multiset(kept + [item]) + multiset(dropped) == multiset(items + [item])
    ensures multiset(kept) + multiset(dropped + [item]) == multiset(items + [item])
    ensures kept + [] == kept && dropped + [] == dropped
  {
  }

  /** The surviving texts: no empty one, no repetition, and nothing wanted is missing. */
  lemma {:induction false} KeptTexts(texts: seq<string>, skipEmpty: bool, skipRepeated: bool)
    ensures var kept := Kept(texts, texts, skipEmpty, skipRepeated);
            && (forall t :: t in kept <==> t in texts && !(skipEmpty && t == ""))
            && (skipRepeated ==> forall i, j :: 0 <= i < j < |kept| ==> kept[i] != kept[j])
  {
    if texts != [] {
      var last := |texts| - 1;
      KeptTexts(texts[..last], skipEmpty, skipRepeated);
      var kept', kept := Kept(texts[..last], texts[..last], skipEmpty, skipRepeated),
                         Kept(texts, texts, skipEmpty, skipRepeated);
      var more := if Keeps(texts, last, skipEmpty, skipRepeated) then [texts[last]] else [];
      assert kept == kept' + more;
      assert forall t :: t in texts <==> t in texts[..last] || t == texts[last];
      assert forall t :: t in kept <==> t in kept' || t in more;
    }
  }

  /** The survivors keep their order, and of several equal strings it is the first that survives. */
  lemma {:induction false} KeptInOrder<T>(items: seq<T>, texts: seq<string>, skipEmpty: bool, skipRepeated: bool)
    returns (at: seq<nat>)
    requires |items| == |texts|
    ensures var kept := Kept(items, texts, skipEmpty, skipRepeated);
            && |at| == |kept| && (forall k :: 0 <= k < |at| ==> at[k] < |items| && kept[k] == items[at[k]])
            && (forall j, k :: 0 <= j < k < |at| ==> at[j] < at[k])
            && forall i :: 0 <= i < |items| ==>
                 (i in at <==> !(skipEmpty && texts[i] == "") && !(skipRepeated && texts[i] in texts[..i]))
  {
    if items == [] {
      at := [];
    } else {
      var last := |items| - 1;
      at := KeptInOrder(items[..last], texts[..last], skipEmpty, skipRepeated);
      forall i | 0 <= i < last ensures texts[..last][..i] == texts[..i] {}
      assert last !in at;
      if Keeps(texts, last, skipEmpty, skipRepeated) {
        at := at + [last];
      }
    }
  }

  lemma {:induction false} KeptAll(texts: seq<string>, skipEmpty: bool, skipRepeated: bool)
    requires forall i :: 0 <= i < |texts| ==> Keeps(texts, i, skipEmpty, skipRepeated)
    ensures Kept(texts, texts, skipEmpty, skipRepeated) == texts
  {
    if texts != [] {
      var last := |texts| - 1;
      forall i | 0 <= i < last ensures Keeps(texts[..last], i, skipEmpty, skipRepeated) {
        assert Keeps(texts, i, skipEmpty, skipRepeated) && texts[..last][..i] == texts[..i];
      }
      KeptAll(texts[..last], skipEmpty, skipRepeated);
      assert texts == texts[..last] + [texts[last]];
    }
  }

  function StripAll(texts: seq<string>): (r: seq<string>) {
    seq(|texts|, i requires 0 <= i < |texts| => Strip(texts[i]))
  }

  /** The texts that the clean-up leaves. */
  function Cleaned(texts: seq<string>, strip: bool, skipEmpty: bool, skipRepeated: bool): (r: seq<string>) {
    var texts' := if strip then StripAll(texts) else texts;
    Kept(texts', texts', skipEmpty, skipRepeated)
  }

  /** Cleaning again changes nothing. */
  lemma CleanedIdempotent(texts: seq<string>, strip: bool, skipEmpty: bool, skipRepeated: bool)
    ensures var r := Cleaned(texts, strip, skipEmpty, skipRepeated);
            Cleaned(r, strip, skipEmpty, skipRepeated) == r
  {
    var texts' := if strip then StripAll(texts) else texts;
    var r := Cleaned(texts, strip, skipEmpty, skipRepeated);
    KeptTexts(texts', skipEmpty, skipRepeated);
    assert r == Kept(texts', texts', skipEmpty, skipRepeated);
    if strip {
      forall i | 0 <= i < |r| ensures Strip(r[i]) == r[i] {
        assert r[i] in texts';
        var k :| 0 <= k < |texts'| && texts'[k] == r[i];
        StripIdempotent(texts[k]);
      }
      assert StripAll(r) == r;
    }
    forall i | 0 <= i < |r| ensures Keeps(r, i, skipEmpty, skipRepeated) {
      assert r[i] in r;
      forall k | 0 <= k < i && skipRepeated ensures r[..i][k] != r[i] {
        assert r[k] != r[i];
      }
    }
    KeptAll(r, skipEmpty, skipRepeated);
  }

  lemma {:induction false} KeptOfTexts(strs: seq<Str>, texts: seq<string>, skipEmpty: bool, skipRepeated: bool)
    requires Have(strs, texts)
    ensures Have(Kept(strs, texts, skipEmpty, skipRepeated), Kept(texts, texts, skipEmpty, skipRepeated))
    decreases |strs|
  {
    hide Keeps;
    if strs != [] {
      var last := |strs| - 1;
      KeptOfTexts(strs[..last], texts[..last], skipEmpty, skipRepeated);
    }
  }

  /** Among the kept strings of a prefix, a text occurs exactly when it occurs among the wanted ones of the prefix. */
  lemma KeptHolds(strs: seq<Str>, texts: seq<string>, i: nat, skipEmpty: bool, skipRepeated: bool)
    requires Have(strs, texts) && i < |strs|
    ensures var kept := Kept(strs[..i], texts[..i], skipEmpty, skipRepeated);
            !(skipEmpty && texts[i] == "") ==>
              ((exists k :: 0 <= k < |kept| && kept[k].text == texts[i]) <==> texts[i] in texts[..i])
  {
    hide Kept;
    KeptOfTexts(strs[..i], texts[..i], skipEmpty, skipRepeated);
    KeptTexts(texts[..i], skipEmpty, skipRepeated);
    var wanted := Kept(texts[..i], texts[..i], skipEmpty, skipRepeated);
    assert !(skipEmpty && texts[i] == "") ==> (texts[i] in wanted <==> texts[i] in texts[..i]);
  }

  method StripStrings(strv: array<Str?>, ghost strs: seq<Str>, ghost texts: seq<string>)
    requires IsStrv(strv, |strs|) && Strings(strv, |strs|) == strs && Have(strs, texts) && Distinct(strs)
    modifies strs
    ensures Have(strs, StripAll(texts))
  {
    var i := 0;
    while strv[i] != null
      invariant 0 <= i <= |strs|
      invariant forall k :: 0 <= k < |strs| ==> strs[k].text == if k < i then Strip(texts[k]) else texts[k]
      decreases |strs| - i
    {
      assert strv[i] == Strings(strv, |strs|)[i] == strs[i];
      strv[i].text := Strip(strv[i].text);
      i := i + 1;
    }
  }

  /**
   * Removes, in place, what is not wanted. The survivors keep their order at the front of the vector,
   * and `freed` lists the other strings, in the order in which they were freed.
   */
  method StrvCleanup(strv: array?<Str?>, strip: bool, skipEmpty: bool, skipRepeated: bool,
                     ghost strs: seq<Str>, ghost texts: seq<string>) returns (ghost freed: seq<Str>)
    requires strv != null ==>
             IsStrv(strv, |strs|) && Strings(strv, |strs|) == strs && Have(strs, texts) && Distinct(strs)
    modifies strv, strs
    ensures strv != null ==>
              var texts' := if strip then StripAll(texts) else texts;
              var kept := Kept(strs, texts', skipEmpty, skipRepeated);
              && IsStrv(strv, |kept|) && Strings(strv, |kept|) == kept
              && Have(kept, Cleaned(texts, strip, skipEmpty, skipRepeated))
              && freed == Dropped(strs, texts', skipEmpty, skipRepeated)
              && multiset(kept) + multiset(freed) == multiset(strs)
    ensures strv == null ==> freed == []
  {
    hide Kept, Dropped;
    freed := [];
    if strv == null { return; }
    ghost var texts' := if strip then StripAll(texts) else texts;
    if strip {
      StripStrings(strv, strs, texts);
    }
    assert Cleaned(texts, strip, skipEmpty, skipRepeated) == Kept(texts', texts', skipEmpty, skipRepeated);
    KeptAndDropped(strs, texts', skipEmpty, skipRepeated);
    if !skipEmpty && !skipRepeated {
      KeepsEverything(strs, texts');
    } else {
      freed := Compact(strv, skipEmpty, skipRepeated, strs, texts');
    }
    KeptOfTexts(strs, texts', skipEmpty, skipRepeated);
  }

  lemma {:induction false} KeepsEverything<T>(items: seq<T>, texts: seq<string>)
    requires |items| == |texts|
    ensures Kept(items, texts, false, false) == items
    ensures Dropped(items, texts, false, false) == []
  {
    if items != [] {
      var last := |items| - 1;
      KeepsEverything(items[..last], texts[..last]);
      assert items == items[..last] + [items[last]];
    }
  }

  method Compact(strv: array<Str?>, skipEmpty: bool, skipRepeated: bool, ghost strs: seq<Str>, ghost texts: seq<string>)
    returns (ghost freed: seq<Str>)
    requires IsStrv(strv, |strs|) && Strings(strv, |strs|) == strs && Have(strs, texts) && Distinct(strs)
    modifies strv
    ensures var kept := Kept(strs, texts, skipEmpty, skipRepeated);
            IsStrv(strv, |kept|) && Strings(strv, |kept|) == kept
    ensures freed == Dropped(strs, texts, skipEmpty, skipRepeated)
  {
    hide Kept, Dropped, Keeps;
    freed := [];
    NothingKept(strs, texts, skipEmpty, skipRepeated);
    var i, j := 0, 0;
    while strv[i] != null
      invariant 0 <= j <= i <= |strs| < strv.Length
      invariant var kept := Kept(strs[..i], texts[..i], skipEmpty, skipRepeated);
                |kept| == j && forall k :: 0 <= k < j ==> strv[k] == kept[k]
      invariant forall k :: i <= k < |strs| ==> strv[k] == strs[k]
      invariant strv[|strs|] == null
      invariant freed == Dropped(strs[..i], texts[..i], skipEmpty, skipRepeated)
      decreases |strs| - i
    {
      PrefixStep(strs, texts, i, skipEmpty, skipRepeated);
      var drop := IsUnwanted(strv, i, j, skipEmpty, skipRepeated, strs, texts);
      if drop {
        freed := freed + [strv[i]];
      } else {
        strv[j] := strv[i];
        j := j + 1;
      }
      i := i + 1;
    }
    assert strs[..i] == strs && texts[..i] == texts;
    strv[j] := null;
  }

  /** Whether string `i` is to go, given the `j` strings kept so far at the front of the vector. */
  method IsUnwanted(strv: array<Str?>, i: nat, j: nat, skipEmpty: bool, skipRepeated: bool, ghost strs: seq<Str>,
      ghost texts: seq<string>)
    returns (drop: bool)
    requires j <= i < |strs| < strv.Length && strv[i] == strs[i] && Have(strs, texts) && Distinct(strs)
    requires var kept := Kept(strs[..i], texts[..i], skipEmpty, skipRepeated);
             |kept| == j && forall k :: 0 <= k < j ==> strv[k] == kept[k]
    ensures drop <==> !Keeps(texts, i, skipEmpty, skipRepeated)
  {
    hide Kept;
    ghost var kept := Kept(strs[..i], texts[..i], skipEmpty, skipRepeated);
    KeptHolds(strs, texts, i, skipEmpty, skipRepeated);
    drop := skipEmpty && strv[i].text == "";
    if !drop && skipRepeated {
      var found := StrvFindFirst(strv, j, Some(strv[i].text), j);
      drop := found >= 0;
      assert found >= 0 ==> kept[found].text == texts[i];
      assert forall k :: 0 <= k < j ==> strv[k] == kept[k];
    }
  }

  lemma NothingKept(strs: seq<Str>, texts: seq<string>, skipEmpty: bool, skipRepeated: bool)
    ensures Kept(strs[..0], texts[..0], skipEmpty, skipRepeated) == [] &&
            Dropped(strs[..0], texts[..0], skipEmpty, skipRepeated) == []
  {
  }

  lemma PrefixStep<T>(items: seq<T>, texts: seq<string>, i: nat, skipEmpty: bool, skipRepeated: bool)
    requires |items| == |texts| && i < |items|
    ensures Kept(items[..i + 1], texts[..i + 1], skipEmpty, skipRepeated) ==
            Kept(items[..i], texts[..i], skipEmpty, skipRepeated)
            + if Keeps(texts, i, skipEmpty, skipRepeated) then [items[i]] else []
    ensures Dropped(items[..i + 1], texts[..i + 1], skipEmpty, skipRepeated) ==
            Dropped(items[..i], texts[..i], skipEmpty, skipRepeated)
            + if Keeps(texts, i, skipEmpty, skipRepeated) then [] else [items[i]]
  {
    assert items[..i + 1][..i] == items[..i] && texts[..i + 1][..i] == texts[..i];
  }
}
