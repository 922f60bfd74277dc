/** The numeric-aware order of D-Bus object paths, `nm_utils_dbus_path_cmp`. */
module DBusPath {
  import opened Basics
  import opened Numerals

  const INT64_MAX: int := 0x7fff_ffff_ffff_ffff

  /** The sign of C's strcmp. */
  function StrCmp(a: string, b: string): (r: int) {
    if a == [] && b == [] then 0
    else if a == [] then -1
    else if b == [] then 1
    else if a[0] < b[0] then -1
    else if a[0] > b[0] then 1
    else StrCmp(a[1..], b[1..])
  }

  lemma {:induction false} StrCmpAntisymmetric(a: string, b: string)
    ensures StrCmp(a, b) == -StrCmp(b, a)
    ensures StrCmp(a, b) == 0 <==> a == b
    ensures -1 <= StrCmp(a, b) <= 1
  {
    if a != [] && b != [] && a[0] == b[0] {
      StrCmpAntisymmetric(a[1..], b[1..]);
      assert a == [a[0]] + a[1..] && b == [b[0]] + b[1..];
    }
  }

  lemma {:induction false} StrCmpTransitive(a: string, b: string, c: string)
    requires StrCmp(a, b) <= 0 && StrCmp(b, c) <= 0
    ensures StrCmp(a, c) <= 0
    ensures StrCmp(a, b) < 0 || StrCmp(b, c) < 0 ==> StrCmp(a, c) < 0
  {
    if a != [] && b != [] && c != [] && a[0] == b[0] == c[0] {
      StrCmpTransitive(a[1..], b[1..], c[1..]);
    }
  }

  /** strrchr for a slash: its last index, or -1. */
  function LastSlash(s: string): (i: int)
    ensures -1 <= i < |s|
    ensures i >= 0 ==> s[i] == '/'
    ensures forall k :: i < k < |s| ==> s[k] != '/'
  {
    if s == [] then -1
    else if s[|s| - 1] == '/' then |s| - 1
    else LastSlash(s[..|s| - 1])
  }

  /** `a` comes first in a dictionary: it is a proper beginning of `b`, or smaller where they first differ. */
  ghost predicate Precedes(a: string, b: string) {
    || (|a| < |b| && a == b[..|a|])
    || exists k :: 0 <= k < |a| && k < |b| && a[..k] == b[..k] && a[k] < b[k]
  }

  /** The comparison of texts is that of a dictionary. */
  lemma {:induction false} TextsLikeDictionary(a: string, b: string)
    ensures StrCmp(a, b) < 0 <==> Precedes(a, b)
  {
    if a != [] && b != [] && a[0] == b[0] {
      TextsLikeDictionary(a[1..], b[1..]);
      assert a == [a[0]] + a[1..] && b == [b[0]] + b[1..];
      if Precedes(a[1..], b[1..]) && !(|a| < |b| && a[1..] == b[1..][..|a| - 1]) {
        var k :| 0 <= k < |a[1..]| && k < |b[1..]| && a[1..][..k] == b[1..][..k] && a[1..][k] < b[1..][k];
        assert a[..k + 1] == [a[0]] + a[1..][..k] && b[..k + 1] == [b[0]] + b[1..][..k];
        assert a[..k + 1] == b[..k + 1] && a[k + 1] < b[k + 1];
      }
      if k :| 0 <= k < |a| && k < |b| && a[..k] == b[..k] && a[k] < b[k] {
        assert a[1..][..k - 1] == a[..k][1..] && b[1..][..k - 1] == b[..k][1..];
        assert a[1..][k - 1] < b[1..][k - 1];
      }
      assert |a| < |b| && a[1..] == b[1..][..|a| - 1] <==> |a| < |b| && a == b[..|a|];
    } else if a != [] && b != [] {
      assert a[..0] == b[..0];
    }
  }

  /** A component as a number: no leading zeros, within 64 bits; -1 for everything else. */
  function ComponentAsNum(p: string): (n: int)
    ensures -1 <= n <= INT64_MAX
  {
    if p == [] then -1
    else if p[0] == '0' then (if |p| > 1 then -1 else 0)
    else if !IsDigit(p[0]) || !AllDigits(p[1..]) then -1
    else
      assert p == [p[0]] + p[1..];
      var v := DecimalValue(p);
      if v > INT64_MAX then -1 else v
  }

  /** A numeral without leading zeros. */
  predicate Canonical(p: string) {
    p != [] && AllDigits(p) && (p[0] == '0' ==> |p| == 1)
  }

  /** A numeral is its front, which is one too unless it is empty, followed by a digit. */
  lemma FrontOfNumeral(p: string)
    requires Canonical(p)
    ensures var front, digit := p[..|p| - 1], (p[|p| - 1] - '0') as int;
            && AllDigits(front) && DecimalValue(p) == 10 * DecimalValue(front) + digit && 0 <= digit < 10
            && (front != [] ==> Canonical(front) && front[0] == p[0] != '0')
  {
  }

  lemma FrontAndLast(p: string)
    requires p != []
    ensures p == p[..|p| - 1] + [p[|p| - 1]]
  {
  }

  lemma {:induction false} CanonicalPositive(p: string)
    requires Canonical(p) && p[0] != '0'
    ensures DecimalValue(p) >= 1
  {
    FrontOfNumeral(p);
    if |p| > 1 {
      CanonicalPositive(p[..|p| - 1]);
    }
  }

  /** The decimal parse is injective on numerals without leading zeros. */
  lemma {:induction false} CanonicalInjective(p: string, q: string)
    requires Canonical(p) && Canonical(q) && DecimalValue(p) == DecimalValue(q)
    ensures p == q
    decreases |p|
  {
    var p', q' := p[..|p| - 1], q[..|q| - 1];
    FrontOfNumeral(p);
    FrontOfNumeral(q);
    FrontAndLast(p);
    FrontAndLast(q);
    if |p| > 1 { CanonicalPositive(p'); }
    if |q| > 1 { CanonicalPositive(q'); }
    if |p| > 1 && |q| > 1 {
      CanonicalInjective(p', q');
    }
    hide DecimalValue, Canonical, AllDigits;
  }

  lemma ComponentNumInjective(p: string, q: string)
    requires ComponentAsNum(p) == ComponentAsNum(q) != -1
    ensures p == q
  {
    assert p == [p[0]] + p[1..] && q == [q[0]] + q[1..];
    CanonicalInjective(p, q);
  }

  /** Exactly the canonical numerals within 64 bits count as numbers. */
  lemma ComponentNumeric(p: string)
    ensures ComponentAsNum(p) != -1 <==> Canonical(p) && DecimalValue(p) <= 9_223_372_036_854_775_807
    ensures ComponentAsNum(p) != -1 ==> ComponentAsNum(p) == DecimalValue(p)
  {
    if p != [] {
      assert p == [p[0]] + p[1..];
      assert p[..0] == [];
    }
  }

  /** The comparison itself; `None` is the NULL path. */
  function PathCmp(a: Option<string>, b: Option<string>): (r: int) {
    if a == b then 0
    else if a.None? then -1
    else if b.None? then 1
    else StringPathCmp(a.value, b.value)
  }

  function StringPathCmp(a: string, b: string): (r: int) {
    var slashA, slashB := LastSlash(a), LastSlash(b);
    if slashA < 0 || slashB < 0 || slashA != slashB then StrCmp(a, b)
    else
      var prefix := StrCmp(a[..slashA + 1], b[..slashB + 1]);
      if prefix != 0 then prefix
      else ComponentCmp(a[slashA + 1..], b[slashB + 1..])
  }

  /** The order of last components: non-numbers by text, then numbers by value. */
  function ComponentCmp(a: string, b: string): (r: int) {
    var numA, numB := ComponentAsNum(a), ComponentAsNum(b);
    if numA == -1 && numB == -1 then StrCmp(a, b)
    else if numA == -1 then -1
    else if numB == -1 then 1
    else if numA != numB then (if numA < numB then -1 else 1)
    else 0
  }

  /** A component that counts as a number. */
  predicate IsNumber(p: string) { Canonical(p) && DecimalValue(p) <= 9_223_372_036_854_775_807 }

  /**
   * Below one prefix, components that are no numbers come first, in the order of a dictionary, and then the numbers by
   * their values. NULL comes before every path.
   */
  lemma ComponentsOrdered(prefix: string, a: string, b: string)
    requires prefix != "" && prefix[|prefix| - 1] == '/' && '/' !in a && '/' !in b
    ensures PathCmp(Some(prefix + a), Some(prefix + b)) < 0 <==>
            if IsNumber(a) && IsNumber(b) then DecimalValue(a) < DecimalValue(b)
            else if !IsNumber(a) && !IsNumber(b) then Precedes(a, b)
            else !IsNumber(a)
    ensures PathCmp(None, Some(prefix + a)) < 0
  {
    LastSlashOf(prefix, a);
    LastSlashOf(prefix, b);
    StrCmpAntisymmetric(prefix, prefix);
    ComponentNumeric(a);
    ComponentNumeric(b);
    TextsLikeDictionary(a, b);
    StrCmpAntisymmetric(a, b);
    ComponentCmpAntisymmetric(a, b);
    assert (prefix + a)[..|prefix|] == prefix && (prefix + a)[|prefix|..] == a;
    assert (prefix + b)[..|prefix|] == prefix && (prefix + b)[|prefix|..] == b;
    assert prefix + a == prefix + b ==> a == b;
    hide StrCmp, LastSlash, ComponentAsNum, Precedes, Canonical, DecimalValue;
  }

  lemma LastSlashOf(prefix: string, a: string)
    requires prefix != "" && prefix[|prefix| - 1] == '/' && '/' !in a
    ensures LastSlash(prefix + a) == |prefix| - 1
  {
    var s := prefix + a;
    assert s[|prefix| - 1] == '/';
    assert forall k :: |prefix| <= k < |s| ==> s[k] == a[k - |prefix|];
  }

  /** The length of the part up to the last component; 0 without a slash. */
  function PrefixLength(s: string): (n: nat) { LastSlash(s) + 1 }

  lemma ComponentCmpAntisymmetric(a: string, b: string)
    ensures ComponentCmp(a, b) == -ComponentCmp(b, a)
    ensures ComponentCmp(a, b) == 0 <==> a == b
  {
    StrCmpAntisymmetric(a, b);
    if ComponentAsNum(a) == ComponentAsNum(b) != -1 {
      ComponentNumInjective(a, b);
    }
  }

  lemma ComponentCmpTransitive(a: string, b: string, c: string)
    requires ComponentCmp(a, b) <= 0 && ComponentCmp(b, c) <= 0
    ensures ComponentCmp(a, c) <= 0
    ensures ComponentCmp(a, b) < 0 || ComponentCmp(b, c) < 0 ==> ComponentCmp(a, c) < 0
  {
    if StrCmp(a, b) <= 0 && StrCmp(b, c) <= 0 {
      StrCmpTransitive(a, b, c);
    }
  }

  lemma StringPathCmpAntisymmetric(a: string, b: string)
    ensures StringPathCmp(a, b) == -StringPathCmp(b, a)
    ensures StringPathCmp(a, b) == 0 <==> a == b
  {
    StrCmpAntisymmetric(a, b);
    var slash := LastSlash(a);
    if slash == LastSlash(b) >= 0 {
      StrCmpAntisymmetric(a[..slash + 1], b[..slash + 1]);
      ComponentCmpAntisymmetric(a[slash + 1..], b[slash + 1..]);
      assert a == a[..slash + 1] + a[slash + 1..] && b == b[..slash + 1] + b[slash + 1..];
    }
  }

  /** On all pairs: antisymmetric, and 0 exactly for equal paths. */
  lemma PathCmpAntisymmetric(a: Option<string>, b: Option<string>)
    ensures PathCmp(a, b) == -PathCmp(b, a)
    ensures PathCmp(a, b) == 0 <==> a == b
  {
    if a.Some? && b.Some? {
      StringPathCmpAntisymmetric(a.value, b.value);
    }
  }

  lemma FamilyTransitive(a: string, b: string, c: string)
    requires PrefixLength(a) == PrefixLength(b) == PrefixLength(c)
    requires StringPathCmp(a, b) <= 0 && StringPathCmp(b, c) <= 0
    ensures StringPathCmp(a, c) <= 0
  {
    var n := PrefixLength(a);
    if n == 0 {
      StrCmpTransitive(a, b, c);
    } else {
      StrCmpAntisymmetric(a[..n], b[..n]);
      StrCmpAntisymmetric(b[..n], c[..n]);
      StrCmpTransitive(a[..n], b[..n], c[..n]);
      if a[..n] == b[..n] == c[..n] {
        ComponentCmpTransitive(a[n..], b[n..], c[n..]);
      }
      StrCmpAntisymmetric(a[..n], c[..n]);
    }
  }

  /** Paths of equal prefix length (NULL included) are totally ordered. */
  lemma TotalOrderOnFamily(a: Option<string>, b: Option<string>, c: Option<string>, prefixLength: nat)
    requires forall p :: p in [a, b, c] && p.Some? ==> PrefixLength(p.value) == prefixLength
    ensures PathCmp(a, b) <= 0 || PathCmp(b, a) <= 0
    ensures PathCmp(a, b) <= 0 && PathCmp(b, a) <= 0 ==> a == b
    ensures PathCmp(a, b) <= 0 && PathCmp(b, c) <= 0 ==> PathCmp(a, c) <= 0
  {
    PathCmpAntisymmetric(a, b);
    assert a in [a, b, c] && b in [a, b, c] && c in [a, b, c];
    if PathCmp(a, b) <= 0 && PathCmp(b, c) <= 0 && a.Some? {
      if b.Some? && c.Some? {
        StringPathCmpAntisymmetric(a.value, b.value);
        StringPathCmpAntisymmetric(b.value, c.value);
        StringPathCmpAntisymmetric(a.value, c.value);
        FamilyTransitive(a.value, b.value, c.value);
      }
    }
  }

  /** `x` and `y` share their prefix, the numbers order them one way and their texts the other. */
  predicate Inverted(x: string, y: string) {
    var n := PrefixLength(x);
    && n == PrefixLength(y) > 0 && x[..n] == y[..n]
    && ComponentAsNum(x[n..]) < ComponentAsNum(y[n..])
    && StrCmp(y[n..], x[n..]) < 0
  }

  /** The text of `z`, whose prefix has another length, lies between two paths that are inverted. */
  predicate Wedge(x: string, y: string, z: string) {
    Inverted(x, y) && PrefixLength(z) != PrefixLength(x) && StrCmp(y, z) < 0 && StrCmp(z, x) < 0
  }

  lemma {:induction false} StrCmpSplit(p: string, q: string, a: string, b: string)
    requires |p| == |q|
    ensures StrCmp(p + a, q + b) == if p == q then StrCmp(a, b) else StrCmp(p, q)
  {
    if p == "" {
      assert p + a == a && q + b == b;
    } else {
      StrCmpSplit(p[1..], q[1..], a, b);
      assert (p + a)[1..] == p[1..] + a && (q + b)[1..] == q[1..] + b;
      assert p == [p[0]] + p[1..] && q == [q[0]] + q[1..];
    }
  }

  /** A path and its text, cut behind the prefix. */
  lemma CutAtPrefix(x: string, y: string)
    requires PrefixLength(x) == PrefixLength(y) > 0
    ensures var n := PrefixLength(x);
            && StrCmp(y, x) == (if x[..n] == y[..n] then StrCmp(y[n..], x[n..]) else StrCmp(y[..n], x[..n]))
            && StringPathCmp(x, y) ==
               (if x[..n] == y[..n] then ComponentCmp(x[n..], y[n..]) else -StrCmp(y[..n], x[..n]))
  {
    var n := PrefixLength(x);
    StrCmpAntisymmetric(x[..n], y[..n]);
    StrCmpSplit(y[..n], x[..n], y[n..], x[n..]);
    assert x == x[..n] + x[n..] && y == y[..n] + y[n..];
    hide StrCmp, ComponentCmp, LastSlash;
  }

  /** Paths that are not below one prefix are compared as texts. */
  lemma PathsByText(x: string, y: string)
    requires PrefixLength(x) == 0 || x[..PrefixLength(x)] != y[..PrefixLength(y)]
    ensures PathCmp(Some(x), Some(y)) < 0 <==> Precedes(x, y)
  {
    TextsLikeDictionary(x, y);
    StrCmpAntisymmetric(x, y);
    StrCmpAntisymmetric(y, x);
    if PrefixLength(x) == PrefixLength(y) > 0 {
      CutAtPrefix(x, y);
    }
    hide StrCmp, LastSlash, Precedes, ComponentCmp;
  }

  lemma ComponentsInverted(a: string, b: string)
    ensures ComponentCmp(a, b) < 0 && StrCmp(b, a) < 0 <==> ComponentAsNum(a) < ComponentAsNum(b) && StrCmp(b, a) < 0
  {
    StrCmpAntisymmetric(a, b);
    hide StrCmp, ComponentAsNum;
  }

  /** With equal prefix lengths the order departs from the order of the texts exactly for inverted paths. */
  lemma InvertedExactly(x: string, y: string)
    requires PrefixLength(x) == PrefixLength(y)
    ensures StringPathCmp(x, y) < 0 && StrCmp(y, x) < 0 <==> Inverted(x, y)
  {
    var n := PrefixLength(x);
    StrCmpAntisymmetric(x, y);
    if n > 0 {
      CutAtPrefix(x, y);
      ComponentsInverted(x[n..], y[n..]);
      hide StrCmp, ComponentAsNum, ComponentCmp, LastSlash, StringPathCmp;
    }
  }

  /** Across prefix lengths transitivity fails exactly when one path is a wedge between the other two. */
  lemma TransitiveUnlessWedge(a: string, b: string, c: string)
    requires StringPathCmp(a, b) < 0 && StringPathCmp(b, c) < 0
    ensures StringPathCmp(a, c) < 0 <==> !(Wedge(a, b, c) || Wedge(b, c, a) || Wedge(c, a, b))
  {
    StringPathCmpAntisymmetric(a, c);
    StringPathCmpAntisymmetric(a, b);
    if PrefixLength(a) == PrefixLength(b) == PrefixLength(c) {
      FamilyTransitive(a, b, c);
    } else {
      TextOrder(a, b, c);
      WedgeIs(a, b, c);
      WedgeIs(b, c, a);
      WedgeIs(c, a, b);
      hide StrCmp, Wedge, ComponentCmp, LastSlash;
    }
  }

  /** The texts of three paths, of which two differ in their prefix lengths, under the order of the texts. */
  lemma TextOrder(a: string, b: string, c: string)
    ensures StrCmp(a, b) == -StrCmp(b, a) && StrCmp(b, c) == -StrCmp(c, b) && StrCmp(a, c) == -StrCmp(c, a)
    ensures StrCmp(a, b) < 0 && StrCmp(b, c) < 0 ==> StrCmp(a, c) < 0
  {
    StrCmpAntisymmetric(a, b);
    StrCmpAntisymmetric(b, c);
    StrCmpAntisymmetric(a, c);
    if StrCmp(a, b) < 0 && StrCmp(b, c) < 0 {
      StrCmpTransitive(a, b, c);
    }
  }

  /** Between two texts in reverse order the wedge says no more than that the paths are ordered the other way. */
  lemma WedgeIs(x: string, y: string, z: string)
    ensures Wedge(x, y, z) <==>
            && PrefixLength(x) == PrefixLength(y) != PrefixLength(z)
            && StringPathCmp(x, y) < 0 && StrCmp(y, z) < 0 && StrCmp(z, x) < 0
  {
    if StrCmp(y, z) < 0 && StrCmp(z, x) < 0 {
      StrCmpTransitive(y, z, x);
    }
    if PrefixLength(x) == PrefixLength(y) {
      InvertedExactly(x, y);
    }
    hide StrCmp, Inverted, StringPathCmp, LastSlash;
  }

  lemma SlashesOfThree()
    ensures LastSlash("/x/8") == 2 && LastSlash("/x/10") == 2 && LastSlash("/x/5/z") == 4
  {
    assert "/x/10"[..4] == "/x/1" && "/x/1"[..3] == "/x/";
    assert "/x/5/z"[..5] == "/x/5/";
  }

  lemma EightBeforeTen()
    ensures ComponentAsNum("8") == 8 && ComponentAsNum("10") == 10
  {
    ComponentNumeric("8");
    ComponentNumeric("10");
    assert "10"[..1] == "1" && "1"[..0] == "" && "8"[..0] == "";
    assert DecimalValue("1") == 1 && DecimalValue("10") == 10 && DecimalValue("8") == 8;
  }

  /** The order of three paths that is not transitive. */
  lemma NotTransitive()
    ensures StringPathCmp("/x/8", "/x/10") < 0
    ensures StringPathCmp("/x/10", "/x/5/z") < 0
    ensures StringPathCmp("/x/5/z", "/x/8") < 0
  {
    SlashesOfThree();
    EightBeforeTen();
    hide LastSlash, ComponentAsNum;
    assert "/x/8"[..3] == "/x/10"[..3] == "/x/";
    StrCmpAntisymmetric("/x/", "/x/");
    assert "/x/8"[3..] == "8" && "/x/10"[3..] == "10";
    assert "/x/10"[1..] == "x/10" && "x/10"[1..] == "/10" && "/10"[1..] == "10";
    assert "/x/5/z"[1..] == "x/5/z" && "x/5/z"[1..] == "/5/z" && "/5/z"[1..] == "5/z";
    assert "/x/8"[1..] == "x/8" && "x/8"[1..] == "/8" && "/8"[1..] == "8";
  }
}
