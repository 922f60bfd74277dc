/** The GLib string functions that the modelled code calls. */
module Glib {

  /** g_ascii_isspace: the vertical tab is not among them. */
  predicate IsSpace(c: char) {
    c == ' ' || c == '\t' || c == '\n' || c == '\r' || c == '\U{000C}'
  }

  function Chug(s: string): (r: string) {
    if s != "" && IsSpace(s[0]) then Chug(s[1..]) else s
  }

  function Chomp(s: string): (r: string) {
    if s != "" && IsSpace(s[|s| - 1]) then Chomp(s[..|s| - 1]) else s
  }

  /** g_strstrip. */
  function Strip(s: string): (r: string) { Chomp(Chug(s)) }

  lemma {:induction false} ChugStarts(s: string)
    ensures Chug(s) != "" ==> !IsSpace(Chug(s)[0])
    ensures |Chug(s)| <= |s| && Chug(s) == s[|s| - |Chug(s)|..]
    ensures forall i :: 0 <= i < |s| - |Chug(s)| ==> IsSpace(s[i])
  {
    if s != "" && IsSpace(s[0]) {
      ChugStarts(s[1..]);
    }
  }

  lemma {:induction false} ChompEnds(s: string)
    ensures Chomp(s) != "" ==> !IsSpace(Chomp(s)[|Chomp(s)| - 1])
    ensures |Chomp(s)| <= |s| && Chomp(s) == s[..|Chomp(s)|]
    ensures forall i :: |Chomp(s)| <= i < |s| ==> IsSpace(s[i])
  {
    if s != "" && IsSpace(s[|s| - 1]) {
      ChompEnds(s[..|s| - 1]);
    }
  }

  predicate AreBlanks(s: string) { forall i :: 0 <= i < |s| ==> s[i] in {' ', '\t', '\n', '\r', '\U{000C}'} }

  lemma {:induction false} ChugBlanks(lead: string, s: string)
    requires AreBlanks(lead) && (s == "" || s[0] !in {' ', '\t', '\n', '\r', '\U{000C}'})
    ensures Chug(lead + s) == s
  {
    if lead == "" {
      assert lead + s == s;
    } else {
      ChugBlanks(lead[1..], s);
      assert (lead + s)[1..] == lead[1..] + s;
    }
  }

  lemma {:induction false} ChompBlanks(s: string, trail: string)
    requires AreBlanks(trail) && (s == "" || s[|s| - 1] !in {' ', '\t', '\n', '\r', '\U{000C}'})
    ensures Chomp(s + trail) == s
  {
    if trail == "" {
      assert s + trail == s;
    } else {
      ChompBlanks(s, trail[..|trail| - 1]);
      assert (s + trail)[..|s + trail| - 1] == s + trail[..|trail| - 1];
    }
  }

  /** Stripping takes exactly the blanks at both ends. */
  lemma StripBlanks(lead: string, s: string, trail: string)
    requires AreBlanks(lead) && AreBlanks(trail) && s != ""
    requires s[0] !in {' ', '\t', '\n', '\r', '\U{000C}'} && s[|s| - 1] !in {' ', '\t', '\n', '\r', '\U{000C}'}
    ensures Strip(lead + s + trail) == s
  {
    ChugBlanks(lead, s + trail);
    assert lead + s + trail == lead + (s + trail);
    ChompBlanks(s, trail);
  }

  lemma StripIdempotent(s: string)
    ensures Strip(Strip(s)) == Strip(s)
  {
    ChugStarts(s);
    ChompEnds(Chug(s));
  }

  predicate HasPrefix(s: string, prefix: string) {
    |prefix| <= |s| && s[..|prefix|] == prefix
  }

  /** The index of the first character of `s` in `separators`, or |s|. */
  function FirstOf(s: string, separators: set<char>): (i: nat)
    ensures i <= |s|
    ensures i < |s| ==> s[i] in separators
    ensures forall k :: 0 <= k < i ==> s[k] !in separators
  {
    if s == "" || s[0] in separators then 0 else 1 + FirstOf(s[1..], separators)
  }

  /** The fields of `s`: one more than it has separators. */
  function Fields(s: string, separators: set<char>): (fields: seq<string>)
    ensures fields != []
    decreases |s|
  {
    var i := FirstOf(s, separators);
    if i == |s| then [s] else [s[..i]] + Fields(s[i + 1..], separators)
  }

  /** g_strsplit with a one-character delimiter, and g_strsplit_set: the empty string has no fields. */
  function StrSplit(s: string, separators: set<char>): (fields: seq<string>) {
    if s == "" then [] else Fields(s, separators)
  }

  predicate Free(s: string, separators: set<char>) {
    forall i :: 0 <= i < |s| ==> s[i] !in separators
  }

  lemma {:induction false} FirstOfFree(s: string, rest: string, separators: set<char>)
    requires Free(s, separators) && (rest == "" || rest[0] in separators)
    ensures FirstOf(s + rest, separators) == |s|
  {
    if s == "" {
      assert s + rest == rest;
    } else {
      assert (s + rest)[1..] == s[1..] + rest;
      FirstOfFree(s[1..], rest, separators);
    }
  }

  /** A field without separators in front of a separator is the first field. */
  lemma FieldsCons(field: string, separator: char, rest: string, separators: set<char>)
    requires Free(field, separators) && separator in separators
    ensures Fields(field + [separator] + rest, separators) == [field] + Fields(rest, separators)
  {
    var s := field + [separator] + rest;
    FirstOfFree(field, [separator] + rest, separators);
    assert s == field + ([separator] + rest);
    assert s[..|field|] == field && s[|field| + 1..] == rest;
  }

  lemma FieldsSingle(field: string, separators: set<char>)
    requires Free(field, separators)
    ensures Fields(field, separators) == [field]
  {
    FirstOfFree(field, "", separators);
    assert field + "" == field;
  }

  /** Every field is free of separators. */
  lemma {:induction false} FieldsFree(s: string, separators: set<char>)
    ensures forall i :: 0 <= i < |Fields(s, separators)| ==> Free(Fields(s, separators)[i], separators)
    decreases |s|
  {
    var i := FirstOf(s, separators);
    if i < |s| {
      FieldsFree(s[i + 1..], separators);
    }
  }

  /** The parts with a separator between neighbours. */
  function Join(parts: seq<string>, separator: char): (s: string) {
    if parts == [] then "" else if |parts| == 1 then parts[0] else parts[0] + [separator] + Join(parts[1..], separator)
  }

  lemma {:induction false} JoinMore(parts: seq<string>, part: string, separator: char)
    ensures Join(parts + [part], separator) == if parts == [] then part else Join(parts, separator) + [separator] + part
  {
    if parts == [] {
      assert parts + [part] == [part];
    } else {
      assert (parts + [part])[1..] == parts[1..] + [part];
      JoinMore(parts[1..], part, separator);
    }
  }

  /** Splitting what was joined gives the parts back. */
  lemma {:induction false} FieldsOfJoin(parts: seq<string>, separator: char, separators: set<char>)
    requires parts != [] && separator in separators && forall i :: 0 <= i < |parts| ==> Free(parts[i], separators)
    ensures Fields(Join(parts, separator), separators) == parts
  {
    if |parts| == 1 {
      FieldsSingle(parts[0], separators);
    } else {
      FieldsOfJoin(parts[1..], separator, separators);
      FieldsCons(parts[0], separator, Join(parts[1..], separator), separators);
      assert parts == [parts[0]] + parts[1..];
    }
  }
}
