/** How the lines of a profile and of resolv.conf are read. */
module ProfileText {
  import opened Basics
  import opened Firewall
  import opened Glib
  import opened Network

  /** A word of a line: no blank in it. */
  predicate IsBlankless(s: string) { forall i :: 0 <= i < |s| ==> s[i] !in {' ', '\t', '\n', '\r', '\U{000C}'} }

  /** Words that can stand on a line; only the last of them must not be empty. */
  predicate AreWords(words: seq<string>) {
    words != [] && words[|words| - 1] != "" && forall i :: 0 <= i < |words| ==> IsBlankless(words[i])
  }

  /** A text of lines is read as these lines, and an empty one has none. */
  lemma LinesOfText(lines: seq<string>)
    requires lines != [] && lines != [""] && forall i :: 0 <= i < |lines| ==> '\n' !in lines[i]
    ensures Lines(Join(lines, '\n')) == lines && Lines("") == []
  {
    assert Join(lines, '\n') != "";
    hide Join, Fields;
    FieldsOfJoin(lines, '\n', NEWLINE);
  }

  lemma {:induction false} JoinEnds(words: seq<string>, separator: char)
    requires AreWords(words)
    ensures var s, last := Join(words, separator), words[|words| - 1]; s != "" && s[|s| - 1] == last[|last| - 1]
  {
    if |words| > 1 {
      assert words[1..][|words[1..]| - 1] == words[|words| - 1];
      JoinEnds(words[1..], separator);
    }
  }

  /** A directive and the words behind it, separated by single blanks or tabs, with any blanks around the line. */
  function DirectiveLine(lead: string, directive: string, words: seq<string>, separator: char, trail: string)
    : (s: string)
  {
    lead + (directive + [' '] + Join(words, separator)) + trail
  }

  /** Such a line is read as its directive and its words, and counts unless the first of them is empty. */
  lemma DirectiveReads(lead: string, directive: string, words: seq<string>, separator: char, trail: string)
    requires AreBlanks(lead) && AreBlanks(trail) && directive != "" && IsBlankless(directive)
    requires AreWords(words) && separator in {' ', '\t'}
    ensures var line := DirectiveLine(lead, directive, words, separator, trail);
            && Words(line) == [directive] + words
            && (IsDirective(line, directive + [' ']) <==> words[0] != "")
  {
    var core := directive + [' '] + Join(words, separator);
    JoinEnds(words, separator);
    StripBlanks(lead, core, trail);
    forall i | 0 <= i < |words| ensures Free(words[i], SEPARATORS) {
      assert IsBlankless(words[i]);
    }
    assert core[..|directive| + 1] == directive + [' '];
    hide Strip, Fields, Join;
    FieldsOfJoin(words, separator, SEPARATORS);
    FieldsCons(directive, ' ', Join(words, separator), SEPARATORS);
  }

  /**
   * A `remote` line names host, port and protocol; an empty port is 443, an empty protocol the default, and a line
   * whose host is empty does not count.
   */
  lemma RemoteLineReads(net: Net, lead: string, words: seq<string>, separator: char, trail: string, d: string)
    requires AreBlanks(lead) && AreBlanks(trail) && AreWords(words) && |words| >= 2 && separator in {' ', '\t'}
    ensures var line := DirectiveLine(lead, "remote", words, separator, trail);
            && (IsRemoteLine(line) <==> words[0] != "")
            && RemoteAt(net, line, d) ==
               Remote(words[0], if words[1] != "" then words[1] else "443",
                      if |words| >= 3 && words[2] != "" then words[2] else d)
  {
    DirectiveReads(lead, "remote", words, separator, trail);
    assert "remote" + [' '] == "remote ";
    hide Words, IsDirective, DirectiveLine;
  }

  /** A `proto` line names the default protocol. */
  lemma ProtoLineReads(lead: string, words: seq<string>, separator: char, trail: string)
    requires AreBlanks(lead) && AreBlanks(trail) && AreWords(words) && separator in {' ', '\t'}
    ensures var line := DirectiveLine(lead, "proto", words, separator, trail);
            (IsProtoLine(line) <==> words[0] != "") && Word(Words(line), 1) == words[0]
  {
    DirectiveReads(lead, "proto", words, separator, trail);
    assert "proto" + [' '] == "proto ";
    hide Words, IsDirective, DirectiveLine;
  }

  /** A `nameserver` line counts when its address is one in numbers. */
  lemma NameserverReads(net: Net, lead: string, words: seq<string>, separator: char, trail: string)
    requires AreBlanks(lead) && AreBlanks(trail) && AreWords(words) && separator in {' ', '\t'}
    ensures var line := DirectiveLine(lead, "nameserver", words, separator, trail);
            && (IsNameserver(net, line) <==> words[0] != "" && net.addrOf(words[0]).Some?)
            && Word(Words(line), 1) == words[0]
  {
    DirectiveReads(lead, "nameserver", words, separator, trail);
    assert "nameserver" + [' '] == "nameserver ";
    hide Words, IsDirective, DirectiveLine;
  }
}
