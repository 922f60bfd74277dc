/** Reading the text of a ruleset back: what the packet filter makes of the text that the kill switch generates. */
module RulesetText {
  import opened Basics
  import opened Firewall
  import opened Glib
  import opened Network
  import opened Nftables
  import opened Numerals

  // ----- Meaning

  /** The packet filter refuses the word for the ports; one that falls apart is not refused as such. */
  predicate RefusesPort(net: Net, port: string) { Free(port, PUNCTUATION) && !net.readsPort(port) }

  /** What a rule is meant to match, where the packet filter can read its words. */
  function Meaning(net: Net, rule: Rule): (r: Option<FilterRule>) {
    match rule
    case OutIface(name) => Some(FilterRule([OifName(name)], Accept))
    case Established => Some(FilterRule([CtState({"established", "related"})], Accept))
    case Dest(v6, addr, proto, port) =>
      if net.filterAddr(addr).None? || net.filterAddr(addr).value.V6? != v6 || RefusesPort(net, port) then None
      else Some(FilterRule([DestAddr(v6, [Block(net.filterAddr(addr).value, Width(v6))]), DestPort(proto, port)],
        Accept))
    case Lan4 => Some(FilterRule([DestAddr(false, Lan4Blocks())], Accept))
    case Lan6 => Some(FilterRule([DestAddr(true, Lan6Blocks())], Accept))
  }

  /** 10.0.0.0/8, 172.16.0.0/12 and 192.168.0.0/16. */
  function Lan4Blocks(): (blocks: seq<Block>) {
    [Block(V4(Quad(10, 0, 0, 0)), 8), Block(V4(Quad(172, 16, 0, 0)), 12), Block(V4(Quad(192, 168, 0, 0)), 16)]
  }

  /** fe80::/10 and fc00::/7. */
  function Lan6Blocks(): (blocks: seq<Block>) { [Block(V6(0xfe80 * GROUP), 10), Block(V6(0xfc00 * GROUP), 7)] }

  function Meanings(net: Net, rules: seq<Rule>): (r: Option<seq<FilterRule>>) {
    if rules == [] then Some([])
    else
      match (Meaning(net, rules[0]), Meanings(net, rules[1..]))
      case (Some(first), Some(rest)) => Some([first] + rest)
      case _ => None
  }

  /** A table that drops what leaves the machine and is not accepted by one of the rules. */
  function KillSwitchTable(rules: seq<FilterRule>): (r: Ruleset) {
    Ruleset("inet", "nm-airvpn-killswitch", "output", "filter", "output", "0", Drop, rules)
  }

  /** What a list of rules is meant to do. */
  function MeaningOf(net: Net, rules: seq<Rule>): (r: Option<Ruleset>) {
    match Meanings(net, rules)
    case None => None
    case Some(m) => Some(KillSwitchTable(m))
  }

  /** The words of a rule, its ports aside, are words for the packet filter too. */
  predicate IsSound(rule: Rule) {
    match rule
    case OutIface(name) => Free(name, {'"'})
    case Dest(_, addr, proto, port) => IsWord(addr) && Free(addr, SLASH) && proto in {UDP, TCP} && port != ""
    case _ => true
  }

  /** And so is its word for the ports. */
  predicate HasPlainPorts(rule: Rule) { rule.Dest? ==> Free(rule.port, PUNCTUATION) }

  ghost predicate AreSound(rules: seq<Rule>) { forall i :: 0 <= i < |rules| ==> IsSound(rules[i]) }

  ghost predicate HavePlainPorts(rules: seq<Rule>) { forall i :: 0 <= i < |rules| ==> HasPlainPorts(rules[i]) }

  // ----- Lines as pieces with blanks between them

  datatype Piece =
    | Plain(lead: string, word: string)
    | Brace(lead: string, c: char)
    | Marked(word: string, c: char)
    | Quote(text: string)
    | Pair(a: string, b: string)

  function PieceText(p: Piece): (s: string) {
    match p
    case Plain(lead, word) => lead + word
    case Brace(lead, c) => lead + [c]
    case Marked(word, c) => word + [c]
    case Quote(text) => "\"" + text + "\""
    case Pair(a, b) => a + [','] + b
  }

  function PieceTokens(p: Piece): (t: seq<Token>) {
    match p
    case Plain(_, word) => [Atom(word)]
    case Brace(_, c) => [Mark(c)]
    case Marked(word, c) => [Atom(word), Mark(c)]
    case Quote(text) => [Quoted(text)]
    case Pair(a, b) => [Atom(a), Mark(','), Atom(b)]
  }

  predicate IsTabs(s: string) { forall i :: 0 <= i < |s| ==> s[i] == '\t' }

  predicate IsPiece(p: Piece) {
    match p
    case Plain(lead, word) => IsTabs(lead) && IsWord(word)
    case Brace(lead, c) => IsTabs(lead) && c in {'{', '}'}
    case Marked(word, c) => IsWord(word) && c in {';', ','}
    case Quote(text) => Free(text, {'"'})
    case Pair(a, b) => IsWord(a) && IsWord(b)
  }

  function Texts(ps: seq<Piece>): (t: seq<string>) { seq(|ps|, i requires 0 <= i < |ps| => PieceText(ps[i])) }

  function Tokens(ps: seq<Piece>): (t: seq<Token>) { if ps == [] then [] else PieceTokens(ps[0]) + Tokens(ps[1..]) }

  ghost predicate ArePieces(ps: seq<Piece>) { forall i :: 0 <= i < |ps| ==> IsPiece(ps[i]) }

  ghost predicate Ends(suffix: string) { suffix != "" && suffix[0] in PUNCTUATION }

  lemma LexWord(word: string, suffix: string)
    requires IsWord(word) && Ends(suffix)
    ensures Lex(word + suffix) == [Atom(word)] + Lex(suffix)
  {
    FirstOfFree(word, suffix, PUNCTUATION);
    var text := word + suffix;
    assert text[0] == word[0] && text[..|word|] == word && text[|word|..] == suffix;
  }

  lemma LexMark(c: char, suffix: string)
    requires c in MARKS
    ensures Lex([c] + suffix) == [Mark(c)] + Lex(suffix)
  {
    assert ([c] + suffix)[1..] == suffix;
  }

  lemma LexBlank(suffix: string)
    ensures Lex([' '] + suffix) == Lex(suffix)
  {
    assert ([' '] + suffix)[1..] == suffix;
  }

  lemma {:induction false} LexTabs(lead: string, suffix: string)
    requires IsTabs(lead)
    ensures Lex(lead + suffix) == Lex(suffix)
  {
    if lead == "" {
      assert lead + suffix == suffix;
    } else {
      LexTabs(lead[1..], suffix);
      assert (lead + suffix)[1..] == lead[1..] + suffix;
    }
  }

  lemma LexQuote(text: string, suffix: string)
    requires Free(text, {'"'})
    ensures Lex("\"" + text + "\"" + suffix) == [Quoted(text)] + Lex(suffix)
  {
    var s := "\"" + text + "\"" + suffix;
    var inner := text + ("\"" + suffix);
    FirstOfFree(text, "\"" + suffix, {'"'});
    assert s[1..] == inner && inner[..|text|] == text && inner[|text| + 1..] == suffix;
  }

  lemma LexPiece(p: Piece, suffix: string)
    requires IsPiece(p) && Ends(suffix)
    ensures Lex(PieceText(p) + suffix) == PieceTokens(p) + Lex(suffix)
  {
    hide Lex, IsWord;
    match p
    case Plain(lead, word) =>
      LexTabs(lead, word + suffix);
      LexWord(word, suffix);
      assert lead + word + suffix == lead + (word + suffix);
    case Brace(lead, c) =>
      LexTabs(lead, [c] + suffix);
      LexMark(c, suffix);
      assert lead + [c] + suffix == lead + ([c] + suffix);
    case Marked(word, c) =>
      LexWord(word, [c] + suffix);
      LexMark(c, suffix);
      assert word + [c] + suffix == word + ([c] + suffix);
    case Quote(text) => LexQuote(text, suffix);
    case Pair(a, b) =>
      LexWord(a, [','] + (b + suffix));
      LexMark(',', b + suffix);
      LexWord(b, suffix);
      assert a + [','] + b + suffix == a + ([','] + (b + suffix));
  }

  /** Pieces with blanks between them give their tokens. */
  lemma {:induction false} LexJoin(ps: seq<Piece>, suffix: string)
    requires ps != [] && ArePieces(ps) && Ends(suffix)
    ensures Lex(Join(Texts(ps), ' ') + suffix) == Tokens(ps) + Lex(suffix)
    decreases |ps|
  {
    hide Lex, IsPiece, PieceText, PieceTokens;
    if |ps| == 1 {
      LexPiece(ps[0], suffix);
      assert Tokens(ps[1..]) == [];
      assert Tokens(ps) == PieceTokens(ps[0]) + [];
    } else {
      var rest := Join(Texts(ps[1..]), ' ') + suffix;
      LexJoin(ps[1..], suffix);
      LexPiece(ps[0], [' '] + rest);
      LexBlank(rest);
      assert Texts(ps)[1..] == Texts(ps[1..]);
      assert Join(Texts(ps), ' ') + suffix == PieceText(ps[0]) + ([' '] + rest);
    }
  }

  // ----- Statements

  ghost predicate IsStatement(t: seq<Token>) { t != [] && forall i :: 0 <= i < |t| ==> !IsSeparator(t[i]) }

  lemma {:induction false} SeparatorBehind(t: seq<Token>, rest: seq<Token>)
    requires forall i :: 0 <= i < |t| ==> !IsSeparator(t[i])
    requires rest == [] || IsSeparator(rest[0])
    ensures SeparatorAt(t + rest) == |t|
  {
    if t == [] {
      assert t + rest == rest;
    } else {
      SeparatorBehind(t[1..], rest);
      assert (t + rest)[1..] == t[1..] + rest;
    }
  }

  lemma StatementsCons(t: seq<Token>, separator: Token, rest: seq<Token>)
    requires IsStatement(t) && IsSeparator(separator)
    ensures Statements(t + ([separator] + rest)) == [t] + Statements(rest)
  {
    var s := t + ([separator] + rest);
    SeparatorBehind(t, [separator] + rest);
    assert s[..|t|] == t && s[|t| + 1..] == rest;
  }

  lemma StatementsSkip(separator: Token, rest: seq<Token>)
    requires IsSeparator(separator)
    ensures Statements([separator] + rest) == Statements(rest)
  {
    assert ([separator] + rest)[1..] == rest;
  }

  /** A line of pieces. */
  function LineOf(ps: seq<Piece>): (s: string) { Join(Texts(ps), ' ') + "\n" }

  lemma LexLine(ps: seq<Piece>, tail: string)
    requires ps != [] && ArePieces(ps)
    ensures Lex(LineOf(ps) + tail) == Tokens(ps) + ([Mark('\n')] + Lex(tail))
  {
    hide Lex, ArePieces, Tokens, Texts;
    LexJoin(ps, "\n" + tail);
    LexMark('\n', tail);
    assert LineOf(ps) + tail == Join(Texts(ps), ' ') + ("\n" + tail);
    assert "\n" + tail == ['\n'] + tail;
  }

  /** A line is one statement. */
  lemma LineStatement(ps: seq<Piece>, tail: string)
    requires ps != [] && ArePieces(ps) && IsStatement(Tokens(ps))
    ensures Statements(Lex(LineOf(ps) + tail)) == [Tokens(ps)] + Statements(Lex(tail))
  {
    hide *;
    LexLine(ps, tail);
    StatementsCons(Tokens(ps), Mark('\n'), Lex(tail));
  }

  // ----- One rule

  function PiecesOf(rule: Rule): (ps: seq<Piece>)
    ensures ps != []
  {
    match rule
    case OutIface(name) => [Plain("\t\t", "oifname"), Quote(name), Plain("", "accept")]
    case Established => [Plain("\t\t", "ct"), Plain("", "state"), Pair("established", "related"), Plain("", "accept")]
    case Dest(v6, addr, proto, port) => DestPieces(v6, addr, proto) + [Plain("", port), Plain("", "accept")]
    case Lan4 => Lan4Pieces()
    case Lan6 => Lan6Pieces()
  }

  function DestPieces(v6: bool, addr: string, proto: string): (ps: seq<Piece>) {
    [Plain("\t\t", Family(v6)), Plain("", "daddr"), Plain("", addr), Plain("", proto), Plain("", "dport")]
  }

  function Lan4Pieces(): (ps: seq<Piece>)
    ensures |ps| == 8
  {
    [Plain("\t\t", "ip"), Plain("", "daddr"), Brace("", '{'), Marked("10.0.0.0/8", ','), Marked("172.16.0.0/12", ','),
     Plain("", "192.168.0.0/16"), Brace("", '}'), Plain("", "accept")]
  }

  function Lan6Pieces(): (ps: seq<Piece>)
    ensures |ps| == 7
  {
    [Plain("\t\t", "ip6"), Plain("", "daddr"), Brace("", '{'), Marked("fe80::/10", ','), Plain("", "fc00::/7"),
     Brace("", '}'), Plain("", "accept")]
  }

  /** The words of the line, as they stand between blanks. */
  function WordsOf(rule: Rule): (w: seq<string>)
    ensures w != []
  {
    match rule
    case OutIface(name) => ["\t\toifname", "\"" + name + "\"", "accept"]
    case Established => ["\t\tct", "state", "established,related", "accept"]
    case Dest(v6, addr, proto, port) => ["\t\t" + Family(v6), "daddr", addr, proto, "dport", port, "accept"]
    case Lan4 => ["\t\tip", "daddr", "{", "10.0.0.0/8,", "172.16.0.0/12,", "192.168.0.0/16", "}", "accept"]
    case Lan6 => ["\t\tip6", "daddr", "{", "fe80::/10,", "fc00::/7", "}", "accept"]
  }

  /** A rule without the line end. */
  function Line(rule: Rule): (line: string) { Join(WordsOf(rule), ' ') }

  lemma LeadText(lead: string, word: string)
    ensures PieceText(Plain(lead, word)) == lead + word
  {
  }

  lemma BlockTexts()
    ensures PieceText(Marked("10.0.0.0/8", ',')) == "10.0.0.0/8," &&
            PieceText(Marked("172.16.0.0/12", ',')) == "172.16.0.0/12,"
    ensures PieceText(Marked("fe80::/10", ',')) == "fe80::/10,"
    ensures PieceText(Brace("", '{')) == "{" && PieceText(Brace("", '}')) == "}"
    ensures PieceText(Pair("established", "related")) == "established,related"
    ensures "\t\t" + "ip" == "\t\tip" && "\t\t" + "ip6" == "\t\tip6"
    ensures "\t\t" + "oifname" == "\t\toifname" && "\t\t" + "ct" == "\t\tct"
  {
  }

  lemma TextOfPlain(word: string)
    ensures PieceText(Plain("", word)) == word
  {
  }

  lemma OutIfaceTexts(name: string)
    ensures Texts(PiecesOf(Rule.OutIface(name))) == WordsOf(Rule.OutIface(name))
  {
    BlockTexts();
    LeadText("\t\t", "oifname");
    TextOfPlain("accept");
    assert PieceText(Quote(name)) == "\"" + name + "\"";
    hide PieceText;
  }

  lemma EstablishedTexts()
    ensures Texts(PiecesOf(Established)) == WordsOf(Established)
  {
    BlockTexts();
    LeadText("\t\t", "ct");
    TextOfPlain("state");
    TextOfPlain("accept");
    hide PieceText;
  }

  lemma DestTexts(v6: bool, addr: string, proto: string, port: string)
    ensures Texts(PiecesOf(Dest(v6, addr, proto, port))) == WordsOf(Dest(v6, addr, proto, port))
  {
    LeadText("\t\t", Family(v6));
    TextOfPlain("daddr");
    TextOfPlain(addr);
    TextOfPlain(proto);
    TextOfPlain("dport");
    TextOfPlain(port);
    TextOfPlain("accept");
    hide PieceText, Family;
  }

  lemma Lan4Texts()
    ensures Texts(PiecesOf(Lan4)) == WordsOf(Lan4)
  {
    BlockTexts();
    LeadText("\t\t", "ip");
    TextOfPlain("daddr");
    TextOfPlain("192.168.0.0/16");
    TextOfPlain("accept");
    hide PieceText;
  }

  lemma Lan6Texts()
    ensures Texts(PiecesOf(Lan6)) == WordsOf(Lan6)
  {
    BlockTexts();
    LeadText("\t\t", "ip6");
    TextOfPlain("daddr");
    TextOfPlain("fc00::/7");
    TextOfPlain("accept");
    hide PieceText;
  }

  lemma TextsAre(rule: Rule)
    ensures Texts(PiecesOf(rule)) == WordsOf(rule)
  {
    hide Texts, PiecesOf, WordsOf;
    match rule
    case OutIface(name) => OutIfaceTexts(name);
    case Established => EstablishedTexts();
    case Dest(v6, addr, proto, port) => DestTexts(v6, addr, proto, port);
    case Lan4 => Lan4Texts();
    case Lan6 => Lan6Texts();
  }

  lemma JoinCons(a: string, rest: seq<string>)
    requires rest != []
    ensures Join([a] + rest, ' ') == a + [' '] + Join(rest, ' ')
  {
    assert ([a] + rest)[1..] == rest;
  }

  lemma Join3(a: string, b: string, c: string)
    ensures Join([a, b, c], ' ') == a + [' '] + (b + [' '] + c)
  {
    JoinCons(b, [c]);
    JoinCons(a, [b, c]);
    assert [a] + [b, c] == [a, b, c] && [b] + [c] == [b, c];
  }

  lemma Join4(a: string, b: string, c: string, d: string)
    ensures Join([a, b, c, d], ' ') == a + [' '] + (b + [' '] + (c + [' '] + d))
  {
    Join3(b, c, d);
    JoinCons(a, [b, c, d]);
    assert [a] + [b, c, d] == [a, b, c, d];
  }

  lemma Join7(a: string, b: string, c: string, d: string, e: string, f: string, g: string)
    ensures Join([a, b, c, d, e, f, g], ' ')
            == a + [' '] + (b + [' '] + (c + [' '] + (d + [' '] + (e + [' '] + (f + [' '] + g)))))
  {
    Join4(d, e, f, g);
    JoinCons(c, [d, e, f, g]);
    JoinCons(b, [c, d, e, f, g]);
    JoinCons(a, [b, c, d, e, f, g]);
    assert [a] + [b, c, d, e, f, g] == [a, b, c, d, e, f, g];
    assert [b] + [c, d, e, f, g] == [b, c, d, e, f, g];
    assert [c] + [d, e, f, g] == [c, d, e, f, g];
  }

  lemma DestText(lead: string, addr: string, proto: string, port: string)
    ensures lead + " daddr " + addr + " " + proto + " dport " + port + " accept\n"
            == lead + [' '] + ("daddr" + [' '] +
                               (addr + [' '] + (proto + [' '] + ("dport" + [' '] + (port + [' '] + "accept"))))) + "\n"
  {
    assert " daddr " == [' '] + "daddr" + [' '] && " dport " == [' '] + "dport" + [' '] &&
           " accept\n" == [' '] + "accept" + "\n";
    assert " " == [' '];
  }

  lemma OutIfaceText(name: string)
    ensures "\t\toifname \"" + name + "\" accept\n" ==
            "\t\toifname" + [' '] + ("\"" + name + "\"" + [' '] + "accept") + "\n"
  {
  }

  /** The endings that the fixed rules share. */
  lemma Endings()
    ensures " accept\n" == [' '] + "accept" + "\n" && " } accept\n" == [' '] + ("}" + [' '] + "accept") + "\n"
    ensures "\t\tip daddr { " == "\t\tip" + [' '] + ("daddr" + [' '] + ("{" + [' ']))
    ensures "\t\tip6 daddr { " == "\t\tip6" + [' '] + ("daddr" + [' '] + ("{" + [' ']))
    ensures "\t\tct state " == "\t\tct" + [' '] + ("state" + [' '])
  {
  }

  lemma Blocks()
    ensures "10.0.0.0/8, " == "10.0.0.0/8," + [' '] && "172.16.0.0/12, " == "172.16.0.0/12," + [' ']
    ensures "fe80::/10, " == "fe80::/10," + [' ']
  {
  }

  lemma EstablishedText(a: string, b: string, c: string, accept: string)
    ensures a + [' '] + (b + [' ']) + c + ([' '] + accept + "\n") ==
            a + [' '] + (b + [' '] + (c + [' '] + accept)) + "\n"
  {
  }

  lemma Lan4Text(head: string, daddr: string, open: string, a: string, b: string, c: string, end: string)
    ensures head + [' '] + (daddr + [' '] + (open + [' '])) + (a + [' ']) + (b + [' ']) + c + ([' '] + end + "\n")
            == head + [' '] + (daddr + [' '] + (open + [' '] + (a + [' '] + (b + [' '] + (c + [' '] + end))))) + "\n"
  {
  }

  lemma Lan6Text(head: string, daddr: string, open: string, a: string, b: string, end: string)
    ensures head + [' '] + (daddr + [' '] + (open + [' '])) + (a + [' ']) + b + ([' '] + end + "\n")
            == head + [' '] + (daddr + [' '] + (open + [' '] + (a + [' '] + (b + [' '] + end)))) + "\n"
  {
  }

  lemma EstablishedIs()
    ensures RenderRule(Established) == Line(Established) + "\n"
  {
    hide Join;
    Join4("\t\tct", "state", "established,related", "accept");
    Endings();
    EstablishedText("\t\tct", "state", "established,related", "accept");
  }

  lemma Lan4Is()
    ensures RenderRule(Lan4) == Line(Lan4) + "\n"
  {
    hide Join;
    var rest := ["daddr", "{", "10.0.0.0/8,", "172.16.0.0/12,", "192.168.0.0/16", "}", "accept"];
    JoinCons("\t\tip", rest);
    assert WordsOf(Lan4) == ["\t\tip"] + rest;
    Join7("daddr", "{", "10.0.0.0/8,", "172.16.0.0/12,", "192.168.0.0/16", "}", "accept");
    Endings();
    Blocks();
    Lan4Text("\t\tip", "daddr", "{", "10.0.0.0/8,", "172.16.0.0/12,", "192.168.0.0/16", "}" + [' '] + "accept");
  }

  lemma Lan6Is()
    ensures RenderRule(Lan6) == Line(Lan6) + "\n"
  {
    hide Join;
    Join7("\t\tip6", "daddr", "{", "fe80::/10,", "fc00::/7", "}", "accept");
    Endings();
    Blocks();
    Lan6Text("\t\tip6", "daddr", "{", "fe80::/10,", "fc00::/7", "}" + [' '] + "accept");
  }

  lemma DestIs(v6: bool, addr: string, proto: string, port: string)
    ensures RenderRule(Dest(v6, addr, proto, port)) == Line(Dest(v6, addr, proto, port)) + "\n"
  {
    hide Join, Family;
    Join7("\t\t" + Family(v6), "daddr", addr, proto, "dport", port, "accept");
    DestText("\t\t" + Family(v6), addr, proto, port);
  }

  lemma OutIfaceIs(name: string)
    ensures RenderRule(OutIface(name)) == Line(OutIface(name)) + "\n"
  {
    hide Join;
    Join3("\t\toifname", "\"" + name + "\"", "accept");
    OutIfaceText(name);
  }


  /** A rendered rule is its words, a blank between neighbours, and a line end. */
  lemma LineIs(rule: Rule)
    ensures RenderRule(rule) == Line(rule) + "\n"
  {
    hide Line, RenderRule;
    match rule
    case OutIface(name) => OutIfaceIs(name);
    case Established => EstablishedIs();
    case Dest(v6, addr, proto, port) => DestIs(v6, addr, proto, port);
    case Lan4 => Lan4Is();
    case Lan6 => Lan6Is();
  }

  // ----- The tokens of a rule and what they mean

  function RuleTokens(rule: Rule): (t: seq<Token>) {
    match rule
    case OutIface(name) => [Atom("oifname"), Quoted(name), Atom("accept")]
    case Established =>
      [Atom("ct"), Atom("state"), Atom("established"), Mark(','), Atom("related"), Atom("accept")]
    case Dest(v6, addr, proto, port) =>
      [Atom(Family(v6)), Atom("daddr"), Atom(addr), Atom(proto), Atom("dport"), Atom(port),
       Atom("accept")]
    case Lan4 =>
      [Atom("ip"), Atom("daddr"), Mark('{'), Atom("10.0.0.0/8"), Mark(','), Atom("172.16.0.0/12"), Mark(','),
       Atom("192.168.0.0/16"), Mark('}'), Atom("accept")]
    case Lan6 =>
      [Atom("ip6"), Atom("daddr"), Mark('{'), Atom("fe80::/10"), Mark(','), Atom("fc00::/7"), Mark('}'),
       Atom("accept")]
  }

  lemma TokensCons(p: Piece, ps: seq<Piece>)
    ensures Tokens([p] + ps) == PieceTokens(p) + Tokens(ps)
  {
    assert ([p] + ps)[1..] == ps;
  }

  lemma {:induction false} TokensConcat(a: seq<Piece>, b: seq<Piece>)
    ensures Tokens(a + b) == Tokens(a) + Tokens(b)
  {
    hide PieceTokens;
    if a == [] {
      assert a + b == b;
    } else {
      TokensConcat(a[1..], b);
      assert (a + b)[1..] == a[1..] + b;
    }
  }

  lemma Tokens1(a: Piece)
    ensures Tokens([a]) == PieceTokens(a)
  {
    TokensCons(a, []);
    assert [a] + [] == [a] && PieceTokens(a) + [] == PieceTokens(a);
  }

  lemma Tokens3(a: Piece, b: Piece, c: Piece)
    ensures Tokens([a, b, c]) == PieceTokens(a) + PieceTokens(b) + PieceTokens(c)
  {
    hide PieceTokens;
    Tokens1(c);
    TokensCons(b, [c]);
    TokensCons(a, [b, c]);
    assert [a] + [b, c] == [a, b, c] && [b] + [c] == [b, c];
  }

  lemma Tokens4(a: Piece, b: Piece, c: Piece, d: Piece)
    ensures Tokens([a, b, c, d]) == PieceTokens(a) + PieceTokens(b) + PieceTokens(c) + PieceTokens(d)
  {
    hide PieceTokens;
    Tokens3(b, c, d);
    TokensCons(a, [b, c, d]);
    assert [a] + [b, c, d] == [a, b, c, d];
  }

  lemma DestPieceTokens(v6: bool, addr: string, proto: string)
    ensures Tokens(DestPieces(v6, addr, proto))
            == [Atom(Family(v6)), Atom("daddr"), Atom(addr), Atom(proto), Atom("dport")]
  {
    hide Tokens, Family;
    var a, b, c, d, e := Plain("\t\t", Family(v6)), Plain("", "daddr"), Plain("", addr), Plain("", proto),
                         Plain("", "dport");
    Tokens4(b, c, d, e);
    TokensCons(a, [b, c, d, e]);
    assert DestPieces(v6, addr, proto) == [a] + [b, c, d, e];
  }

  lemma LanTokens()
    ensures Tokens(Lan4Pieces()) == RuleTokens(Lan4) && Tokens(Lan6Pieces()) == RuleTokens(Lan6)
  {
    hide Tokens;
    var p := Lan4Pieces();
    Tokens4(p[0], p[1], p[2], p[3]);
    Tokens4(p[4], p[5], p[6], p[7]);
    TokensConcat([p[0], p[1], p[2], p[3]], [p[4], p[5], p[6], p[7]]);
    assert p == [p[0], p[1], p[2], p[3]] + [p[4], p[5], p[6], p[7]];
    var q := Lan6Pieces();
    Tokens4(q[0], q[1], q[2], q[3]);
    Tokens3(q[4], q[5], q[6]);
    TokensConcat([q[0], q[1], q[2], q[3]], [q[4], q[5], q[6]]);
    assert q == [q[0], q[1], q[2], q[3]] + [q[4], q[5], q[6]];
  }

  lemma TokensAre(rule: Rule)
    ensures Tokens(PiecesOf(rule)) == RuleTokens(rule)
  {
    hide Tokens;
    match rule
    case OutIface(name) => Tokens3(Plain("\t\t", "oifname"), Quote(name), Plain("", "accept"));
    case Established =>
      Tokens4(Plain("\t\t", "ct"), Plain("", "state"), Pair("established", "related"), Plain("", "accept"));
    case Dest(v6, addr, proto, port) =>
      DestPieceTokens(v6, addr, proto);
      TokensCons(Plain("", port), [Plain("", "accept")]);
      Tokens1(Plain("", "accept"));
      TokensConcat(DestPieces(v6, addr, proto), [Plain("", port)] + [Plain("", "accept")]);
      assert PiecesOf(rule) == DestPieces(v6, addr, proto) + ([Plain("", port)] + [Plain("", "accept")]);
    case Lan4 => LanTokens();
    case Lan6 => LanTokens();
  }

  lemma KeywordsAreWords()
    ensures IsWord("oifname") && IsWord("accept") && IsWord("ct") && IsWord("state") && IsWord("established") &&
            IsWord("related")
    ensures IsWord("ip") && IsWord("ip6") && IsWord("daddr") && IsWord("dport") && IsWord(UDP) && IsWord(TCP)
  {
    StateWordsAreWords();
    AddrWordsAreWords();
    hide IsWord;
  }

  lemma StateWordsAreWords()
    ensures IsWord("oifname") && IsWord("accept") && IsWord("ct") && IsWord("state") && IsWord("established") &&
            IsWord("related")
  {
  }

  lemma AddrWordsAreWords()
    ensures IsWord("ip") && IsWord("ip6") && IsWord("daddr") && IsWord("dport") && IsWord(UDP) && IsWord(TCP)
  {
  }

  lemma BlocksAreWords()
    ensures IsWord("10.0.0.0/8") && IsWord("172.16.0.0/12") && IsWord("192.168.0.0/16") && IsWord("fe80::/10") &&
            IsWord("fc00::/7")
  {
  }

  lemma DestRulePieces(v6: bool, addr: string, proto: string)
    requires IsWord(addr) && proto in {UDP, TCP}
    ensures ArePieces(DestPieces(v6, addr, proto))
  {
    KeywordsAreWords();
    assert IsTabs("") && IsTabs("\t\t");
    hide IsWord, IsTabs;
  }

  lemma LanRulePieces()
    ensures ArePieces(Lan4Pieces()) && ArePieces(Lan6Pieces())
  {
    KeywordsAreWords();
    BlocksAreWords();
    assert IsTabs("") && IsTabs("\t\t");
    hide IsWord, IsTabs;
  }

  lemma RulePieces(rule: Rule)
    requires IsSound(rule) && HasPlainPorts(rule)
    ensures ArePieces(PiecesOf(rule))
  {
    KeywordsAreWords();
    LanRulePieces();
    assert IsTabs("") && IsTabs("\t\t");
    assert rule.Dest? ==> IsWord(rule.port);
    hide IsWord, Free, IsTabs, Lan4Pieces, Lan6Pieces, DestPieces;
    match rule
    case Dest(v6, addr, proto, port) =>
      DestRulePieces(v6, addr, proto);
      PiecesConcat(DestPieces(v6, addr, proto), [Plain("", port), Plain("", "accept")]);
    case _ =>
  }

  lemma PiecesConcat(a: seq<Piece>, b: seq<Piece>)
    requires ArePieces(a) && ArePieces(b)
    ensures ArePieces(a + b)
  {
  }

  lemma RuleIsStatement(rule: Rule)
    ensures IsStatement(RuleTokens(rule))
  {
    hide Family;
  }

  lemma OneBlock(net: Net, v6: bool, word: string)
    requires Free(word, SLASH) && net.filterAddr(word).Some? && net.filterAddr(word).value.V6? == v6
    ensures ReadBlocks(net, v6, [word]) == Some([Block(net.filterAddr(word).value, Width(v6))])
  {
    FieldsSingle(word, SLASH);
    assert [word][1..] == [];
    assert ReadBlock(net, v6, word) == Some(Block(net.filterAddr(word).value, Width(v6)));
    hide ReadBlock;
    var none: seq<Block> := [];
    assert ReadBlocks(net, v6, []) == Some(none);
    assert [Block(net.filterAddr(word).value, Width(v6))] + none == [Block(net.filterAddr(word).value, Width(v6))];
  }

  lemma AcceptReads(net: Net)
    ensures ReadRule(net, [Atom("accept")]) == Some(FilterRule([], Accept))
  {
  }

  lemma WithAccept(m: Match)
    ensures With(m, Some(FilterRule([], Accept))) == Some(FilterRule([m], Accept))
  {
    var none: seq<Match> := [];
    assert [m] + none == [m];
  }

  lemma OutIfaceReads(net: Net, name: string)
    ensures ReadRule(net, RuleTokens(Rule.OutIface(name))) == Meaning(net, Rule.OutIface(name))
  {
    AcceptReads(net);
    WithAccept(OifName(name));
    var t := RuleTokens(Rule.OutIface(name));
    assert t[2..] == [Atom("accept")];
  }

  lemma EstablishedReads(net: Net)
    ensures ReadRule(net, RuleTokens(Established)) == Meaning(net, Established)
  {
    AcceptReads(net);
    var t := RuleTokens(Established);
    assert t[2..][2..] == [Atom("related"), Atom("accept")];
    assert [Atom("related"), Atom("accept")][1..] == [Atom("accept")];
    assert CommaList([Atom("related"), Atom("accept")]) == (["related"], [Atom("accept")]);
    assert CommaList(t[2..]) == (["established"] + ["related"], [Atom("accept")]);
    assert (set s | s in ["established"] + ["related"]) == {"established", "related"};
    WithAccept(CtState({"established", "related"}));
    hide ReadRule, CommaList, With;
    assert ReadCtState(net, t) == Meaning(net, Established);
    KeywordCt(net, t);
  }

  lemma KeywordCt(net: Net, t: seq<Token>)
    requires |t| >= 3 && t[0] == Atom("ct") && t[1] == Atom("state")
    ensures ReadRule(net, t) == ReadCtState(net, t)
  {
    assert "ct" != "accept" && "ct" != "drop" && "ct" != "oifname";
  }

  lemma KeywordDaddr(net: Net, v6: bool, t: seq<Token>)
    requires |t| >= 3 && t[0] == Atom(Family(v6)) && t[1] == Atom("daddr")
    ensures ReadRule(net, t) == ReadDestAddr(net, t)
    ensures t[0] == Atom("ip6") <==> v6
  {
    assert "ip" != "ct" && "ip6" != "ct" && |"ip"| == 2 && |"ip6"| == 3;
  }

  lemma DestPortReads(net: Net, proto: string, port: string)
    requires proto in {UDP, TCP}
    ensures ReadRule(net, [Atom(proto), Atom("dport"), Atom(port), Atom("accept")])
            == if net.readsPort(port) then Some(FilterRule([DestPort(proto, port)], Accept)) else None
  {
    AcceptReads(net);
    WithAccept(DestPort(proto, port));
    var t := [Atom(proto), Atom("dport"), Atom(port), Atom("accept")];
    assert t[3..] == [Atom("accept")];
    assert "udp" != "oifname" && "udp" != "ct" && "tcp" != "ct" && "tcp" != "ip" && "udp" != "ip6" && "tcp" != "ip6" &&
           "udp" != "ip";
    assert "tcp"[1] == 'c' && "ip6"[1] == 'p' && "udp"[0] == 'u';
  }

  lemma DestReads(net: Net, v6: bool, addr: string, proto: string, port: string)
    requires Free(addr, SLASH) && proto in {UDP, TCP} && Free(port, PUNCTUATION)
    ensures ReadRule(net, RuleTokens(Dest(v6, addr, proto, port))) == Meaning(net, Dest(v6, addr, proto, port))
  {
    hide ReadRule, Family, ReadBlock, Free;
    var t := RuleTokens(Dest(v6, addr, proto, port));
    var rest := [Atom(proto), Atom("dport"), Atom(port), Atom("accept")];
    KeywordDaddr(net, v6, t);
    DestPortReads(net, proto, port);
    assert t[3..] == rest;
    BlockOf(net, v6, addr);
    if Meaning(net, Dest(v6, addr, proto, port)).Some? {
      OneBlock(net, v6, addr);
      var m := DestAddr(v6, [Block(net.filterAddr(addr).value, Width(v6))]);
      assert [m] + [DestPort(proto, port)] == [m, DestPort(proto, port)];
    }
  }

  lemma BlockOf(net: Net, v6: bool, addr: string)
    requires Free(addr, SLASH)
    ensures ReadBlocks(net, v6, [addr]).Some? <==> net.filterAddr(addr).Some? && net.filterAddr(addr).value.V6? == v6
  {
    FieldsSingle(addr, SLASH);
    assert [addr][1..] == [];
  }

  /** An address with a prefix length. */
  lemma PrefixReads(net: Net, v6: bool, addr: string, length: string)
    requires Free(addr, SLASH) && Free(length, SLASH) && length != "" && AllDigits(length) &&
             DecimalValue(length) <= Width(v6)
    requires net.filterAddr(addr).Some? && net.filterAddr(addr).value.V6? == v6
    ensures ReadBlock(net, v6, addr + ['/'] + length) == Some(Block(net.filterAddr(addr).value, DecimalValue(length)))
  {
    FieldsCons(addr, '/', length, SLASH);
    FieldsSingle(length, SLASH);
    hide Fields, Free, AllDigits, DecimalValue;
  }

  lemma LengthsRead()
    ensures AllDigits("8") && DecimalValue("8") == 8 && AllDigits("7") && DecimalValue("7") == 7
    ensures AllDigits("12") && DecimalValue("12") == 12 && AllDigits("16") && DecimalValue("16") == 16
    ensures AllDigits("10") && DecimalValue("10") == 10
  {
    assert "8"[..0] == "" && "7"[..0] == "" && "12"[..1] == "1" && "16"[..1] == "1" && "10"[..1] == "1" &&
           "1"[..0] == "";
  }

  lemma Decimals()
    ensures Decimal(0) == "0" && Decimal(10) == "10" && Decimal(16) == "16"
    ensures Decimal(172) == "172" && Decimal(192) == "192" && Decimal(168) == "168"
  {
    assert Decimal(1) == "1" && Decimal(17) == "17" && Decimal(19) == "19";
  }

  lemma QuadTexts()
    ensures Dotted(10, 0, 0, 0) == "10.0.0.0" && Dotted(172, 16, 0, 0) == "172.16.0.0" &&
            Dotted(192, 168, 0, 0) == "192.168.0.0"
  {
    Decimals();
    hide Decimal;
  }

  lemma GroupTexts()
    ensures Hex(0xfe80) + "::" == "fe80::" && Hex(0xfc00) + "::" == "fc00::"
  {
    assert Hex(0xf) == "f" && Hex(0xfe) == "fe" && Hex(0xfe8) == "fe8" && Hex(0xfc) == "fc" && Hex(0xfc0) == "fc0";
  }

  lemma Lan4BlocksRead(net: Net)
    requires ReadsNumerals(net)
    ensures ReadBlock(net, false, "10.0.0.0/8") == Some(Lan4Blocks()[0])
    ensures ReadBlock(net, false, "172.16.0.0/12") == Some(Lan4Blocks()[1])
    ensures ReadBlock(net, false, "192.168.0.0/16") == Some(Lan4Blocks()[2])
  {
    QuadTexts();
    LengthsRead();
    AddressesHaveNoSlash();
    assert "10.0.0.0/8" == "10.0.0.0" + ['/'] + "8" && "172.16.0.0/12" == "172.16.0.0" + ['/'] + "12"
           && "192.168.0.0/16" == "192.168.0.0" + ['/'] + "16";
    assert net.filterAddr(Dotted(10, 0, 0, 0)) == Some(V4(Quad(10, 0, 0, 0)));
    assert net.filterAddr(Dotted(172, 16, 0, 0)) == Some(V4(Quad(172, 16, 0, 0)));
    assert net.filterAddr(Dotted(192, 168, 0, 0)) == Some(V4(Quad(192, 168, 0, 0)));
    hide ReadsNumerals, ReadBlock, Free, Dotted, AllDigits, DecimalValue;
    PrefixReads(net, false, "10.0.0.0", "8");
    PrefixReads(net, false, "172.16.0.0", "12");
    PrefixReads(net, false, "192.168.0.0", "16");
  }

  lemma AddressesHaveNoSlash()
    ensures Free("10.0.0.0", SLASH) && Free("172.16.0.0", SLASH) && Free("192.168.0.0", SLASH) && Free("fe80::", SLASH)
    ensures Free("fc00::", SLASH) && Free("8", SLASH) && Free("12", SLASH) && Free("16", SLASH) && Free("10", SLASH) &&
            Free("7", SLASH)
  {
  }

  lemma Lan6BlocksRead(net: Net)
    requires ReadsNumerals(net)
    ensures ReadBlock(net, true, "fe80::/10") == Some(Lan6Blocks()[0])
    ensures ReadBlock(net, true, "fc00::/7") == Some(Lan6Blocks()[1])
  {
    GroupTexts();
    LengthsRead();
    AddressesHaveNoSlash();
    assert "fe80::/10" == "fe80::" + ['/'] + "10" && "fc00::/7" == "fc00::" + ['/'] + "7";
    assert net.filterAddr(Hex(0xfe80) + "::") == Some(V6(0xfe80 * GROUP));
    assert net.filterAddr(Hex(0xfc00) + "::") == Some(V6(0xfc00 * GROUP));
    hide ReadsNumerals, ReadBlock, Free, Hex, AllDigits, DecimalValue;
    PrefixReads(net, true, "fe80::", "10");
    PrefixReads(net, true, "fc00::", "7");
  }

  lemma ReadBlocksCons(net: Net, v6: bool, word: string, words: seq<string>)
    ensures ReadBlocks(net, v6, [word] + words) ==
            match (ReadBlock(net, v6, word), ReadBlocks(net, v6, words))
            case (Some(b), Some(rest)) => Some([b] + rest)
            case _ => None
  {
    hide ReadBlock;
    assert ([word] + words)[1..] == words;
  }

  lemma ReadTwoBlocks(net: Net, v6: bool, a: string, b: string)
    requires ReadBlock(net, v6, a).Some? && ReadBlock(net, v6, b).Some?
    ensures ReadBlocks(net, v6, [a, b]) == Some([ReadBlock(net, v6, a).value, ReadBlock(net, v6, b).value])
  {
    hide ReadBlock;
    ReadBlocksCons(net, v6, b, []);
    ReadBlocksCons(net, v6, a, [b]);
    var none: seq<Block> := [];
    assert ReadBlocks(net, v6, []) == Some(none);
    assert [b] + [] == [b] && [a] + [b] == [a, b];
    var ra, rb := ReadBlock(net, v6, a).value, ReadBlock(net, v6, b).value;
    assert [rb] + none == [rb] && [ra] + [rb] == [ra, rb];
  }

  lemma CommaListCons(word: string, rest: seq<Token>)
    ensures CommaList([Atom(word), Mark(',')] + rest) == ([word] + CommaList(rest).0, CommaList(rest).1)
  {
    assert ([Atom(word), Mark(',')] + rest)[2..] == rest;
  }

  lemma CommaListLast(word: string, rest: seq<Token>)
    requires rest != [] && rest[0] != Mark(',')
    ensures CommaList([Atom(word)] + rest) == ([word], rest)
  {
    assert ([Atom(word)] + rest)[1..] == rest;
  }

  lemma Lan6List()
    ensures CommaList(RuleTokens(Lan6)[3..]) == (["fe80::/10", "fc00::/7"], [Mark('}'), Atom("accept")])
  {
    var close := [Mark('}'), Atom("accept")];
    hide CommaList;
    CommaListLast("fc00::/7", close);
    CommaListCons("fe80::/10", [Atom("fc00::/7")] + close);
    assert RuleTokens(Lan6)[3..] == [Atom("fe80::/10"), Mark(',')] + ([Atom("fc00::/7")] + close);
    assert ["fe80::/10"] + ["fc00::/7"] == ["fe80::/10", "fc00::/7"];
  }

  lemma Lan6Words(net: Net)
    requires ReadsNumerals(net)
    ensures ReadBlocks(net, true, ["fe80::/10", "fc00::/7"]) == Some(Lan6Blocks())
  {
    LanBlockCounts();
    Lan6BlocksRead(net);
    hide ReadBlock, Lan6Blocks, ReadsNumerals, ReadBlocks;
    ReadTwoBlocks(net, true, "fe80::/10", "fc00::/7");
    assert Lan6Blocks() == [Lan6Blocks()[0], Lan6Blocks()[1]];
  }

  /** A set of blocks in braces, and the verdict. */
  lemma SetReads(net: Net, v6: bool, t: seq<Token>, words: seq<string>, blocks: seq<Block>)
    requires |t| >= 3 && t[0] == Atom(Family(v6)) && t[1] == Atom("daddr") && t[2] == Mark('{')
    requires CommaList(t[3..]) == (words, [Mark('}'), Atom("accept")]) && words != []
    requires ReadBlocks(net, v6, words) == Some(blocks)
    ensures ReadRule(net, t) == Some(FilterRule([DestAddr(v6, blocks)], Accept))
  {
    KeywordDaddr(net, v6, t);
    AcceptReads(net);
    WithAccept(DestAddr(v6, blocks));
    hide ReadRule, CommaList, ReadBlocks, Family;
    assert [Mark('}'), Atom("accept")][1..] == [Atom("accept")];
  }

  lemma LanHeads()
    ensures var t := RuleTokens(Lan6);
            |t| >= 3 && t[0] == Atom(Family(true)) && t[1] == Atom("daddr") && t[2] == Mark('{')
    ensures var t := RuleTokens(Lan4);
            |t| >= 3 && t[0] == Atom(Family(false)) && t[1] == Atom("daddr") && t[2] == Mark('{')
  {
  }

  lemma LanMeanings(net: Net)
    ensures Meaning(net, Lan6) == Some(FilterRule([DestAddr(true, Lan6Blocks())], Accept))
    ensures Meaning(net, Lan4) == Some(FilterRule([DestAddr(false, Lan4Blocks())], Accept))
  {
    hide Lan4Blocks, Lan6Blocks;
  }

  lemma Lan6Reads(net: Net)
    requires ReadsNumerals(net)
    ensures ReadRule(net, RuleTokens(Lan6)) == Meaning(net, Lan6)
  {
    Lan6List();
    Lan6Words(net);
    LanHeads();
    LanMeanings(net);
    hide ReadRule, CommaList, ReadBlocks, Lan6Blocks, ReadsNumerals, RuleTokens, Meaning, Family;
    SetReads(net, true, RuleTokens(Lan6), ["fe80::/10", "fc00::/7"], Lan6Blocks());
  }

  lemma LanBlockCounts()
    ensures |Lan4Blocks()| == 3 && |Lan6Blocks()| == 2
  {
  }

  lemma Lan4Words(net: Net)
    requires ReadsNumerals(net)
    ensures ReadBlocks(net, false, ["10.0.0.0/8", "172.16.0.0/12", "192.168.0.0/16"]) == Some(Lan4Blocks())
  {
    LanBlockCounts();
    hide ReadBlock, Lan4Blocks, ReadsNumerals, ReadBlocks;
    var a, b, c := "10.0.0.0/8", "172.16.0.0/12", "192.168.0.0/16";
    Lan4BlocksRead(net);
    ReadTwoBlocks(net, false, b, c);
    ReadBlocksCons(net, false, a, [b, c]);
    assert [a] + [b, c] == [a, b, c];
    assert Lan4Blocks() == [Lan4Blocks()[0]] + [Lan4Blocks()[1], Lan4Blocks()[2]];
  }

  lemma Lan4List()
    ensures CommaList(RuleTokens(Lan4)[3..])
            == (["10.0.0.0/8", "172.16.0.0/12", "192.168.0.0/16"], [Mark('}'), Atom("accept")])
  {
    var a, b, c := "10.0.0.0/8", "172.16.0.0/12", "192.168.0.0/16";
    var close := [Mark('}'), Atom("accept")];
    hide CommaList;
    CommaListLast(c, close);
    CommaListCons(b, [Atom(c)] + close);
    CommaListCons(a, [Atom(b), Mark(',')] + ([Atom(c)] + close));
    assert RuleTokens(Lan4)[3..] == [Atom(a), Mark(',')] + ([Atom(b), Mark(',')] + ([Atom(c)] + close));
    assert [a] + ([b] + [c]) == [a, b, c];
  }

  lemma Lan4Reads(net: Net)
    requires ReadsNumerals(net)
    ensures ReadRule(net, RuleTokens(Lan4)) == Meaning(net, Lan4)
  {
    Lan4List();
    Lan4Words(net);
    LanHeads();
    LanMeanings(net);
    hide ReadRule, CommaList, ReadBlocks, Lan4Blocks, ReadsNumerals, RuleTokens, Meaning, Family;
    SetReads(net, false, RuleTokens(Lan4), ["10.0.0.0/8", "172.16.0.0/12", "192.168.0.0/16"], Lan4Blocks());
  }

  lemma RuleReads(net: Net, rule: Rule)
    requires ReadsNumerals(net) && IsSound(rule) && HasPlainPorts(rule)
    ensures ReadRule(net, RuleTokens(rule)) == Meaning(net, rule)
  {
    hide ReadRule, RuleTokens, Meaning, ReadsNumerals;
    match rule
    case OutIface(name) => OutIfaceReads(net, name);
    case Established => EstablishedReads(net);
    case Dest(v6, addr, proto, port) => DestReads(net, v6, addr, proto, port);
    case Lan4 => Lan4Reads(net);
    case Lan6 => Lan6Reads(net);
  }

  // ----- The whole text

  function RuleStatements(rules: seq<Rule>): (s: seq<seq<Token>>) {
    seq(|rules|, i requires 0 <= i < |rules| => RuleTokens(rules[i]))
  }

  lemma RuleStatement(rule: Rule, tail: string)
    requires IsSound(rule) && HasPlainPorts(rule)
    ensures Statements(Lex(RenderRule(rule) + tail)) == [RuleTokens(rule)] + Statements(Lex(tail))
  {
    hide Lex, Statements, RenderRule, PiecesOf, Texts, Tokens, RuleTokens, IsSound, HasPlainPorts, ArePieces,
      IsStatement, WordsOf;
    LineIs(rule);
    TextsAre(rule);
    TokensAre(rule);
    RulePieces(rule);
    RuleIsStatement(rule);
    LineStatement(PiecesOf(rule), tail);
    assert LineOf(PiecesOf(rule)) == RenderRule(rule);
  }

  lemma {:induction false} StatementsOfRules(rules: seq<Rule>, tail: string)
    requires AreSound(rules) && HavePlainPorts(rules)
    ensures Statements(Lex(RenderRules(rules) + tail)) == RuleStatements(rules) + Statements(Lex(tail))
    decreases |rules|
  {
    hide Lex, Statements, RenderRule, RuleTokens, IsSound, HasPlainPorts;
    if rules == [] {
      assert RenderRules(rules) + tail == tail;
    } else {
      var front, last := rules[..|rules| - 1], rules[|rules| - 1];
      StatementsOfRules(front, RenderRule(last) + tail);
      RuleStatement(last, tail);
      assert RenderRules(rules) + tail == RenderRules(front) + (RenderRule(last) + tail);
      assert RuleStatements(rules) == RuleStatements(front) + [RuleTokens(last)];
      assert RuleStatements(front) + ([RuleTokens(last)] + Statements(Lex(tail))) ==
             RuleStatements(rules) + Statements(Lex(tail));
    }
  }

  // The lines of the header and of the footer.

  function TablePieces(): (ps: seq<Piece>) {
    [Plain("", "table"), Plain("", "inet"), Plain("", "nm-airvpn-killswitch"), Brace("", '{')]
  }

  function ChainPieces(): (ps: seq<Piece>) { [Plain("\t", "chain"), Plain("", "output"), Brace("", '{')] }

  function HookPieces(): (ps: seq<Piece>) {
    [Plain("\t\t", "type"), Plain("", "filter"), Plain("", "hook"), Plain("", "output"), Plain("", "priority")]
  }

  function PolicyPieces(): (ps: seq<Piece>) { [Marked("0", ';'), Plain("", "policy"), Marked("drop", ';')] }

  function TableTokens(): (t: seq<Token>) {
    [Atom("table"), Atom("inet"), Atom("nm-airvpn-killswitch"), Mark('{')]
  }

  function ChainTokens(): (t: seq<Token>) { [Atom("chain"), Atom("output"), Mark('{')] }

  function HookTokens(): (t: seq<Token>) {
    [Atom("type"), Atom("filter"), Atom("hook"), Atom("output"), Atom("priority"), Atom("0")]
  }

  function PolicyTokens(): (t: seq<Token>) { [Atom("policy"), Atom("drop")] }

  lemma HeadWordsAreWords()
    ensures IsWord("table") && IsWord("inet") && IsWord("nm-airvpn-killswitch") && IsWord("chain") && IsWord("output")
    ensures IsWord("type") && IsWord("filter") && IsWord("hook") && IsWord("priority") && IsWord("0") &&
            IsWord("policy") && IsWord("drop")
  {
    TableWordsAreWords();
    HookWordsAreWords();
    hide IsWord;
  }

  lemma TableWordsAreWords()
    ensures IsWord("table") && IsWord("inet") && IsWord("nm-airvpn-killswitch") && IsWord("chain") && IsWord("output")
  {
  }

  lemma HookWordsAreWords()
    ensures IsWord("type") && IsWord("filter") && IsWord("hook") && IsWord("priority") && IsWord("0") &&
            IsWord("policy") && IsWord("drop")
  {
  }

  lemma HeadPieces()
    ensures ArePieces(TablePieces()) && ArePieces(ChainPieces()) && ArePieces(HookPieces() + PolicyPieces())
    ensures ArePieces([Brace("\t", '}')]) && ArePieces([Brace("", '}')])
  {
    HeadWordsAreWords();
    assert IsTabs("") && IsTabs("\t") && IsTabs("\t\t");
    hide IsWord, IsTabs;
    PiecesConcat(HookPieces(), PolicyPieces());
  }

  lemma HeadTokens()
    ensures Tokens(TablePieces()) == TableTokens() && Tokens(ChainPieces()) == ChainTokens()
    ensures Tokens(HookPieces() + PolicyPieces()) == HookTokens() + ([Mark(';')] + (PolicyTokens() + [Mark(';')]))
    ensures Tokens([Brace("\t", '}')]) == [Mark('}')] && Tokens([Brace("", '}')]) == [Mark('}')]
  {
    hide Tokens;
    var a, b, h, p := TablePieces(), ChainPieces(), HookPieces(), PolicyPieces();
    Tokens4(a[0], a[1], a[2], a[3]);
    assert a == [a[0], a[1], a[2], a[3]];
    Tokens3(b[0], b[1], b[2]);
    assert b == [b[0], b[1], b[2]];
    Tokens4(h[1], h[2], h[3], h[4]);
    TokensCons(h[0], [h[1], h[2], h[3], h[4]]);
    assert h == [h[0]] + [h[1], h[2], h[3], h[4]];
    Tokens3(p[0], p[1], p[2]);
    assert p == [p[0], p[1], p[2]];
    TokensConcat(h, p);
    Tokens1(Brace("\t", '}'));
    Tokens1(Brace("", '}'));
  }

  lemma HeadTexts()
    ensures Texts(TablePieces()) == ["table", "inet", "nm-airvpn-killswitch", "{"] &&
            Texts(ChainPieces()) == ["\tchain", "output", "{"]
    ensures Texts(HookPieces() + PolicyPieces()) ==
            ["\t\ttype", "filter", "hook", "output"] + ["priority", "0;", "policy", "drop;"]
    ensures Texts([Brace("\t", '}')]) == ["\t}"] && Texts([Brace("", '}')]) == ["}"]
  {
    BlockTexts();
    HeadPieceTexts();
    hide PieceText;
  }

  lemma HeadPieceTexts()
    ensures PieceText(Plain("\t", "chain")) == "\tchain" && PieceText(Plain("\t\t", "type")) == "\t\ttype"
    ensures PieceText(Marked("0", ';')) == "0;" && PieceText(Marked("drop", ';')) == "drop;" &&
            PieceText(Brace("\t", '}')) == "\t}"
    ensures forall word: string :: PieceText(Plain("", word)) == word
  {
    forall word: string ensures PieceText(Plain("", word)) == word {
      TextOfPlain(word);
    }
  }

  lemma ChainLine()
    ensures "\tchain output {\n" == Join(Texts(ChainPieces()), ' ') + "\n"
  {
    HeadTexts();
    hide Texts, Join;
    Join3("\tchain", "output", "{");
  }

  lemma TableLine()
    ensures "table inet nm-airvpn-killswitch {\n" == Join(Texts(TablePieces()), ' ') + "\n"
  {
    HeadTexts();
    hide Texts, Join;
    Join4("table", "inet", "nm-airvpn-killswitch", "{");
    assert "table inet nm-airvpn-killswitch {\n" ==
           "table" + [' '] + ("inet" + [' '] + ("nm-airvpn-killswitch" + [' '] + "{")) + "\n";
  }

  lemma JoinConcat(a: seq<string>, b: seq<string>)
    requires a != [] && b != []
    ensures Join(a + b, ' ') == Join(a, ' ') + [' '] + Join(b, ' ')
  {
    if |a| == 1 {
      JoinCons(a[0], b);
      assert a + b == [a[0]] + b;
    } else {
      JoinConcat(a[1..], b);
      JoinCons(a[0], a[1..] + b);
      JoinCons(a[0], a[1..]);
      assert a + b == [a[0]] + (a[1..] + b) && a == [a[0]] + a[1..];
    }
  }

  lemma HookLine()
    ensures "\t\ttype filter hook output priority 0; " + "policy drop;\n" ==
            Join(Texts(HookPieces() + PolicyPieces()), ' ') + "\n"
  {
    HeadTexts();
    hide Texts, Join;
    Join4("\t\ttype", "filter", "hook", "output");
    Join4("priority", "0;", "policy", "drop;");
    JoinConcat(["\t\ttype", "filter", "hook", "output"], ["priority", "0;", "policy", "drop;"]);
    assert "\t\ttype filter hook output priority 0; "
           == "\t\ttype" + [' '] + ("filter" + [' '] + ("hook" + [' '] + "output")) + [' '] +
              ("priority" + [' '] + ("0;" + [' ']));
    assert "policy drop;\n" == "policy" + [' '] + "drop;" + "\n";
    var hook := "\t\ttype" + [' '] + ("filter" + [' '] + ("hook" + [' '] + "output"));
    HookConcat(hook, "priority", "0;", "policy", "drop;");
  }

  lemma HookConcat(a: string, b: string, c: string, d: string, e: string)
    ensures a + [' '] + (b + [' '] + (c + [' '])) + (d + [' '] + e + "\n")
            == a + [' '] + (b + [' '] + (c + [' '] + (d + [' '] + e))) + "\n"
  {
  }

  lemma TwoStatements(a: seq<Token>, b: seq<Token>, rest: seq<Token>)
    requires IsStatement(a) && IsStatement(b)
    ensures Statements(a + ([Mark(';')] + (b + [Mark(';')])) + ([Mark('\n')] + rest)) == [a, b] + Statements(rest)
  {
    hide Statements, IsStatement;
    var end := [Mark('\n')] + rest;
    assert a + ([Mark(';')] + (b + [Mark(';')])) + end == a + ([Mark(';')] + (b + ([Mark(';')] + end)));
    StatementsCons(a, Mark(';'), b + ([Mark(';')] + end));
    StatementsCons(b, Mark(';'), end);
    StatementsSkip(Mark('\n'), rest);
    assert [a] + ([b] + Statements(rest)) == [a, b] + Statements(rest);
  }

  /** The hook and the policy stand on one line, each behind a semicolon. */
  lemma HookStatements(tail: string)
    ensures Statements(Lex(LineOf(HookPieces() + PolicyPieces()) + tail)) ==
            [HookTokens(), PolicyTokens()] + Statements(Lex(tail))
  {
    assert IsStatement(HookTokens()) && IsStatement(PolicyTokens()) && HookPieces() + PolicyPieces() != [];
    hide *;
    HeadPieces();
    HeadTokens();
    LexLine(HookPieces() + PolicyPieces(), tail);
    TwoStatements(HookTokens(), PolicyTokens(), Lex(tail));
  }

  lemma HeaderIs()
    ensures Header() == LineOf(TablePieces()) + LineOf(ChainPieces()) + LineOf(HookPieces() + PolicyPieces())
  {
    TableLine();
    ChainLine();
    HookLine();
    hide TablePieces, ChainPieces, HookPieces, PolicyPieces, Texts, Join;
    var a, b, c, d := "table inet nm-airvpn-killswitch {\n", "\tchain output {\n",
                      "\t\ttype filter hook output priority 0; ", "policy drop;\n";
    assert Header() == a + b + c + d;
    assert a + b + c + d == a + b + (c + d);
  }

  lemma HeadStatements()
    ensures IsStatement(Tokens(TablePieces())) && IsStatement(Tokens(ChainPieces())) && TablePieces() != [] &&
            ChainPieces() != []
  {
    HeadTokens();
    hide Tokens;
  }

  lemma HeaderStatements(tail: string)
    ensures Statements(Lex(Header() + tail)) ==
            [TableTokens(), ChainTokens(), HookTokens(), PolicyTokens()] + Statements(Lex(tail))
  {
    hide *;
    HeadPieces();
    HeadTokens();
    HeadStatements();
    HeaderIs();
    var a, b, c := LineOf(TablePieces()), LineOf(ChainPieces()), LineOf(HookPieces() + PolicyPieces());
    HookStatements(tail);
    LineStatement(TablePieces(), b + (c + tail));
    LineStatement(ChainPieces(), c + tail);
    assert Header() + tail == a + (b + (c + tail));
    assert [TableTokens()] + ([ChainTokens()] + ([HookTokens(), PolicyTokens()] + Statements(Lex(tail))))
           == [TableTokens(), ChainTokens(), HookTokens(), PolicyTokens()] + Statements(Lex(tail));
  }

  lemma FooterIs()
    ensures Footer() == LineOf([Brace("\t", '}')]) + (LineOf([Brace("", '}')]) + "")
  {
    HeadTexts();
    assert Join(["\t}"], ' ') == "\t}" && Join(["}"], ' ') == "}";
    hide Texts, Join;
  }

  lemma FooterStatements()
    ensures Statements(Lex(Footer())) == [[Mark('}')], [Mark('}')]]
  {
    assert IsStatement([Mark('}')]);
    assert Statements(Lex("")) == [];
    hide *;
    HeadPieces();
    HeadTokens();
    FooterIs();
    LineStatement([Brace("\t", '}')], LineOf([Brace("", '}')]) + "");
    LineStatement([Brace("", '}')], "");
    var close := [Mark('}')];
    assert [close] + ([close] + []) == [close, close];
  }
}
