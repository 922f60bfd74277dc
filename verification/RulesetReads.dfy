/** For which rules the generated text means what it is meant to, and what it can mean otherwise. */
module RulesetReads {
  import opened Basics
  import opened Firewall
  import opened Glib
  import opened Network
  import opened Nftables
  import opened RulesetText

  // ----- Plain words

  function Closing(): (s: seq<seq<Token>>) { [[Mark('}')], [Mark('}')]] }

  /** The text of a ruleset around a body of rules. */
  lemma TextStatements(body: string, s: seq<seq<Token>>)
    requires Statements(Lex(body + Footer())) == s + Statements(Lex(Footer()))
    ensures Statements(Lex(Header() + body + Footer()))
            == [TableTokens(), ChainTokens(), HookTokens(), PolicyTokens()] + (s + Closing())
  {
    assert Closing() == [[Mark('}')], [Mark('}')]];
    hide *;
    HeaderStatements(body + Footer());
    FooterStatements();
    assert Header() + body + Footer() == Header() + (body + Footer());
  }

  lemma HeadReads()
    ensures IsHead(TableTokens(), "table", 2) && TableTokens()[1].text == "inet" &&
            TableTokens()[2].text == "nm-airvpn-killswitch"
    ensures IsHead(ChainTokens(), "chain", 1) && ChainTokens()[1].text == "output"
    ensures IsHook(HookTokens()) && HookTokens()[1].text == "filter" && HookTokens()[3].text == "output" &&
            HookTokens()[5].text == "0"
    ensures ReadPolicy(PolicyTokens()) == Some(Drop)
  {
    assert "drop" != "accept";
  }

  /** A text with the header of the kill switch reads as its table, with whatever rules the statements read as. */
  lemma TextReads(net: Net, body: string, s: seq<seq<Token>>)
    requires Statements(Lex(body + Footer())) == s + Statements(Lex(Footer()))
    ensures ReadRuleset(net, Header() + body + Footer()) ==
            match ReadRules(net, s + Closing())
            case None => None
            case Some(rules) => Some(KillSwitchTable(rules))
  {
    TextStatements(body, s);
    HeadReads();
    hide Lex, Statements, Header, Footer, TableTokens, ChainTokens, HookTokens, PolicyTokens, ReadRules, ReadPolicy,
      IsHead, IsHook, Closing;
    var all := Statements(Lex(Header() + body + Footer()));
    assert all[4..] == s + Closing();
    assert all[0] == TableTokens() && all[1] == ChainTokens() && all[2] == HookTokens() && all[3] == PolicyTokens();
  }

  lemma ReadRulesCons(net: Net, t: seq<Token>, s: seq<seq<Token>>)
    requires |s| >= 2
    ensures ReadRules(net, [t] + s) ==
            match (ReadRule(net, t), ReadRules(net, s))
            case (Some(rule), Some(rest)) => Some([rule] + rest)
            case _ => None
  {
    hide ReadRule;
    assert ([t] + s)[1..] == s;
  }

  lemma ClosingReads(net: Net)
    ensures ReadRules(net, Closing()) == Some([])
  {
  }

  /** Rules, and whatever follows them. */
  lemma {:induction false} RuleStatementsRead(net: Net, rules: seq<Rule>, s: seq<seq<Token>>)
    requires ReadsNumerals(net) && AreSound(rules) && HavePlainPorts(rules) && |s| >= 2
    ensures ReadRules(net, RuleStatements(rules) + s) ==
            match (Meanings(net, rules), ReadRules(net, s))
            case (Some(a), Some(b)) => Some(a + b)
            case _ => None
  {
    hide ReadRule, RuleTokens, IsSound, HasPlainPorts, Meaning, ReadsNumerals, ReadRules;
    if rules == [] {
      assert RuleStatements(rules) + s == s;
      assert forall b: seq<FilterRule> :: [] + b == b;
    } else {
      RuleReads(net, rules[0]);
      RuleStatementsRead(net, rules[1..], s);
      ReadRulesCons(net, RuleTokens(rules[0]), RuleStatements(rules[1..]) + s);
      assert RuleStatements(rules) + s == [RuleTokens(rules[0])] + (RuleStatements(rules[1..]) + s);
      forall m: FilterRule, a: seq<FilterRule>, b: seq<FilterRule> ensures [m] + (a + b) == [m] + a + b {}
    }
  }

  /**
   * Where every word for ports is one word for the packet filter too, the text reads as what the rules are
   * meant to do.
   */
  lemma ReadInvertsRender(net: Net, rules: seq<Rule>)
    requires ReadsNumerals(net) && AreSound(rules) && HavePlainPorts(rules)
    ensures ReadRuleset(net, Render(rules)) == MeaningOf(net, rules)
  {
    hide ReadRuleset, Statements, Lex, AreSound, HavePlainPorts, RenderRules, Header, Footer, RuleStatements, Meanings,
      ReadsNumerals;
    StatementsOfRules(rules, Footer());
    TextReads(net, RenderRules(rules), RuleStatements(rules));
    RuleStatementsRead(net, rules, Closing());
    ClosingReads(net);
    assert forall a: seq<FilterRule> :: a + [] == a;
  }

  // ----- Only plain words are read

  predicate HasWord(t: Token) { t.Atom? ==> IsWord(t.text) }

  lemma {:induction false} LexWords(text: string)
    ensures forall i :: 0 <= i < |Lex(text)| ==> HasWord(Lex(text)[i])
    decreases |text|
  {
    hide Free;
    if text != "" {
      if text[0] in {' ', '\t'} {
        LexWords(text[1..]);
      } else if text[0] == '#' {
        LexWords(text[FirstOf(text, {'\n'})..]);
      } else if text[0] in MARKS {
        LexWords(text[1..]);
      } else if text[0] == '"' {
        var end := FirstOf(text[1..], {'"'});
        if end < |text[1..]| {
          LexWords(text[1..][end + 1..]);
        }
      } else {
        WordRead(text);
        LexWords(text[FirstOf(text, PUNCTUATION)..]);
      }
    }
  }

  lemma WordRead(text: string)
    requires text != "" && text[0] !in PUNCTUATION
    ensures IsWord(text[..FirstOf(text, PUNCTUATION)])
  {
  }

  ghost predicate HaveWords(t: seq<Token>) { forall i :: 0 <= i < |t| ==> HasWord(t[i]) }

  lemma {:induction false} StatementWords(t: seq<Token>)
    requires HaveWords(t)
    ensures forall i :: 0 <= i < |Statements(t)| ==> HaveWords(Statements(t)[i])
    decreases |t|
  {
    hide HasWord;
    if t != [] {
      var i := SeparatorAt(t);
      if i < |t| {
        StatementWords(t[i + 1..]);
      }
    }
  }

  /** The ports that the rule matches are one word. */
  ghost predicate HasPortWords(rule: FilterRule) {
    forall i :: 0 <= i < |rule.matches| && rule.matches[i].DestPort? ==> IsWord(rule.matches[i].ports)
  }

  lemma {:induction false} CommaListWords(t: seq<Token>)
    requires HaveWords(t)
    ensures HaveWords(CommaList(t).1)
    decreases |t|
  {
    hide HasWord;
    if t != [] && t[0].Atom? && |t| >= 2 && t[1] == Mark(',') {
      CommaListWords(t[2..]);
    }
  }

  lemma WithPortWords(m: Match, rest: Option<FilterRule>)
    requires m.DestPort? ==> IsWord(m.ports)
    requires rest.Some? ==> HasPortWords(rest.value)
    ensures With(m, rest).Some? ==> HasPortWords(With(m, rest).value)
  {
    hide IsWord;
  }

  lemma SuffixWords(t: seq<Token>, k: nat)
    requires HaveWords(t) && k <= |t|
    ensures HaveWords(t[k..])
  {
    hide HasWord;
  }

  /** Whatever matches come first, the ports that a statement matches are one word each. */
  lemma {:induction false} RulePortWords(net: Net, t: seq<Token>)
    requires HaveWords(t)
    ensures ReadRule(net, t).Some? ==> HasPortWords(ReadRule(net, t).value)
    decreases |t|, 1
  {
    hide IsWord, CommaList;
    if |t| >= 2 && t[0] == Atom("oifname") && t[1].Quoted? {
      SuffixWords(t, 2);
      RulePortWords(net, t[2..]);
      WithPortWords(OifName(t[1].text), ReadRule(net, t[2..]));
    } else if |t| >= 3 && t[0] == Atom("ct") && t[1] == Atom("state") {
      SuffixWords(t, 2);
      CommaListWords(t[2..]);
      var (states, rest) := CommaList(t[2..]);
      RulePortWords(net, rest);
      WithPortWords(CtState(set s | s in states), ReadRule(net, rest));
    } else if |t| >= 3 && t[0] in {Atom("ip"), Atom("ip6")} && t[1] == Atom("daddr") {
      DestAddrPortWords(net, t);
    } else if |t| >= 3 && t[0] in {Atom("udp"), Atom("tcp")} && t[1] == Atom("dport") && t[2].Atom? {
      SuffixWords(t, 3);
      RulePortWords(net, t[3..]);
      assert HasWord(t[2]);
      WithPortWords(DestPort(t[0].text, t[2].text), ReadRule(net, t[3..]));
    }
  }

  lemma DestAddrPortWords(net: Net, t: seq<Token>)
    requires HaveWords(t) && |t| >= 3
    ensures ReadDestAddr(net, t).Some? ==> HasPortWords(ReadDestAddr(net, t).value)
    decreases |t|, 0
  {
    hide IsWord, CommaList, ReadBlocks, ReadRule;
    var v6 := t[0] == Atom("ip6");
    SuffixWords(t, 3);
    if t[2].Atom? {
      RulePortWords(net, t[3..]);
      var blocks := ReadBlocks(net, v6, [t[2].text]);
      if blocks.Some? {
        WithPortWords(DestAddr(v6, blocks.value), ReadRule(net, t[3..]));
      }
    } else if t[2] == Mark('{') {
      CommaListWords(t[3..]);
      var (words, rest) := CommaList(t[3..]);
      if rest != [] {
        SuffixWords(rest, 1);
        RulePortWords(net, rest[1..]);
        var blocks := ReadBlocks(net, v6, words);
        if blocks.Some? {
          WithPortWords(DestAddr(v6, blocks.value), ReadRule(net, rest[1..]));
        }
      }
    }
  }

  lemma {:induction false} RulesPortWords(net: Net, s: seq<seq<Token>>)
    requires forall i :: 0 <= i < |s| ==> HaveWords(s[i])
    ensures ReadRules(net, s).Some? ==>
            forall i :: 0 <= i < |ReadRules(net, s).value| ==> HasPortWords(ReadRules(net, s).value[i])
  {
    hide HasWord, ReadRule, HasPortWords, HaveWords;
    if |s| >= 2 {
      RulePortWords(net, s[0]);
      RulesPortWords(net, s[1..]);
    }
  }

  /** Every word for ports in a ruleset that was read is one word. */
  lemma ReadPortWords(net: Net, text: string)
    requires ReadRuleset(net, text).Some?
    ensures var rules := ReadRuleset(net, text).value.rules; forall i :: 0 <= i < |rules| ==> HasPortWords(rules[i])
  {
    hide Lex, Statements, HasWord, HasPortWords, ReadRules, ReadPolicy, IsHead, IsHook;
    LexWords(text);
    StatementWords(Lex(text));
    RulesPortWords(net, Statements(Lex(text))[4..]);
  }

  // ----- Exactly when

  lemma {:induction false} MeaningsAt(net: Net, rules: seq<Rule>, i: nat)
    requires Meanings(net, rules).Some? && i < |rules|
    ensures |Meanings(net, rules).value| == |rules| && Meaning(net, rules[i]) == Some(Meanings(net, rules).value[i])
  {
    hide Meaning;
    if rules[1..] != [] {
      MeaningsAt(net, rules[1..], if i > 0 then i - 1 else 0);
    }
  }

  /** A text of readable words means what its rules are meant to do if and only if every word for ports is plain. */
  lemma ReadsBackExactly(net: Net, rules: seq<Rule>)
    requires ReadsNumerals(net) && AreSound(rules) && MeaningOf(net, rules).Some?
    ensures ReadRuleset(net, Render(rules)) == MeaningOf(net, rules) <==> HavePlainPorts(rules)
  {
    hide ReadRuleset, Render, ReadsNumerals, Meanings;
    if HavePlainPorts(rules) {
      ReadInvertsRender(net, rules);
    } else if ReadRuleset(net, Render(rules)) == MeaningOf(net, rules) {
      var i :| 0 <= i < |rules| && !HasPlainPorts(rules[i]);
      MeaningsAt(net, rules, i);
      var rule := Meanings(net, rules).value[i];
      assert rule.matches[1] == DestPort(rules[i].proto, rules[i].port);
      assert !HasPortWords(rule);
      ReadPortWords(net, Render(rules));
    }
  }

  // ----- A word for ports that holds a verdict

  /** The word that ends the rule early, accepts everything, and turns what follows into a comment. */
  function WithVerdict(w: string): (port: string) { w + ";accept#" }

  lemma LexComment(tail: string)
    ensures Lex("# accept\n" + tail) == [Mark('\n')] + Lex(tail)
  {
    var text := "# accept\n" + tail;
    FirstOfFree("# accept", "\n" + tail, {'\n'});
    assert text == "# accept" + ("\n" + tail);
    assert text[8..] == ['\n'] + tail;
    LexMark('\n', tail);
  }

  lemma VerdictStatements(v6: bool, addr: string, proto: string, w: string, tail: string)
    requires IsWord(addr) && proto in {UDP, TCP} && IsWord(w)
    ensures Statements(Lex(RenderRule(Dest(v6, addr, proto, WithVerdict(w))) + tail))
            == [DestTokens(v6, addr, proto, w), [Atom("accept")]] + Statements(Lex(tail))
  {
    hide *;
    VerdictTokens(v6, addr, proto, w, tail);
    DestIsStatement(v6, addr, proto, w);
    StatementsPair(DestTokens(v6, addr, proto, w), [Atom("accept")], Lex(tail));
  }

  lemma DestIsStatement(v6: bool, addr: string, proto: string, w: string)
    ensures IsStatement(DestTokens(v6, addr, proto, w)) && IsStatement([Atom("accept")])
  {
    hide Family;
  }

  lemma StatementsPair(a: seq<Token>, b: seq<Token>, rest: seq<Token>)
    requires IsStatement(a) && IsStatement(b)
    ensures Statements(a + ([Mark(';')] + (b + ([Mark('\n')] + rest)))) == [a, b] + Statements(rest)
  {
    hide Statements, IsStatement;
    StatementsCons(a, Mark(';'), b + ([Mark('\n')] + rest));
    StatementsCons(b, Mark('\n'), rest);
    assert [a] + ([b] + Statements(rest)) == [a, b] + Statements(rest);
  }

  /** A rule for a destination without its verdict. */
  function DestTokens(v6: bool, addr: string, proto: string, w: string): (t: seq<Token>) {
    [Atom(Family(v6)), Atom("daddr"), Atom(addr), Atom(proto), Atom("dport"), Atom(w)]
  }

  lemma EndsWith(c: char, rest: string)
    requires c in PUNCTUATION
    ensures Ends([c] + rest)
  {
  }

  lemma CommentEnds(tail: string)
    ensures Ends("# accept\n" + tail)
  {
  }

  /** From the blank in front of the word on. */
  lemma LexVerdict(w: string, tail: string)
    requires IsWord(w)
    ensures Lex([' '] + (w + ([';'] + ("accept" + ("# accept\n" + tail)))))
            == [Atom(w)] + ([Mark(';')] + ([Atom("accept")] + ([Mark('\n')] + Lex(tail))))
  {
    assert ';' in PUNCTUATION && ';' in MARKS;
    hide *;
    StateWordsAreWords();
    var comment := "# accept\n" + tail;
    CommentEnds(tail);
    EndsWith(';', "accept" + comment);
    LexComment(tail);
    LexWord("accept", comment);
    LexMark(';', "accept" + comment);
    LexWord(w, [';'] + ("accept" + comment));
    LexBlank(w + ([';'] + ("accept" + comment)));
  }

  lemma DestPiecesThere(v6: bool, addr: string, proto: string)
    ensures DestPieces(v6, addr, proto) != [] && ' ' in PUNCTUATION
  {
  }

  lemma VerdictTokens(v6: bool, addr: string, proto: string, w: string, tail: string)
    requires IsWord(addr) && proto in {UDP, TCP} && IsWord(w)
    ensures Lex(RenderRule(Dest(v6, addr, proto, WithVerdict(w))) + tail)
            == DestTokens(v6, addr, proto, w) + ([Mark(';')] + ([Atom("accept")] + ([Mark('\n')] + Lex(tail))))
  {
    hide *;
    DestPiecesThere(v6, addr, proto);
    DestRulePieces(v6, addr, proto);
    VerdictText(v6, addr, proto, w, tail);
    LexVerdict(w, tail);
    EndsWith(' ', w + ([';'] + ("accept" + ("# accept\n" + tail))));
    LexJoin(DestPieces(v6, addr, proto), [' '] + (w + ([';'] + ("accept" + ("# accept\n" + tail)))));
    HeadAndWord(v6, addr, proto, w);
    var head, end := Tokens(DestPieces(v6, addr, proto)), [Mark(';')] + ([Atom("accept")] + ([Mark('\n')] + Lex(tail)));
    assert head + ([Atom(w)] + end) == (head + [Atom(w)]) + end;
  }

  lemma HeadAndWord(v6: bool, addr: string, proto: string, w: string)
    ensures Tokens(DestPieces(v6, addr, proto)) + [Atom(w)] == DestTokens(v6, addr, proto, w)
  {
    DestPieceTokens(v6, addr, proto);
    hide Tokens, Family;
  }

  lemma VerdictText(v6: bool, addr: string, proto: string, w: string, tail: string)
    ensures RenderRule(Dest(v6, addr, proto, WithVerdict(w))) + tail
            == Join(Texts(DestPieces(v6, addr, proto)), ' ') +
               ([' '] + (w + ([';'] + ("accept" + ("# accept\n" + tail)))))
  {
    var a := "\t\t" + Family(v6);
    DestHeadTexts(v6, addr, proto);
    hide Texts, Family, Join;
    var head := [a, "daddr", addr, proto, "dport"];
    LineIs(Dest(v6, addr, proto, WithVerdict(w)));
    assert WordsOf(Dest(v6, addr, proto, WithVerdict(w))) == head + [WithVerdict(w), "accept"];
    JoinConcat(head, [WithVerdict(w), "accept"]);
    JoinCons(WithVerdict(w), ["accept"]);
    assert [WithVerdict(w)] + ["accept"] == [WithVerdict(w), "accept"];
    JoinOne("accept");
    hide *;
  }

  lemma JoinOne(a: string)
    ensures Join([a], ' ') == a
  {
  }

  lemma DestHeadTexts(v6: bool, addr: string, proto: string)
    ensures Texts(DestPieces(v6, addr, proto)) == ["\t\t" + Family(v6), "daddr", addr, proto, "dport"]
  {
    LeadText("\t\t", Family(v6));
    TextOfPlain("daddr");
    TextOfPlain(addr);
    TextOfPlain(proto);
    TextOfPlain("dport");
    hide PieceText, Family;
  }

  lemma {:induction false} RenderConcat(a: seq<Rule>, b: seq<Rule>)
    ensures RenderRules(a + b) == RenderRules(a) + RenderRules(b)
    decreases |b|
  {
    hide RenderRule;
    if b == [] {
      assert a + b == a;
    } else {
      RenderConcat(a, b[..|b| - 1]);
      assert (a + b)[..|a + b| - 1] == a + b[..|b| - 1];
    }
  }

  /** The match for a destination, with no verdict of its own. */
  function Undecided(net: Net, v6: bool, addr: string, proto: string, w: string): (rule: FilterRule)
    requires net.filterAddr(addr).Some?
  {
    FilterRule([DestAddr(v6, [Block(net.filterAddr(addr).value, Width(v6))]), DestPort(proto, w)], Continue)
  }

  lemma DestTokensRead(net: Net, v6: bool, addr: string, proto: string, w: string)
    requires Free(addr, SLASH) && proto in {UDP, TCP} && net.filterAddr(addr).Some? &&
             net.filterAddr(addr).value.V6? == v6 && net.readsPort(w)
    ensures ReadRule(net, DestTokens(v6, addr, proto, w)) == Some(Undecided(net, v6, addr, proto, w))
  {
    var t := DestTokens(v6, addr, proto, w);
    var rest := [Atom(proto), Atom("dport"), Atom(w)];
    OneBlock(net, v6, addr);
    KeywordDaddr(net, v6, t);
    DestPortAlone(net, proto, w);
    hide ReadRule, Family, ReadBlocks;
    assert t[3..] == rest;
    var m, m' := DestAddr(v6, [Block(net.filterAddr(addr).value, Width(v6))]), DestPort(proto, w);
    assert [m] + [m'] == [m, m'];
  }

  lemma DestPortAlone(net: Net, proto: string, w: string)
    requires proto in {UDP, TCP} && net.readsPort(w)
    ensures ReadRule(net, [Atom(proto), Atom("dport"), Atom(w)]) == Some(FilterRule([DestPort(proto, w)], Continue))
  {
    var t := [Atom(proto), Atom("dport"), Atom(w)];
    assert t[3..] == [];
    var none: seq<Match> := [];
    assert [DestPort(proto, w)] + none == [DestPort(proto, w)];
    assert ReadRule(net, []) == Some(FilterRule([], Continue));
    assert "tcp"[1] == 'c' && "ip6"[1] == 'p' && "udp"[0] == 'u' && "ip"[0] == 'i' && "oifname"[0] == 'o' &&
           "ct"[0] == 'c';
  }

  /** The rules that such a word makes of one. */
  function WithBareAccept(net: Net, v6: bool, addr: string, proto: string, w: string): (rules: seq<FilterRule>)
    requires net.filterAddr(addr).Some?
  {
    [Undecided(net, v6, addr, proto, w), FilterRule([], Accept)]
  }

  lemma VerdictReads(net: Net, v6: bool, addr: string, proto: string, w: string, s: seq<seq<Token>>)
    requires Free(addr, SLASH) && proto in {UDP, TCP} && net.filterAddr(addr).Some? &&
             net.filterAddr(addr).value.V6? == v6 && net.readsPort(w)
    requires |s| >= 2 && ReadRules(net, s).Some?
    ensures ReadRules(net, [DestTokens(v6, addr, proto, w), [Atom("accept")]] + s)
            == Some(WithBareAccept(net, v6, addr, proto, w) + ReadRules(net, s).value)
  {
    DestTokensRead(net, v6, addr, proto, w);
    AcceptReads(net);
    hide ReadRules, ReadRule, Undecided, DestTokens, Free;
    TwoRulesRead(net, DestTokens(v6, addr, proto, w), [Atom("accept")], s);
  }

  lemma TwoRulesRead(net: Net, t: seq<Token>, u: seq<Token>, s: seq<seq<Token>>)
    requires ReadRule(net, t).Some? && ReadRule(net, u).Some? && |s| >= 2 && ReadRules(net, s).Some?
    ensures ReadRules(net, [t, u] + s) ==
            Some([ReadRule(net, t).value, ReadRule(net, u).value] + ReadRules(net, s).value)
  {
    hide *;
    ReadRulesCons(net, u, s);
    ReadRulesCons(net, t, [u] + s);
    assert [t] + ([u] + s) == [t, u] + s;
    var a, b, rest := ReadRule(net, t).value, ReadRule(net, u).value, ReadRules(net, s).value;
    assert [a] + ([b] + rest) == [a, b] + rest;
  }

  /** A ruleset with such a word in it: the rule for its remote falls apart, and the second part accepts everything. */
  lemma VerdictInPort(net: Net, before: seq<Rule>, v6: bool, addr: string, proto: string, w: string, after: seq<Rule>)
    requires ReadsNumerals(net) && AreSound(before) && HavePlainPorts(before) && AreSound(after) &&
             HavePlainPorts(after)
    requires IsWord(addr) && Free(addr, SLASH) && proto in {UDP, TCP} && IsWord(w) && net.readsPort(w)
    requires net.filterAddr(addr).Some? && net.filterAddr(addr).value.V6? == v6
    requires Meanings(net, before).Some? && Meanings(net, after).Some?
    ensures ReadRuleset(net, Render(before + [Dest(v6, addr, proto, WithVerdict(w))] + after))
            == Some(KillSwitchTable(
                      Meanings(net, before).value
                      + (WithBareAccept(net, v6, addr, proto, w) + Meanings(net, after).value)))
  {
    hide *;
    var rule := Dest(v6, addr, proto, WithVerdict(w));
    var t := [DestTokens(v6, addr, proto, w), [Atom("accept")]];
    var tail := RenderRules(after) + Footer();
    VerdictBody(before, rule, after);
    StatementsOfRules(before, RenderRule(rule) + tail);
    VerdictStatements(v6, addr, proto, w, tail);
    StatementsOfRules(after, Footer());
    var s := RuleStatements(before) + (t + RuleStatements(after));
    assert RuleStatements(before) + (t + (RuleStatements(after) + Statements(Lex(Footer())))) ==
           s + Statements(Lex(Footer()));
    TextReads(net, RenderRules(before + [rule] + after), s);
    TwoClosing();
    ClosingReads(net);
    RuleStatementsRead(net, after, Closing());
    assert Meanings(net, after).value + [] == Meanings(net, after).value;
    VerdictReads(net, v6, addr, proto, w, RuleStatements(after) + Closing());
    RuleStatementsRead(net, before, t + (RuleStatements(after) + Closing()));
    assert s + Closing() == RuleStatements(before) + (t + (RuleStatements(after) + Closing()));
    RenderIs(before + [rule] + after);
  }

  lemma TwoClosing()
    ensures |Closing()| == 2
  {
  }

  lemma RenderIs(rules: seq<Rule>)
    ensures Render(rules) == Header() + RenderRules(rules) + Footer()
  {
  }

  lemma VerdictBody(before: seq<Rule>, rule: Rule, after: seq<Rule>)
    ensures RenderRules(before + [rule] + after) + Footer()
            == RenderRules(before) + (RenderRule(rule) + (RenderRules(after) + Footer()))
  {
    RenderConcat(before + [rule], after);
    RenderOne(before, rule);
    hide *;
  }
}
