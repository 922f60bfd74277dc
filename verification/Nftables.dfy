/** The packet filter's side: reading the text of a ruleset, and deciding on packets. */
module Nftables {
  import opened Basics
  import opened Glib
  import opened Network
  import opened Numerals

  // ----- Rulesets

  datatype Verdict = Accept | Drop | Continue

  /** The addresses that share the first `length` bits of `addr`. */
  datatype Block = Block(addr: Addr, length: nat) {
    predicate Valid() { length <= Width(addr.V6?) }
  }

  datatype Match =
    | OifName(pattern: string)
    | CtState(states: set<string>)
    | DestAddr(v6: bool, blocks: seq<Block>)
    | DestPort(proto: string, ports: string)

  datatype FilterRule = FilterRule(matches: seq<Match>, verdict: Verdict)

  /** One table with one chain. */
  datatype Ruleset = Ruleset(
    family: string, table: string, chain: string,
    kind: string, hook: string, priority: string, policy: Verdict,
    rules: seq<FilterRule>)

  function Width(v6: bool): (bits: nat) { if v6 then 128 else 32 }

  function Pow2(n: nat): (p: nat)
    ensures p > 0
  {
    if n == 0 then 1 else 2 * Pow2(n - 1)
  }

  // ----- Deciding

  predicate IfaceMatches(pattern: string, name: string) {
    if pattern != "" && pattern[|pattern| - 1] == '*' then HasPrefix(name, pattern[..|pattern| - 1])
    else name == pattern
  }

  predicate InBlock(a: Addr, block: Block) {
    && block.Valid() && a.V6? == block.addr.V6?
    && var size := Pow2(Width(a.V6?) - block.length); a.value / size == block.addr.value / size
  }

  predicate Holds(net: Net, m: Match, p: Packet) {
    match m
    case OifName(pattern) => IfaceMatches(pattern, p.oif)
    case CtState(states) => p.ct in states
    case DestAddr(v6, blocks) => p.dst.V6? == v6 && exists i :: 0 <= i < |blocks| && InBlock(p.dst, blocks[i])
    case DestPort(proto, ports) => p.proto == proto && net.isPort(ports, p.dport)
  }

  predicate AllHold(net: Net, matches: seq<Match>, p: Packet) {
    forall i :: 0 <= i < |matches| ==> Holds(net, matches[i], p)
  }

  /** The verdict of the first rule that matches and has one, and else the policy. */
  function Decide(net: Net, rules: seq<FilterRule>, policy: Verdict, p: Packet): (v: Verdict) {
    if rules == [] then policy
    else if AllHold(net, rules[0].matches, p) && !rules[0].verdict.Continue? then rules[0].verdict
    else Decide(net, rules[1..], policy, p)
  }

  /** A chain decides on outgoing packets when it filters at the output hook of both families. */
  predicate Accepts(net: Net, r: Ruleset, p: Packet) {
    r.family == "inet" && r.kind == "filter" && r.hook == "output" ==> Decide(net, r.rules, r.policy, p).Accept?
  }

  // ----- Tokens

  datatype Token = Atom(text: string) | Quoted(text: string) | Mark(c: char) | Unclosed

  const MARKS: set<char> := {'\n', ';', '{', '}', ','}

  /** Blanks separate tokens, and a comment reaches to the end of its line. */
  function Lex(text: string): (tokens: seq<Token>)
    decreases |text|
  {
    if text == "" then []
    else if text[0] in {' ', '\t'} then Lex(text[1..])
    else if text[0] == '#' then Lex(text[FirstOf(text, {'\n'})..])
    else if text[0] in MARKS then [Mark(text[0])] + Lex(text[1..])
    else if text[0] == '"' then
      var end := FirstOf(text[1..], {'"'});
      if end == |text[1..]| then [Unclosed] else [Quoted(text[1..][..end])] + Lex(text[1..][end + 1..])
    else
      var end := FirstOf(text, PUNCTUATION);
      [Atom(text[..end])] + Lex(text[end..])
  }

  predicate IsSeparator(t: Token) { t.Mark? && (t.c == '\n' || t.c == ';') }

  function SeparatorAt(tokens: seq<Token>): (i: nat)
    ensures i <= |tokens|
  {
    if tokens == [] || IsSeparator(tokens[0]) then 0 else 1 + SeparatorAt(tokens[1..])
  }

  /** The non-empty runs of tokens between line ends and semicolons. */
  function Statements(tokens: seq<Token>): (s: seq<seq<Token>>)
    decreases |tokens|
  {
    if tokens == [] then []
    else
      var i := SeparatorAt(tokens);
      (if i == 0 then [] else [tokens[..i]]) + if i == |tokens| then [] else Statements(tokens[i + 1..])
  }

  // ----- Reading

  /** Words with commas between them, and what follows. */
  function CommaList(tokens: seq<Token>): (r: (seq<string>, seq<Token>))
    ensures |r.1| <= |tokens|
  {
    if tokens == [] || !tokens[0].Atom? then ([], tokens)
    else if |tokens| >= 2 && tokens[1] == Mark(',') then
      var (words, rest) := CommaList(tokens[2..]);
      ([tokens[0].text] + words, rest)
    else ([tokens[0].text], tokens[1..])
  }

  /** An address, alone or with a prefix length, of the family that the keyword names. */
  function ReadBlock(net: Net, v6: bool, word: string): (b: Option<Block>) {
    var parts := Fields(word, SLASH);
    match net.filterAddr(parts[0])
    case None => None
    case Some(addr) =>
      if addr.V6? != v6 then None
      else if |parts| == 1 then Some(Block(addr, Width(v6)))
      else if |parts| == 2 && parts[1] != "" && AllDigits(parts[1]) && DecimalValue(parts[1]) <= Width(v6) then
        Some(Block(addr, DecimalValue(parts[1])))
      else None
  }

  function ReadBlocks(net: Net, v6: bool, words: seq<string>): (blocks: Option<seq<Block>>) {
    if words == [] then Some([])
    else
      match (ReadBlock(net, v6, words[0]), ReadBlocks(net, v6, words[1..]))
      case (Some(b), Some(rest)) => Some([b] + rest)
      case _ => None
  }

  function With(m: Match, rest: Option<FilterRule>): (r: Option<FilterRule>) {
    match rest
    case None => None
    case Some(rule) => Some(rule.(matches := [m] + rule.matches))
  }

  /** A statement: matches, and then a verdict or none. */
  function ReadRule(net: Net, t: seq<Token>): (rule: Option<FilterRule>)
    decreases |t|
  {
    if t == [] then Some(FilterRule([], Continue))
    else if t == [Atom("accept")] then Some(FilterRule([], Accept))
    else if t == [Atom("drop")] then Some(FilterRule([], Drop))
    else if |t| >= 2 && t[0] == Atom("oifname") && t[1].Quoted? then With(OifName(t[1].text), ReadRule(net, t[2..]))
    else if |t| >= 3 && t[0] == Atom("ct") && t[1] == Atom("state") then ReadCtState(net, t)
    else if |t| >= 3 && t[0] in {Atom("ip"), Atom("ip6")} && t[1] == Atom("daddr") then ReadDestAddr(net, t)
    else if |t| >= 3 && t[0] in {Atom("udp"), Atom("tcp")} && t[1] == Atom("dport") && t[2].Atom? then
      if net.readsPort(t[2].text) then With(DestPort(t[0].text, t[2].text), ReadRule(net, t[3..])) else None
    else None
  }

  function ReadCtState(net: Net, t: seq<Token>): (rule: Option<FilterRule>)
    requires |t| >= 3
    decreases |t|, 0
  {
    var (states, rest) := CommaList(t[2..]);
    if states == [] then None else With(CtState(set s | s in states), ReadRule(net, rest))
  }

  function ReadDestAddr(net: Net, t: seq<Token>): (rule: Option<FilterRule>)
    requires |t| >= 3
    decreases |t|, 0
  {
    var v6 := t[0] == Atom("ip6");
    var (words, rest) :=
      if t[2] == Mark('{') then CommaList(t[3..]) else if t[2].Atom? then ([t[2].text], t[3..]) else ([], []);
    match ReadBlocks(net, v6, words)
    case None => None
    case Some(blocks) =>
      if words == [] then None
      else if t[2].Atom? then With(DestAddr(v6, blocks), ReadRule(net, rest))
      else if rest != [] && rest[0] == Mark('}') then With(DestAddr(v6, blocks), ReadRule(net, rest[1..]))
      else None
  }

  /** The rules of a chain, and the braces that close it and its table. */
  function ReadRules(net: Net, s: seq<seq<Token>>): (rules: Option<seq<FilterRule>>) {
    if |s| < 2 then None
    else if s == [[Mark('}')], [Mark('}')]] then Some([])
    else
      match (ReadRule(net, s[0]), ReadRules(net, s[1..]))
      case (Some(rule), Some(rest)) => Some([rule] + rest)
      case _ => None
  }

  /** `keyword word word... {`, with as many words as asked for. */
  predicate IsHead(s: seq<Token>, keyword: string, words: nat) {
    && |s| == words + 2 && s[0] == Atom(keyword) && s[words + 1] == Mark('{')
    && forall i :: 1 <= i <= words ==> s[i].Atom?
  }

  /** `type kind hook hook priority priority`. */
  predicate IsHook(s: seq<Token>) {
    && |s| == 6 && s[0] == Atom("type") && s[1].Atom? && s[2] == Atom("hook") && s[3].Atom?
    && s[4] == Atom("priority") && s[5].Atom?
  }

  function ReadPolicy(s: seq<Token>): (policy: Option<Verdict>) {
    if s == [Atom("policy"), Atom("accept")] then Some(Accept)
    else if s == [Atom("policy"), Atom("drop")] then Some(Drop)
    else None
  }

  /** `nft -f`: the ruleset that the text stands for, unless it is refused. */
  function ReadRuleset(net: Net, text: string): (r: Option<Ruleset>) {
    var s := Statements(Lex(text));
    if |s| >= 4 && IsHead(s[0], "table", 2) && IsHead(s[1], "chain", 1) && IsHook(s[2]) then
      match (ReadPolicy(s[3]), ReadRules(net, s[4..]))
      case (Some(policy), Some(rules)) =>
        Some(Ruleset(s[0][1].text, s[0][2].text, s[1][1].text, s[2][1].text, s[2][3].text, s[2][5].text, policy, rules))
      case _ => None
    else None
  }
}
