/** The kill switch: an nftables table that lets out nothing but the tunnel and what it needs. */
module Firewall {
  import opened Basics
  import opened Glib
  import opened Network

  const SEPARATORS: set<char> := {' ', '\t'}
  const NEWLINE: set<char> := {'\n'}

  // ----- Reading the profile

  datatype Remote = Remote(host: string, port: string, proto: string)

  function Lines(contents: string): (lines: seq<string>) { StrSplit(contents, NEWLINE) }

  function Words(line: string): (words: seq<string>) { StrSplit(Strip(line), SEPARATORS) }

  /** A word of a line, or "" when the line is shorter. */
  function Word(words: seq<string>, i: nat): (w: string) { if i < |words| then words[i] else "" }

  /** The NULL-terminated vector that g_strsplit_set returns for a line. */
  function TokenVector(line: string): (v: seq<Option<string>>)
    ensures |v| == |Words(line)| + 1
    ensures forall i :: 0 <= i < |v| ==> v[i] == if i < |Words(line)| then Some(Words(line)[i]) else None
  {
    var w := Words(line);
    seq(|w| + 1, i requires 0 <= i <= |w| => if i < |w| then Some(w[i]) else None)
  }

  function OrDefault(word: string, default: string): (w: string) { if word != "" then word else default }

  /** A line that starts with the directive and a blank, and has a non-empty word behind one separator. */
  predicate IsDirective(line: string, directive: string) {
    HasPrefix(Strip(line), directive) && Word(Words(line), 1) != ""
  }

  predicate IsProtoLine(line: string) { IsDirective(line, "proto ") }
  predicate IsRemoteLine(line: string) { IsDirective(line, "remote ") }

  /** The fourth slot of a line's vector, which for two words lies behind the terminator. */
  function ProtocolSlot(net: Net, line: string): (w: string) {
    if |Words(line)| == 2 then net.behind(Strip(line)).GetOr("") else Word(Words(line), 3)
  }

  function RemoteAt(net: Net, line: string, default: string): (r: Remote) {
    var w := Words(line);
    Remote(Word(w, 1), OrDefault(Word(w, 2), DEFAULT_PORT), OrDefault(ProtocolSlot(net, line), default))
  }

  /** A remote without port and protocol. */
  predicate IsBareRemote(line: string) { IsRemoteLine(line) && |Words(line)| == 2 }

  /** The protocol of the last of the first `n` lines that gives one. */
  function DefaultProto(lines: seq<string>, n: nat): (d: string)
    requires n <= |lines|
  {
    if n == 0 then UDP
    else if IsProtoLine(lines[n - 1]) then Word(Words(lines[n - 1]), 1)
    else DefaultProto(lines, n - 1)
  }

  /** The remotes on the first `n` lines, in order. */
  function Remotes(net: Net, lines: seq<string>, default: string, n: nat): (remotes: seq<Remote>)
    requires n <= |lines|
  {
    if n == 0 then []
    else
      Remotes(net, lines, default, n - 1)
      + if IsRemoteLine(lines[n - 1]) then [RemoteAt(net, lines[n - 1], default)] else []
  }

  function ParsedRemotes(net: Net, contents: string): (remotes: seq<Remote>) {
    var lines := Lines(contents);
    Remotes(net, lines, DefaultProto(lines, |lines|), |lines|)
  }

  function Reversed<T>(s: seq<T>): (r: seq<T>) {
    if s == [] then [] else Reversed(s[1..]) + [s[0]]
  }

  lemma ReversedCons<T>(x: T, s: seq<T>)
    ensures Reversed([x] + s) == Reversed(s) + [x]
  {
    assert ([x] + s)[1..] == s;
  }

  lemma DefaultProtoStrips(lines: seq<string>, stripped: seq<string>, n: nat)
    requires n <= |lines| == |stripped|
    requires forall k :: 0 <= k < |lines| ==> stripped[k] == lines[k] || stripped[k] == Strip(lines[k])
    ensures DefaultProto(stripped, n) == DefaultProto(lines, n)
  {
    if n > 0 {
      StripIdempotent(lines[n - 1]);
      DefaultProtoStrips(lines, stripped, n - 1);
    }
  }

  /**
   * Two passes over the lines, which are stripped in place; the list is built by prepending and then reversed. `inside`
   * tells whether every slot that was read belongs to its vector.
   */
  method ParseRemotes(net: Net, profile: Option<string>) returns (remotes: seq<Remote>, inside: bool)
    ensures remotes == if profile.Some? then ParsedRemotes(net, profile.value) else []
    ensures inside <==>
            profile.Some? ==> forall k :: 0 <= k < |Lines(profile.value)| ==> !IsBareRemote(Lines(profile.value)[k])
  {
    hide Strip, StrSplit, DefaultProto, Remotes, IsBareRemote;
    if profile.None? {
      return [], true;
    }
    ghost var original := Lines(profile.value);
    var split := Lines(profile.value);
    var lines := new string[|split|](i requires 0 <= i < |split| => split[i]);
    assert lines[..] == original;
    var default := LastProto(lines, original);
    remotes, inside := CollectRemotes(net, lines, original, default);
  }

  /** The first pass. */
  method LastProto(lines: array<string>, ghost original: seq<string>) returns (default: Option<string>)
    requires lines[..] == original
    modifies lines
    ensures lines.Length == |original| && forall k :: 0 <= k < lines.Length ==> lines[k] == Strip(original[k])
    ensures default.GetOr(UDP) == DefaultProto(original, |original|)
  {
    hide Words, Strip, IsDirective, Word;
    default := None;
    var i := 0;
    while i < lines.Length
      invariant i <= lines.Length
      invariant forall k :: 0 <= k < i ==> lines[k] == Strip(original[k])
      invariant forall k :: i <= k < lines.Length ==> lines[k] == original[k]
      invariant default.GetOr(UDP) == DefaultProto(original, i)
    {
      var found := ProtoOf(original[i], lines, i);
      if found.Some? {
        default := found;
      }
      i := i + 1;
    }
  }

  /** The second pass. */
  method CollectRemotes(net: Net, lines: array<string>, ghost original: seq<string>, default: Option<string>)
    returns (remotes: seq<Remote>, inside: bool)
    requires lines.Length == |original| && forall k :: 0 <= k < lines.Length ==> lines[k] == Strip(original[k])
    modifies lines
    ensures remotes == Remotes(net, original, default.GetOr(UDP), |original|)
    ensures inside <==> forall k :: 0 <= k < |original| ==> !IsBareRemote(original[k])
  {
    hide Words, Strip, IsDirective, Word, IsBareRemote;
    remotes, inside := [], true;
    var i := 0;
    while i < lines.Length
      invariant i <= lines.Length
      invariant forall k :: 0 <= k < lines.Length ==> lines[k] == Strip(original[k])
      invariant Reversed(remotes) == Remotes(net, original, default.GetOr(UDP), i)
      invariant inside <==> forall k :: 0 <= k < i ==> !IsBareRemote(original[k])
    {
      StripIdempotent(original[i]);
      var entry, within := RemoteOf(net, original[i], lines, i, default);
      if entry.Some? {
        ReversedCons(entry.value, remotes);
        remotes := [entry.value] + remotes;
      }
      inside := inside && within;
      i := i + 1;
    }
    remotes := Reversed(remotes);
  }

  /** A stripped line that starts with a word and a blank has two words at least. */
  lemma DirectiveHasWords(line: string, directive: string)
    requires HasPrefix(Strip(line), directive) && directive != "" && directive[|directive| - 1] == ' '
    ensures |Words(line)| >= 2
  {
    var s := Strip(line);
    assert s[|directive| - 1] == ' ';
    hide Strip;
    FieldsSplit(s, SEPARATORS);
  }

  lemma FieldsSplit(s: string, separators: set<char>)
    requires exists k :: 0 <= k < |s| && s[k] in separators
    ensures |Fields(s, separators)| >= 2
  {
  }

  /** Strips one line in place and reads its `proto` directive. */
  method ProtoOf(ghost original: string, lines: array<string>, i: nat) returns (found: Option<string>)
    requires i < lines.Length && lines[i] == original
    modifies lines
    ensures lines[i] == Strip(original) && forall k :: 0 <= k < lines.Length && k != i ==> lines[k] == old(lines[k])
    ensures found == if IsProtoLine(original) then Some(Word(Words(original), 1)) else None
  {
    hide Strip, StrSplit;
    found := None;
    StripIdempotent(original);
    lines[i] := Strip(lines[i]);
    var line := lines[i];
    if HasPrefix(line, "proto ") {
      DirectiveHasWords(original, "proto ");
      var tokens := TokenVector(line);
      if tokens[1].Some? && tokens[1].value != "" {
        found := tokens[1];
      }
    }
  }

  /**
   * Strips one line in place once more and reads its `remote` directive, as far as its vector goes and one slot
   * behind.
   */
  method RemoteOf(net: Net, ghost original: string, lines: array<string>, i: nat, default: Option<string>)
    returns (found: Option<Remote>, inside: bool)
    requires i < lines.Length && lines[i] == Strip(original) == Strip(Strip(original))
    modifies lines
    ensures lines[i] == Strip(original) && forall k :: 0 <= k < lines.Length && k != i ==> lines[k] == old(lines[k])
    ensures found == if IsRemoteLine(original) then Some(RemoteAt(net, original, default.GetOr(UDP))) else None
    ensures inside <==> !IsBareRemote(original)
  {
    hide Strip, StrSplit;
    found, inside := None, true;
    lines[i] := Strip(lines[i]);
    var line := lines[i];
    if HasPrefix(line, "remote ") {
      DirectiveHasWords(original, "remote ");
      var tokens := TokenVector(line);
      if tokens[1].None? || tokens[1].value == "" {
        return;
      }
      var port := if tokens[2].Some? && tokens[2].value != "" then tokens[2].value else DEFAULT_PORT;
      inside := 3 < |tokens|;
      var slot := if 3 < |tokens| then tokens[3] else net.behind(line);
      var proto := if slot.Some? && slot.value != "" then slot.value else default.GetOr(UDP);
      found := Some(Remote(tokens[1].value, port, proto));
    }
  }

  lemma {:induction false} BehindDoesNotMatterUpTo(net: Net, net': Net, lines: seq<string>, d: string, n: nat)
    requires n <= |lines| && forall k :: 0 <= k < n ==> !IsBareRemote(lines[k])
    ensures Remotes(net, lines, d, n) == Remotes(net', lines, d, n)
  {
    hide Words, Word, IsDirective;
    if n > 0 {
      BehindDoesNotMatterUpTo(net, net', lines, d, n - 1);
    }
  }

  /** Where no slot behind a vector is read, the remotes depend on the profile alone. */
  lemma BehindDoesNotMatter(net: Net, net': Net, contents: string)
    requires forall k :: 0 <= k < |Lines(contents)| ==> !IsBareRemote(Lines(contents)[k])
    ensures ParsedRemotes(net, contents) == ParsedRemotes(net', contents)
  {
    hide IsBareRemote, Lines;
    var lines := Lines(contents);
    BehindDoesNotMatterUpTo(net, net', lines, DefaultProto(lines, |lines|), |lines|);
  }

  lemma BareRemoteWords(host: string)
    requires host != "" && forall i :: 0 <= i < |host| ==> !IsSpace(host[i])
    ensures var line := "remote" + [' '] + host; Strip(line) == line && Words(line) == ["remote", host]
  {
    var line := "remote" + [' '] + host;
    StripNothing(line);
    assert Free("remote", SEPARATORS) && Free(host, SEPARATORS);
    hide Strip, Fields, Free, IsSpace;
    FieldsCons("remote", ' ', host, SEPARATORS);
    FieldsSingle(host, SEPARATORS);
  }

  /** `remote host` is such a line, whatever the host: its protocol is what lies behind the vector. */
  lemma BareRemoteReadsBehind(net: Net, host: string)
    requires host != "" && forall i :: 0 <= i < |host| ==> !IsSpace(host[i])
    ensures var line := "remote" + [' '] + host;
            && IsBareRemote(line)
            && RemoteAt(net, line, UDP) == Remote(host, DEFAULT_PORT, OrDefault(net.behind(line).GetOr(""), UDP))
  {
    BareRemoteWords(host);
    hide Words, Strip, IsSpace;
    var line := "remote" + [' '] + host;
    assert line[..7] == "remote ";
  }

  lemma StripNothing(s: string)
    requires s != "" && !IsSpace(s[0]) && !IsSpace(s[|s| - 1])
    ensures Strip(s) == s
  {
  }

  // ----- Building the rules

  /** One line of the chain. */
  datatype Rule =
    | OutIface(name: string)
    | Established
    | Dest(v6: bool, addr: string, proto: string, port: string)
    | Lan4
    | Lan6

  /** The base protocol: "tcp6" and the like count as tcp, everything else as udp. */
  function BaseProto(proto: string): (base: string) { if HasPrefix(proto, TCP) then TCP else UDP }

  predicate IsNameserver(net: Net, line: string) {
    IsDirective(line, "nameserver ") && net.addrOf(Word(Words(line), 1)).Some?
  }

  function ResolverPair(addr: string): (rules: seq<Rule>) {
    [Dest(':' in addr, addr, UDP, "53"), Dest(':' in addr, addr, TCP, "53")]
  }

  /** Two rules for every resolver on the first `n` lines. */
  function ResolverRules(net: Net, lines: seq<string>, n: nat): (rules: seq<Rule>)
    requires n <= |lines|
  {
    if n == 0 then []
    else ResolverRules(net, lines, n - 1)
         + if IsNameserver(net, lines[n - 1]) then ResolverPair(Word(Words(lines[n - 1]), 1)) else []
  }

  /** The addresses of a host, which may itself be an address. */
  function Resolve(net: Net, host: string): (addrs: seq<Addr>) {
    match net.addrOf(host)
    case Some(addr) => [addr]
    case None => net.lookup(host)
  }

  function AddrRules(net: Net, remote: Remote, addrs: seq<Addr>, n: nat): (rules: seq<Rule>)
    requires n <= |addrs|
  {
    if n == 0 then []
    else AddrRules(net, remote, addrs, n - 1)
         + [Dest(addrs[n - 1].V6?, net.show(addrs[n - 1]), BaseProto(remote.proto), remote.port)]
  }

  /** The rules for one remote; a host in numbers is copied as it stands. */
  function RemoteRules(net: Net, remote: Remote): (rules: seq<Rule>) {
    match net.addrOf(remote.host)
    case Some(addr) => [Dest(addr.V6?, remote.host, BaseProto(remote.proto), remote.port)]
    case None => AddrRules(net, remote, net.lookup(remote.host), |net.lookup(remote.host)|)
  }

  /** The rules for the first `n` remotes, none at all when one of them does not resolve. */
  function AllRemoteRules(net: Net, remotes: seq<Remote>, n: nat): (rules: Option<seq<Rule>>)
    requires n <= |remotes|
  {
    if n == 0 then Some([])
    else
      match AllRemoteRules(net, remotes, n - 1)
      case None => None
      case Some(rules) =>
        if Resolve(net, remotes[n - 1].host) == [] then None else Some(rules + RemoteRules(net, remotes[n - 1]))
  }

  function FixedRules(): (rules: seq<Rule>) { [OutIface("lo"), OutIface("tun*"), Established] }

  function LanRules(allowLan: bool): (rules: seq<Rule>) { if allowLan then [Lan4, Lan6] else [] }

  function ResolvConfRules(net: Net, resolvConf: Option<string>): (rules: seq<Rule>) {
    if resolvConf.None? then [] else ResolverRules(net, Lines(resolvConf.value), |Lines(resolvConf.value)|)
  }

  /** The rules of the kill switch for a profile; None when the ruleset cannot be built. */
  function Rules(net: Net, profile: Option<string>, resolvConf: Option<string>, allowLan: bool)
    : (rules: Option<seq<Rule>>)
  {
    if profile.None? || ParsedRemotes(net, profile.value) == [] then None
    else
      var remotes := ParsedRemotes(net, profile.value);
      match AllRemoteRules(net, remotes, |remotes|)
      case None => None
      case Some(r) => Some(FixedRules() + ResolvConfRules(net, resolvConf) + r + LanRules(allowLan))
  }

  // ----- Rendering

  function Header(): (s: string) {
    "table inet nm-airvpn-killswitch {\n"
    + "\tchain output {\n"
    + "\t\ttype filter hook output priority 0; " + "policy drop;\n"
  }

  function Footer(): (s: string) { "\t}\n}\n" }

  function Family(v6: bool): (s: string) { if v6 then "ip6" else "ip" }

  function RenderRule(rule: Rule): (s: string) {
    match rule
    case OutIface(name) => "\t\toifname \"" + name + "\" accept\n"
    case Established => "\t\tct state " + "established,related" + " accept\n"
    case Dest(v6, addr, proto, port) =>
      "\t\t" + Family(v6) + " daddr " + addr + " " + proto + " dport " + port + " accept\n"
    case Lan4 => "\t\tip daddr { " + "10.0.0.0/8, " + "172.16.0.0/12, " + "192.168.0.0/16" + " } accept\n"
    case Lan6 => "\t\tip6 daddr { " + "fe80::/10, " + "fc00::/7" + " } accept\n"
  }

  function RenderRules(rules: seq<Rule>): (s: string) {
    if rules == [] then "" else RenderRules(rules[..|rules| - 1]) + RenderRule(rules[|rules| - 1])
  }

  function Render(rules: seq<Rule>): (s: string) { Header() + RenderRules(rules) + Footer() }

  lemma RenderOne(rules: seq<Rule>, rule: Rule)
    ensures RenderRules(rules + [rule]) == RenderRules(rules) + RenderRule(rule)
  {
    assert (rules + [rule])[..|rules|] == rules;
  }

  lemma RenderFixed()
    ensures RenderRules(FixedRules())
            == "\t\toifname \"lo\" accept\n" + "\t\toifname \"tun*\" accept\n" +
               ("\t\tct state " + "established,related" + " accept\n")
  {
    hide RenderRule;
    RenderOne([], OutIface("lo"));
    RenderOne([OutIface("lo")], OutIface("tun*"));
    RenderOne([OutIface("lo"), OutIface("tun*")], Established);
    assert [] + [OutIface("lo")] == [OutIface("lo")];
    assert [OutIface("lo")] + [OutIface("tun*")] == [OutIface("lo"), OutIface("tun*")];
    assert FixedRules() == [OutIface("lo"), OutIface("tun*")] + [Established];
    RenderFixedLines();
  }

  lemma RenderFixedLines()
    ensures RenderRule(OutIface("lo")) == "\t\toifname \"lo\" accept\n"
    ensures RenderRule(OutIface("tun*")) == "\t\toifname \"tun*\" accept\n"
    ensures RenderRule(Established) == ("\t\tct state " + "established,related" + " accept\n")
  {
  }

  /** g_string_append_printf of one rule. */
  method AppendRule(text: string, rule: Rule, ghost rules: seq<Rule>) returns (text': string)
    requires text == Header() + RenderRules(rules)
    ensures text' == Header() + RenderRules(rules + [rule])
  {
    hide RenderRules, RenderRule, Header;
    RenderOne(rules, rule);
    text' := text + RenderRule(rule);
  }

  method AppendResolverRules(net: Net, resolvConf: Option<string>, text: string, ghost rules: seq<Rule>)
    returns (text': string)
    requires text == Header() + RenderRules(rules)
    ensures text' == Header() + RenderRules(rules + ResolvConfRules(net, resolvConf))
  {
    hide RenderRules, RenderRule, Header, Strip, StrSplit, Words, IsDirective;
    text' := text;
    assert rules + [] == rules;
    if resolvConf.None? {
      return;
    }
    var lines := Lines(resolvConf.value);
    var i := 0;
    while i < |lines|
      invariant i <= |lines|
      invariant text' == Header() + RenderRules(rules + ResolverRules(net, lines, i))
    {
      ghost var before := rules + ResolverRules(net, lines, i);
      var found := NameserverOf(net, lines[i]);
      if found.Some? {
        var addr := found.value;
        var isV6 := ':' in addr;
        text' := AppendRule(text', Dest(isV6, addr, UDP, "53"), before);
        text' := AppendRule(text', Dest(isV6, addr, TCP, "53"), before + [Dest(isV6, addr, UDP, "53")]);
        assert before + [Dest(isV6, addr, UDP, "53")] + [Dest(isV6, addr, TCP, "53")] == before + ResolverPair(addr);
        assert before + ResolverPair(addr) == rules + (ResolverRules(net, lines, i) + ResolverPair(addr));
      } else {
        assert ResolverRules(net, lines, i) + [] == ResolverRules(net, lines, i);
      }
      i := i + 1;
    }
  }

  method NameserverOf(net: Net, text: string) returns (found: Option<string>)
    ensures found == if IsNameserver(net, text) then Some(Word(Words(text), 1)) else None
  {
    hide Strip, StrSplit;
    var line := Strip(text);
    if !HasPrefix(line, "nameserver ") {
      return None;
    }
    var tokens := StrSplit(line, SEPARATORS);
    if |tokens| < 2 || tokens[1] == "" || net.addrOf(tokens[1]).None? {
      return None;
    }
    return Some(tokens[1]);
  }

  method AppendRemoteRules(net: Net, remote: Remote, text: string, ghost rules: seq<Rule>)
    returns (ok: bool, text': string)
    requires text == Header() + RenderRules(rules)
    ensures ok == (Resolve(net, remote.host) != [])
    ensures ok ==> text' == Header() + RenderRules(rules + RemoteRules(net, remote))
  {
    hide RenderRules, RenderRule, Header;
    text' := text;
    var proto := BaseProto(remote.proto);
    var literal := net.addrOf(remote.host);
    if literal.Some? {
      text' := AppendRule(text', Dest(literal.value.V6?, remote.host, proto, remote.port), rules);
      return true, text';
    }
    var addrs := net.lookup(remote.host);
    if addrs == [] {
      return false, text';
    }
    var i := 0;
    assert rules + AddrRules(net, remote, addrs, 0) == rules;
    while i < |addrs|
      invariant i <= |addrs|
      invariant text' == Header() + RenderRules(rules + AddrRules(net, remote, addrs, i))
    {
      var rule := Dest(addrs[i].V6?, net.show(addrs[i]), proto, remote.port);
      text' := AppendRule(text', rule, rules + AddrRules(net, remote, addrs, i));
      assert rules + AddrRules(net, remote, addrs, i) + [rule] == rules + (AddrRules(net, remote, addrs, i) + [rule]);
      i := i + 1;
    }
    return true, text';
  }

  /** The ruleset text for a profile. */
  method BuildRuleset(net: Net, profile: Option<string>, resolvConf: Option<string>, allowLan: bool)
    returns (text: Option<string>)
    ensures var rules := Rules(net, profile, resolvConf, allowLan);
            text == if rules.Some? then Some(Render(rules.value)) else None
  {
    hide RenderRules, RenderRule, Header, Footer, FixedRules, ParsedRemotes, ResolvConfRules, Resolve, RemoteRules;
    var remotes, _ := ParseRemotes(net, profile);
    if remotes == [] {
      return None;
    }
    RenderFixed();
    var t := Header() + ("\t\toifname \"lo\" accept\n" + "\t\toifname \"tun*\" accept\n"
                       + ("\t\tct state " + "established,related" + " accept\n"));
    t := AppendResolverRules(net, resolvConf, t, FixedRules());
    ghost var base := FixedRules() + ResolvConfRules(net, resolvConf);
    assert base + [] == base;
    var i := 0;
    while i < |remotes|
      invariant i <= |remotes|
      invariant AllRemoteRules(net, remotes, i).Some?
      invariant t == Header() + RenderRules(base + AllRemoteRules(net, remotes, i).value)
    {
      ghost var r := AllRemoteRules(net, remotes, i).value;
      var ok, t' := AppendRemoteRules(net, remotes[i], t, base + r);
      if !ok {
        NoneStaysNone(net, remotes, i + 1);
        return None;
      }
      t := t';
      assert base + r + RemoteRules(net, remotes[i]) == base + (r + RemoteRules(net, remotes[i]));
      i := i + 1;
    }
    ghost var rules := base + AllRemoteRules(net, remotes, |remotes|).value;
    assert rules + [] == rules;
    if allowLan {
      t := AppendRule(t, Lan4, rules);
      t := AppendRule(t, Lan6, rules + [Lan4]);
      assert rules + [Lan4] + [Lan6] == rules + LanRules(true);
    }
    return Some(t + Footer());
  }

  lemma {:induction false} NoneStaysNone(net: Net, remotes: seq<Remote>, i: nat)
    requires i <= |remotes| && AllRemoteRules(net, remotes, i).None?
    ensures AllRemoteRules(net, remotes, |remotes|).None?
    decreases |remotes| - i
  {
    if i < |remotes| {
      NoneStaysNone(net, remotes, i + 1);
    }
  }
}
