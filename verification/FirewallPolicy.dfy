/** What the kill switch lets out of the machine. */
module FirewallPolicy {
  import opened Basics
  import opened Firewall
  import opened Glib
  import opened KillSwitch
  import opened Network
  import opened Nftables
  import opened Numerals
  import opened RulesetReads
  import opened RulesetText

  // ----- Rules by what they mean

  predicate Matches(net: Net, rule: Rule, p: Packet) {
    Meaning(net, rule).Some? && AllHold(net, Meaning(net, rule).value.matches, p)
  }

  ghost predicate AnyMatches(net: Net, rules: seq<Rule>, p: Packet) {
    exists rule :: rule in rules && Matches(net, rule, p)
  }

  /** The packet filter can read every address and every word for ports. */
  ghost predicate Readable(net: Net, rules: seq<Rule>) { forall i :: 0 <= i < |rules| ==> Meaning(net, rules[i]).Some? }

  lemma {:induction false} ReadableMeanings(net: Net, rules: seq<Rule>)
    ensures Meanings(net, rules).Some? <==> Readable(net, rules)
  {
    hide Meaning;
    if rules != [] {
      ReadableMeanings(net, rules[1..]);
    }
  }

  lemma MeaningAccepts(net: Net, rule: Rule)
    requires Meaning(net, rule).Some?
    ensures Meaning(net, rule).value.verdict == Accept
  {
  }

  /** With rules that only accept, and a policy to drop, the first match is as good as any. */
  lemma {:induction false} DecideMeanings(net: Net, rules: seq<Rule>, p: Packet)
    requires Meanings(net, rules).Some?
    ensures Decide(net, Meanings(net, rules).value, Drop, p) == (if AnyMatches(net, rules, p) then Accept else Drop)
  {
    hide Meaning, AllHold;
    if rules != [] {
      MeaningAccepts(net, rules[0]);
      DecideMeanings(net, rules[1..], p);
      assert rules == [rules[0]] + rules[1..];
      var m := Meanings(net, rules).value;
      assert m[1..] == Meanings(net, rules[1..]).value && m[0] == Meaning(net, rules[0]).value;
      assert Matches(net, rules[0], p) <==> AllHold(net, m[0].matches, p);
      if AnyMatches(net, rules[1..], p) {
        var rule :| rule in rules[1..] && Matches(net, rule, p);
        assert rule in rules;
      }
    }
  }

  // ----- What is meant to be let out

  /** The private blocks, by their first and last addresses (section 3 of RFC 1918) or their first group. */
  predicate IsLan(a: Addr) {
    match a
    case V4(v) =>
      || Quad(10, 0, 0, 0) <= v <= Quad(10, 255, 255, 255)
      || Quad(172, 16, 0, 0) <= v <= Quad(172, 31, 255, 255)
      || Quad(192, 168, 0, 0) <= v <= Quad(192, 168, 255, 255)
    case V6(v) => 0xfe80 * GROUP <= v < 0xfec0 * GROUP || 0xfc00 * GROUP <= v < 0xfe00 * GROUP
  }

  ghost predicate IsLastProto(lines: seq<string>, i: nat) {
    i < |lines| && IsProtoLine(lines[i]) && forall k :: i < k < |lines| ==> !IsProtoLine(lines[k])
  }

  /** `d` is what the last `proto` line says, wherever it stands, or udp when there is none. */
  ghost predicate IsDefault(lines: seq<string>, d: string) {
    || (exists i: nat :: IsLastProto(lines, i) && d == Word(Words(lines[i]), 1))
    || (d == UDP && forall k :: 0 <= k < |lines| ==> !IsProtoLine(lines[k]))
  }

  ghost predicate ListsRemote(net: Net, lines: seq<string>, d: string, remote: Remote) {
    exists i :: 0 <= i < |lines| && IsRemoteLine(lines[i]) && remote == RemoteAt(net, lines[i], d)
  }

  ghost predicate ListsResolver(net: Net, lines: seq<string>, addr: Addr) {
    exists i :: 0 <= i < |lines| && IsDirective(lines[i], "nameserver ") &&
      net.addrOf(Word(Words(lines[i]), 1)) == Some(addr)
  }

  /** "tcp6-client" and the like mean tcp to the packet filter, and everything else means udp. */
  predicate Reaches(net: Net, remote: Remote, p: Packet) {
    && p.dst in Resolve(net, remote.host) && net.isPort(remote.port, p.dport)
    && p.proto == if HasPrefix(remote.proto, "tcp") then "tcp" else "udp"
  }

  /** What the kill switch is meant to let out, given the lines of the profile and of resolv.conf. */
  ghost predicate Permitted(
    net: Net, lines: seq<string>, d: string, resolvConf: seq<string>, allowLan: bool, p: Packet)
  {
    || p.oif == "lo" || HasPrefix(p.oif, "tun") || p.ct in {"established", "related"}
    || (ListsResolver(net, resolvConf, p.dst) && p.dport == 53 && p.proto in {UDP, TCP})
    || (exists remote :: ListsRemote(net, lines, d, remote) && Reaches(net, remote, p))
    || (allowLan && IsLan(p.dst))
  }

  lemma {:induction false} DefaultOfLast(lines: seq<string>, n: nat, i: nat)
    requires i < n <= |lines| && IsProtoLine(lines[i]) && forall k :: i < k < n ==> !IsProtoLine(lines[k])
    ensures DefaultProto(lines, n) == Word(Words(lines[i]), 1)
  {
    hide IsProtoLine, Words, Word;
    if i < n - 1 {
      DefaultOfLast(lines, n - 1, i);
    }
  }

  lemma {:induction false} DefaultOfNone(lines: seq<string>, n: nat)
    requires n <= |lines| && forall k :: 0 <= k < n ==> !IsProtoLine(lines[k])
    ensures DefaultProto(lines, n) == UDP
  {
    hide IsProtoLine;
    if n > 0 {
      DefaultOfNone(lines, n - 1);
    }
  }

  lemma {:induction false} FindLastProto(lines: seq<string>, i: nat) returns (last: nat)
    requires i < |lines| && IsProtoLine(lines[i])
    ensures IsLastProto(lines, last)
    decreases |lines| - i
  {
    hide IsProtoLine;
    if k :| i < k < |lines| && IsProtoLine(lines[k]) {
      last := FindLastProto(lines, k);
    } else {
      last := i;
    }
  }

  /** The default is the one that the first pass computes, and no other. */
  lemma DefaultIs(lines: seq<string>, d: string)
    ensures IsDefault(lines, d) <==> d == DefaultProto(lines, |lines|)
  {
    hide IsProtoLine, Words, Word, DefaultProto;
    forall i: nat | IsLastProto(lines, i) ensures DefaultProto(lines, |lines|) == Word(Words(lines[i]), 1) {
      DefaultOfLast(lines, |lines|, i);
    }
    if i :| 0 <= i < |lines| && IsProtoLine(lines[i]) {
      var last := FindLastProto(lines, i);
    } else {
      DefaultOfNone(lines, |lines|);
    }
  }

  lemma {:induction false} RemotesAreListed(net: Net, lines: seq<string>, d: string, n: nat, remote: Remote)
    requires n <= |lines|
    ensures remote in Remotes(net, lines, d, n) <==>
            exists i :: 0 <= i < n && IsRemoteLine(lines[i]) && remote == RemoteAt(net, lines[i], d)
  {
    hide IsRemoteLine, RemoteAt;
    if n > 0 {
      RemotesAreListed(net, lines, d, n - 1, remote);
    }
  }

  lemma MatchesConcat(net: Net, a: seq<Rule>, b: seq<Rule>, p: Packet)
    ensures AnyMatches(net, a + b, p) <==> AnyMatches(net, a, p) || AnyMatches(net, b, p)
  {
    hide Matches;
    if AnyMatches(net, a, p) {
      var rule :| rule in a && Matches(net, rule, p);
      assert rule in a + b;
    }
    if AnyMatches(net, b, p) {
      var rule :| rule in b && Matches(net, rule, p);
      assert rule in a + b;
    }
  }

  lemma MatchesOne(net: Net, rule: Rule, p: Packet)
    ensures AnyMatches(net, [rule], p) <==> Matches(net, rule, p)
  {
    assert rule in [rule];
  }

  lemma MatchesTwo(net: Net, r: Rule, s: Rule, p: Packet)
    ensures AnyMatches(net, [r, s], p) <==> Matches(net, r, p) || Matches(net, s, p)
  {
    hide Matches, AnyMatches;
    MatchesOne(net, r, p);
    MatchesOne(net, s, p);
    MatchesConcat(net, [r], [s], p);
    assert [r] + [s] == [r, s];
  }

  lemma FixedMatch(net: Net, p: Packet)
    ensures AnyMatches(net, FixedRules(), p) <==>
            p.oif == "lo" || HasPrefix(p.oif, "tun") || p.ct in {"established", "related"}
  {
    hide AnyMatches;
    MatchesTwo(net, OutIface("lo"), OutIface("tun*"), p);
    MatchesOne(net, Established, p);
    MatchesConcat(net, [OutIface("lo"), OutIface("tun*")], [Established], p);
    assert FixedRules() == [OutIface("lo"), OutIface("tun*")] + [Established];
    assert "tun*"[..3] == "tun" && "lo"[1] == 'o';
    OneMatch(net, OifName("lo"), p);
    OneMatch(net, OifName("tun*"), p);
    OneMatch(net, CtState({"established", "related"}), p);
    hide AllHold;
  }

  lemma {:induction false} Pow2Sum(a: nat, b: nat)
    ensures Pow2(a + b) == Pow2(a) * Pow2(b)
  {
    if a > 0 {
      Pow2Sum(a - 1, b);
    }
  }

  lemma SmallPowers()
    ensures Pow2(6) == 0x40 && Pow2(9) == 0x200 && Pow2(16) == 0x1_0000 && Pow2(20) == 0x10_0000 &&
            Pow2(24) == 0x100_0000
  {
    assert Pow2(2) == 4 && Pow2(4) == 16 && Pow2(6) == 64 && Pow2(8) == 256 && Pow2(9) == 512;
    Pow2Sum(8, 8);
    Pow2Sum(16, 4);
    Pow2Sum(16, 8);
  }

  lemma GroupPower()
    ensures Pow2(112) == GROUP && Pow2(118) == 0x40 * GROUP && Pow2(121) == 0x200 * GROUP
  {
    SmallPowers();
    hide Pow2;
    Pow2Sum(16, 16);
    Pow2Sum(32, 32);
    Pow2Sum(64, 32);
    Pow2Sum(96, 16);
    Pow2Sum(6, 112);
    Pow2Sum(9, 112);
  }

  lemma FirstBlock(a: Addr)
    ensures InBlock(a, Lan4Blocks()[0]) <==> a.V4? && Quad(10, 0, 0, 0) <= a.value <= Quad(10, 255, 255, 255)
  {
    SmallPowers();
    hide Pow2;
  }

  lemma SecondBlock(a: Addr)
    ensures InBlock(a, Lan4Blocks()[1]) <==> a.V4? && Quad(172, 16, 0, 0) <= a.value <= Quad(172, 31, 255, 255)
  {
    SmallPowers();
    hide Pow2;
  }

  lemma ThirdBlock(a: Addr)
    ensures InBlock(a, Lan4Blocks()[2]) <==> a.V4? && Quad(192, 168, 0, 0) <= a.value <= Quad(192, 168, 255, 255)
  {
    SmallPowers();
    hide Pow2;
  }

  lemma Lan4Match(net: Net, p: Packet)
    ensures Matches(net, Lan4, p) <==> p.dst.V4? && IsLan(p.dst)
  {
    FirstBlock(p.dst);
    SecondBlock(p.dst);
    ThirdBlock(p.dst);
    LanBlockCounts();
    hide InBlock, Lan4Blocks, AllHold, Quad;
    var b := Lan4Blocks();
    OneMatch(net, DestAddr(false, b), p);
    assert (exists i :: 0 <= i < |b| && InBlock(p.dst, b[i])) <==>
           InBlock(p.dst, b[0]) || InBlock(p.dst, b[1]) || InBlock(p.dst, b[2]);
  }

  lemma LinkLocalBlock(a: Addr)
    ensures InBlock(a, Lan6Blocks()[0]) <==> a.V6? && 0xfe80 * GROUP <= a.value < 0xfec0 * GROUP
  {
    GroupPower();
    hide Pow2;
  }

  lemma UniqueLocalBlock(a: Addr)
    ensures InBlock(a, Lan6Blocks()[1]) <==> a.V6? && 0xfc00 * GROUP <= a.value < 0xfe00 * GROUP
  {
    GroupPower();
    hide Pow2;
  }

  lemma Lan6Match(net: Net, p: Packet)
    ensures Matches(net, Lan6, p) <==> p.dst.V6? && IsLan(p.dst)
  {
    LinkLocalBlock(p.dst);
    UniqueLocalBlock(p.dst);
    LanBlockCounts();
    hide InBlock, Lan6Blocks, AllHold;
    var b := Lan6Blocks();
    OneMatch(net, DestAddr(true, b), p);
    assert (exists i :: 0 <= i < |b| && InBlock(p.dst, b[i])) <==> InBlock(p.dst, b[0]) || InBlock(p.dst, b[1]);
  }

  lemma OneMatch(net: Net, m: Match, p: Packet)
    ensures AllHold(net, [m], p) <==> Holds(net, m, p)
  {
    hide Holds;
    assert [m][0] == m;
  }

  lemma TwoMatches(net: Net, m: Match, m': Match, p: Packet)
    ensures AllHold(net, [m, m'], p) <==> Holds(net, m, p) && Holds(net, m', p)
  {
    hide Holds;
    assert [m, m'][0] == m && [m, m'][1] == m';
  }

  lemma LanMatch(net: Net, allowLan: bool, p: Packet)
    ensures AnyMatches(net, LanRules(allowLan), p) <==> allowLan && IsLan(p.dst)
  {
    hide AnyMatches, IsLan, Matches;
    if allowLan {
      MatchesTwo(net, Lan4, Lan6, p);
      Lan4Match(net, p);
      Lan6Match(net, p);
    } else {
      NothingMatches(net, p);
    }
  }

  /** A block of one address. */
  lemma ExactBlock(a: Addr, b: Addr)
    ensures InBlock(a, Block(b, Width(b.V6?))) <==> a == b
  {
    assert Pow2(0) == 1;
  }

  lemma DestMatches(net: Net, v6: bool, addr: string, proto: string, port: string, p: Packet)
    requires Meaning(net, Dest(v6, addr, proto, port)).Some?
    ensures Matches(net, Dest(v6, addr, proto, port), p)
            <==> net.filterAddr(addr) == Some(p.dst) && p.proto == proto && net.isPort(port, p.dport)
  {
    var a := net.filterAddr(addr).value;
    var blocks := [Block(a, Width(v6))];
    ExactBlock(p.dst, a);
    TwoMatches(net, DestAddr(v6, blocks), DestPort(proto, port), p);
    assert (exists i :: 0 <= i < |blocks| && InBlock(p.dst, blocks[i])) <==> InBlock(p.dst, blocks[0]);
    hide AllHold, InBlock;
  }

  lemma ReadableConcat(net: Net, a: seq<Rule>, b: seq<Rule>)
    ensures Readable(net, a + b) <==> Readable(net, a) && Readable(net, b)
  {
    hide Meaning;
    if Readable(net, a + b) {
      forall i | 0 <= i < |a| ensures Meaning(net, a[i]).Some? {
        assert (a + b)[i] == a[i];
      }
      forall i | 0 <= i < |b| ensures Meaning(net, b[i]).Some? {
        assert (a + b)[|a| + i] == b[i];
      }
    }
  }

  lemma {:induction false} ResolversMatch(net: Net, lines: seq<string>, n: nat, p: Packet)
    requires NetOk(net) && n <= |lines| && Readable(net, ResolverRules(net, lines, n))
    ensures AnyMatches(net, ResolverRules(net, lines, n), p)
            <==> ListsResolver(net, lines[..n], p.dst) && p.dport == 53 && p.proto in {UDP, TCP}
  {
    hide AnyMatches, Words, Word, IsDirective, Matches, Readable, NetOk, ResolverPair;
    if n == 0 {
      NothingMatches(net, p);
    } else {
      var line, addr := lines[n - 1], Word(Words(lines[n - 1]), 1);
      var last := if IsNameserver(net, line) then ResolverPair(addr) else [];
      ReadableConcat(net, ResolverRules(net, lines, n - 1), last);
      ResolversMatch(net, lines, n - 1, p);
      assert forall k :: 0 <= k < n - 1 ==> lines[..n][k] == lines[..n - 1][k];
      assert lines[..n][n - 1] == line;
      assert ListsResolver(net, lines[..n], p.dst)
        <==> ListsResolver(net, lines[..n - 1], p.dst) ||
             (IsDirective(line, "nameserver ") && net.addrOf(addr) == Some(p.dst));
      MatchesConcat(net, ResolverRules(net, lines, n - 1), last, p);
      if IsNameserver(net, line) {
        ResolverPairMatches(net, addr, p);
      } else {
        NothingMatches(net, p);
      }
    }
  }

  lemma NothingMatches(net: Net, p: Packet)
    ensures !AnyMatches(net, [], p)
  {
  }

  lemma PortFiftyThree(net: Net, port: nat)
    requires ReadsNumerals(net)
    ensures net.isPort("53", port) <==> port == 53
  {
    assert Decimal(5) == "5" && Decimal(53) == "53";
    assert net.isPort(Decimal(53), port) <==> port == 53;
  }

  lemma ResolverPairMatches(net: Net, addr: string, p: Packet)
    requires NetOk(net) && net.addrOf(addr).Some? && Readable(net, ResolverPair(addr))
    ensures AnyMatches(net, ResolverPair(addr), p) <==>
            net.addrOf(addr) == Some(p.dst) && p.dport == 53 && p.proto in {UDP, TCP}
  {
    var v6 := ':' in addr;
    PortFiftyThree(net, p.dport);
    assert net.filterAddr(addr) in {None, net.addrOf(addr)};
    assert ResolverPair(addr)[0] == Dest(v6, addr, UDP, "53") && ResolverPair(addr)[1] == Dest(v6, addr, TCP, "53");
    assert net.filterAddr(addr).Some?;
    hide AnyMatches, Matches, NetOk, Readable;
    DestMatches(net, v6, addr, UDP, "53", p);
    DestMatches(net, v6, addr, TCP, "53", p);
    MatchesTwo(net, Dest(v6, addr, UDP, "53"), Dest(v6, addr, TCP, "53"), p);
  }

  lemma AddrRuleMatches(net: Net, remote: Remote, addr: Addr, p: Packet)
    requires NetOk(net) && addr.Valid() && !RefusesPort(net, remote.port)
    ensures Matches(net, Dest(addr.V6?, net.show(addr), BaseProto(remote.proto), remote.port), p)
            <==> p.dst == addr && p.proto == BaseProto(remote.proto) && net.isPort(remote.port, p.dport)
  {
    assert net.filterAddr(net.show(addr)) == Some(addr);
    hide Matches, NetOk, BaseProto;
    DestMatches(net, addr.V6?, net.show(addr), BaseProto(remote.proto), remote.port, p);
  }

  lemma ReadablePort(net: Net, rule: Rule)
    requires Readable(net, [rule]) && rule.Dest?
    ensures !RefusesPort(net, rule.port)
  {
    assert Meaning(net, [rule][0]).Some?;
  }

  lemma {:induction false} AddrRulesMatch(net: Net, remote: Remote, addrs: seq<Addr>, n: nat, p: Packet)
    requires NetOk(net) && n <= |addrs| && forall a :: a in addrs ==> a.Valid()
    requires Readable(net, AddrRules(net, remote, addrs, n))
    ensures AnyMatches(net, AddrRules(net, remote, addrs, n), p)
            <==> p.dst in addrs[..n] && p.proto == BaseProto(remote.proto) && net.isPort(remote.port, p.dport)
  {
    hide AnyMatches, Matches, NetOk, BaseProto, Readable, RefusesPort;
    if n == 0 {
      NothingMatches(net, p);
    } else {
      var addr := addrs[n - 1];
      var rule := Dest(addr.V6?, net.show(addr), BaseProto(remote.proto), remote.port);
      ReadableConcat(net, AddrRules(net, remote, addrs, n - 1), [rule]);
      ReadablePort(net, rule);
      AddrRulesMatch(net, remote, addrs, n - 1, p);
      MatchesConcat(net, AddrRules(net, remote, addrs, n - 1), [rule], p);
      MatchesOne(net, rule, p);
      AddrRuleMatches(net, remote, addr, p);
      assert addrs[..n] == addrs[..n - 1] + [addr];
    }
  }

  lemma RemoteMatches(net: Net, remote: Remote, p: Packet)
    requires NetOk(net) && Readable(net, RemoteRules(net, remote))
    ensures AnyMatches(net, RemoteRules(net, remote), p) <==> Reaches(net, remote, p)
  {
    match net.addrOf(remote.host)
    case Some(addr) =>
      var rule := Dest(addr.V6?, remote.host, BaseProto(remote.proto), remote.port);
      assert RemoteRules(net, remote)[0] == rule;
      assert net.filterAddr(remote.host) == Some(addr);
      hide AnyMatches, Matches, BaseProto, Readable, NetOk;
      MatchesOne(net, rule, p);
      DestMatches(net, addr.V6?, remote.host, BaseProto(remote.proto), remote.port, p);
    case None =>
      var addrs := net.lookup(remote.host);
      hide AnyMatches, Matches, BaseProto, Readable;
      AddrRulesMatch(net, remote, addrs, |addrs|, p);
      assert addrs[..|addrs|] == addrs;
  }

  lemma {:induction false} RemotesMatch(net: Net, remotes: seq<Remote>, n: nat, p: Packet)
    requires NetOk(net) && n <= |remotes| && AllRemoteRules(net, remotes, n).Some?
    requires Readable(net, AllRemoteRules(net, remotes, n).value)
    ensures AnyMatches(net, AllRemoteRules(net, remotes, n).value, p) <==>
            exists i :: 0 <= i < n && Reaches(net, remotes[i], p)
  {
    hide AnyMatches, Reaches, RemoteRules, Resolve, Matches, Readable, NetOk;
    if n == 0 {
      NothingMatches(net, p);
    } else {
      ReadableConcat(net, AllRemoteRules(net, remotes, n - 1).value, RemoteRules(net, remotes[n - 1]));
      RemotesMatch(net, remotes, n - 1, p);
      RemoteMatches(net, remotes[n - 1], p);
      MatchesConcat(net, AllRemoteRules(net, remotes, n - 1).value, RemoteRules(net, remotes[n - 1]), p);
    }
  }

  lemma ParsedRemotesAreListed(net: Net, contents: string, d: string, remote: Remote)
    requires IsDefault(Lines(contents), d)
    ensures remote in ParsedRemotes(net, contents) <==> ListsRemote(net, Lines(contents), d, remote)
  {
    hide Remotes, DefaultProto, IsRemoteLine, RemoteAt, StrSplit, IsDefault;
    var lines := Lines(contents);
    DefaultIs(lines, d);
    RemotesAreListed(net, lines, d, |lines|, remote);
  }

  function OptLines(contents: Option<string>): (lines: seq<string>) {
    if contents.Some? then Lines(contents.value) else []
  }

  lemma ResolvConfIs(net: Net, resolvConf: Option<string>)
    ensures ResolvConfRules(net, resolvConf) == ResolverRules(net, OptLines(resolvConf), |OptLines(resolvConf)|)
  {
  }

  lemma {:induction false} AllResolve(net: Net, remotes: seq<Remote>, n: nat)
    requires n <= |remotes|
    ensures AllRemoteRules(net, remotes, n).Some? <==> forall i :: 0 <= i < n ==> Resolve(net, remotes[i].host) != []
  {
    hide Resolve, RemoteRules;
    if n > 0 {
      AllResolve(net, remotes, n - 1);
    }
  }

  /**
   * There is no ruleset exactly when the profile is unreadable, lists no remote, or lists one that does not
   * resolve.
   */
  lemma RefusedExactly(net: Net, profile: Option<string>, resolvConf: Option<string>, allowLan: bool, d: string)
    requires IsDefault(OptLines(profile), d)
    ensures Rules(net, profile, resolvConf, allowLan).None? <==>
            || !(exists remote :: ListsRemote(net, OptLines(profile), d, remote))
            || (exists remote :: ListsRemote(net, OptLines(profile), d, remote) && Resolve(net, remote.host) == [])
  {
    hide Resolve, ParsedRemotes, Lines, AllRemoteRules, IsDefault, ListsRemote;
    if profile.None? {
      NoneListed(net, d);
    } else {
      var remotes := ParsedRemotes(net, profile.value);
      AllResolve(net, remotes, |remotes|);
      forall remote: Remote ensures remote in remotes <==> ListsRemote(net, Lines(profile.value), d, remote) {
        ParsedRemotesAreListed(net, profile.value, d, remote);
      }
      if remotes != [] {
        assert ListsRemote(net, Lines(profile.value), d, remotes[0]);
      }
      assert (exists i :: 0 <= i < |remotes| && Resolve(net, remotes[i].host) == [])
        <==> (exists remote :: remote in remotes && Resolve(net, remote.host) == []);
    }
  }

  lemma NoneListed(net: Net, d: string)
    ensures forall remote: Remote :: !ListsRemote(net, [], d, remote)
  {
  }

  // ----- The rules that are built are sound

  lemma StripFree(s: string, c: set<char>)
    requires Free(s, c)
    ensures Free(Strip(s), c)
  {
    ChugStarts(s);
    ChompEnds(Chug(s));
  }

  lemma {:induction false} FieldsKeepFree(s: string, separators: set<char>, c: set<char>)
    requires Free(s, c)
    ensures forall i :: 0 <= i < |Fields(s, separators)| ==> Free(Fields(s, separators)[i], c)
    decreases |s|
  {
    var i := FirstOf(s, separators);
    if i < |s| {
      FieldsKeepFree(s[i + 1..], separators, c);
    }
  }

  /** The words of a line have no blanks. */
  lemma WordPlain(line: string, i: nat)
    requires Free(line, NEWLINE)
    ensures Free(Word(Words(line), i), BLANKS)
  {
    var s := Strip(line);
    StripFree(line, NEWLINE);
    FieldsKeepFree(s, SEPARATORS, NEWLINE);
    FieldsFree(s, SEPARATORS);
    hide Strip, Fields;
  }

  const BLANKS: set<char> := {' ', '\t', '\n'}

  /** What ends a word for the packet filter, and may yet stand in a word of a profile. */
  const MARKUP: set<char> := {';', '#', '{', '}', ',', '"'}

  lemma PlainWord(s: string)
    requires Free(s, BLANKS)
    ensures Free(s, PUNCTUATION) <==> Free(s, MARKUP)
  {
  }

  lemma {:induction false} ResolversSound(net: Net, lines: seq<string>, n: nat)
    requires NetOk(net) && n <= |lines|
    ensures AreSound(ResolverRules(net, lines, n)) && HavePlainPorts(ResolverRules(net, lines, n))
  {
    hide Words, Word, IsDirective, ReadsNumerals;
    if n > 0 {
      ResolversSound(net, lines, n - 1);
      assert Free("53", PUNCTUATION);
    }
  }

  lemma {:induction false} AddrRulesSound(net: Net, remote: Remote, addrs: seq<Addr>, n: nat)
    requires NetOk(net) && remote.port != "" && n <= |addrs| && forall a :: a in addrs ==> a.Valid()
    ensures AreSound(AddrRules(net, remote, addrs, n))
    ensures forall i :: 0 <= i < |AddrRules(net, remote, addrs, n)| ==>
              AddrRules(net, remote, addrs, n)[i].Dest? && AddrRules(net, remote, addrs, n)[i].port == remote.port
  {
    if n > 0 {
      AddrRulesSound(net, remote, addrs, n - 1);
      assert net.addrOf(net.show(addrs[n - 1])) == Some(addrs[n - 1]);
    }
    hide ReadsNumerals;
  }

  lemma RemoteSound(net: Net, remote: Remote)
    requires NetOk(net) && remote.port != ""
    ensures AreSound(RemoteRules(net, remote))
    ensures forall i :: 0 <= i < |RemoteRules(net, remote)| ==>
              RemoteRules(net, remote)[i].Dest? && RemoteRules(net, remote)[i].port == remote.port
  {
    if net.addrOf(remote.host).None? {
      AddrRulesSound(net, remote, net.lookup(remote.host), |net.lookup(remote.host)|);
    }
    hide ReadsNumerals;
  }

  lemma {:induction false} RemotesSound(net: Net, remotes: seq<Remote>, n: nat)
    requires NetOk(net) && n <= |remotes| && forall i :: 0 <= i < |remotes| ==> remotes[i].port != ""
    requires AllRemoteRules(net, remotes, n).Some?
    ensures AreSound(AllRemoteRules(net, remotes, n).value)
    ensures HavePlainPorts(AllRemoteRules(net, remotes, n).value)
            <==> forall i :: 0 <= i < n ==> Free(remotes[i].port, PUNCTUATION)
  {
    hide IsSound, NetOk, RemoteRules, Free;
    if n > 0 {
      RemotesSound(net, remotes, n - 1);
      RemoteSound(net, remotes[n - 1]);
      RemoteRulesExist(net, remotes[n - 1]);
      PlainConcat(AllRemoteRules(net, remotes, n - 1).value, RemoteRules(net, remotes[n - 1]));
      assert HavePlainPorts(RemoteRules(net, remotes[n - 1])) <==> Free(remotes[n - 1].port, PUNCTUATION) by {
        assert RemoteRules(net, remotes[n - 1])[0].Dest?;
      }
    }
  }

  lemma RemoteRulesExist(net: Net, remote: Remote)
    requires Resolve(net, remote.host) != []
    ensures RemoteRules(net, remote) != []
  {
  }

  lemma PlainConcat(a: seq<Rule>, b: seq<Rule>)
    ensures AreSound(a + b) <==> AreSound(a) && AreSound(b)
    ensures HavePlainPorts(a + b) <==> HavePlainPorts(a) && HavePlainPorts(b)
  {
    hide IsSound, HasPlainPorts;
    forall i | 0 <= i < |a| ensures (a + b)[i] == a[i] {}
    forall i | 0 <= i < |b| ensures (a + b)[|a| + i] == b[i] {}
  }

  lemma {:induction false} PortsGiven(net: Net, lines: seq<string>, d: string, n: nat)
    requires n <= |lines|
    ensures forall i :: 0 <= i < |Remotes(net, lines, d, n)| ==> Remotes(net, lines, d, n)[i].port != ""
  {
    hide Words, Word, IsRemoteLine, ProtocolSlot;
    if n > 0 {
      PortsGiven(net, lines, d, n - 1);
    }
  }

  ghost predicate PlainLines(lines: seq<string>) { forall i :: 0 <= i < |lines| ==> Free(lines[i], NEWLINE) }

  lemma LinesArePlain(contents: string)
    ensures PlainLines(Lines(contents))
  {
    FieldsFree(contents, NEWLINE);
  }

  lemma {:induction false} PortsHaveNoBlanks(net: Net, lines: seq<string>, d: string, n: nat)
    requires n <= |lines| && PlainLines(lines)
    ensures forall i :: 0 <= i < |Remotes(net, lines, d, n)| ==> Free(Remotes(net, lines, d, n)[i].port, BLANKS)
  {
    assert Free(DEFAULT_PORT, BLANKS);
    hide Words, Word, IsRemoteLine, ProtocolSlot, Free;
    if n > 0 {
      PortsHaveNoBlanks(net, lines, d, n - 1);
      WordPlain(lines[n - 1], 2);
    }
  }

  /** No remote gives a word for its port that the packet filter would break up. */
  ghost predicate PlainPorts(net: Net, lines: seq<string>, d: string) {
    forall remote :: ListsRemote(net, lines, d, remote) ==> Free(remote.port, MARKUP)
  }

  lemma ParsedPorts(net: Net, profile: string, d: string)
    requires IsDefault(Lines(profile), d)
    ensures var remotes := ParsedRemotes(net, profile);
            && (forall i :: 0 <= i < |remotes| ==> remotes[i].port != "")
            && (PlainPorts(net, Lines(profile), d) <==>
                forall i :: 0 <= i < |remotes| ==> Free(remotes[i].port, PUNCTUATION))
  {
    var lines, remotes := Lines(profile), ParsedRemotes(net, profile);
    var default := DefaultProto(lines, |lines|);
    PortsGiven(net, lines, default, |lines|);
    LinesArePlain(profile);
    PortsHaveNoBlanks(net, lines, default, |lines|);
    hide Remotes, Lines, DefaultProto, IsDefault, ListsRemote, Free;
    forall i | 0 <= i < |remotes| ensures Free(remotes[i].port, PUNCTUATION) <==> Free(remotes[i].port, MARKUP) {
      PlainWord(remotes[i].port);
    }
    forall remote: Remote ensures remote in remotes <==> ListsRemote(net, lines, d, remote) {
      ParsedRemotesAreListed(net, profile, d, remote);
    }
  }

  lemma FixedSound(allowLan: bool)
    ensures AreSound(FixedRules()) && HavePlainPorts(FixedRules())
    ensures AreSound(LanRules(allowLan)) && HavePlainPorts(LanRules(allowLan))
  {
  }

  lemma BuiltRules(net: Net, profile: string, resolvConf: Option<string>, allowLan: bool, d: string)
    requires NetOk(net) && Rules(net, Some(profile), resolvConf, allowLan).Some? && IsDefault(Lines(profile), d)
    ensures var rules := Rules(net, Some(profile), resolvConf, allowLan).value;
            AreSound(rules) && (HavePlainPorts(rules) <==> PlainPorts(net, Lines(profile), d))
  {
    hide AreSound, HavePlainPorts, Lines, ParsedRemotes, ResolverRules, AllRemoteRules, NetOk, IsDefault, PlainPorts,
      Free, FixedRules, LanRules;
    var remotes := ParsedRemotes(net, profile);
    ParsedPorts(net, profile, d);
    RemotesSound(net, remotes, |remotes|);
    ResolvConfIs(net, resolvConf);
    ResolversSound(net, OptLines(resolvConf), |OptLines(resolvConf)|);
    FixedSound(allowLan);
    var a, b, c, e := FixedRules(), ResolvConfRules(net, resolvConf), AllRemoteRules(net, remotes, |remotes|).value,
                      LanRules(allowLan);
    PlainConcat(a, b);
    PlainConcat(a + b, c);
    PlainConcat(a + b + c, e);
  }

  // ----- Theorems

  lemma MeaningAcceptsExactly(net: Net, rules: seq<Rule>, p: Packet)
    requires MeaningOf(net, rules).Some?
    ensures Accepts(net, MeaningOf(net, rules).value, p) <==> AnyMatches(net, rules, p)
  {
    hide Meanings, AnyMatches, Decide;
    DecideMeanings(net, rules, p);
  }

  lemma RulesMatchExactly(net: Net, profile: string, resolvConf: Option<string>, allowLan: bool, d: string, p: Packet)
    requires NetOk(net) && Rules(net, Some(profile), resolvConf, allowLan).Some? && IsDefault(Lines(profile), d)
    requires Readable(net, Rules(net, Some(profile), resolvConf, allowLan).value)
    ensures AnyMatches(net, Rules(net, Some(profile), resolvConf, allowLan).value, p)
            <==> Permitted(net, Lines(profile), d, OptLines(resolvConf), allowLan, p)
  {
    hide AnyMatches, Reaches, FixedRules, LanRules, ParsedRemotes, Lines, IsLan, AllRemoteRules, IsDefault, ListsRemote,
      HasPrefix, NetOk, ResolverRules, Readable;
    var remotes := ParsedRemotes(net, profile);
    var r := AllRemoteRules(net, remotes, |remotes|).value;
    var resolvers := OptLines(resolvConf);
    ReadableConcat(net, FixedRules(), ResolvConfRules(net, resolvConf));
    ReadableConcat(net, FixedRules() + ResolvConfRules(net, resolvConf), r);
    ReadableConcat(net, FixedRules() + ResolvConfRules(net, resolvConf) + r, LanRules(allowLan));
    FixedMatch(net, p);
    LanMatch(net, allowLan, p);
    ResolvConfIs(net, resolvConf);
    ResolversMatch(net, resolvers, |resolvers|, p);
    assert resolvers[..|resolvers|] == resolvers;
    RemotesMatch(net, remotes, |remotes|, p);
    MatchesConcat(net, FixedRules(), ResolvConfRules(net, resolvConf), p);
    MatchesConcat(net, FixedRules() + ResolvConfRules(net, resolvConf), r, p);
    MatchesConcat(net, FixedRules() + ResolvConfRules(net, resolvConf) + r, LanRules(allowLan), p);
    forall remote: Remote ensures remote in remotes <==> ListsRemote(net, Lines(profile), d, remote) {
      ParsedRemotesAreListed(net, profile, d, remote);
    }
    assert (exists i :: 0 <= i < |remotes| && Reaches(net, remotes[i], p))
      <==> (exists remote :: remote in remotes && Reaches(net, remote, p));
  }

  /**
   * The text that is generated means what the rules are meant to do if and only if no remote gives a port
   * that the packet filter would break up. (An address or a port that it cannot read makes it refuse the text.)
   */
  lemma GeneratedAsMeant(net: Net, profile: string, resolvConf: Option<string>, allowLan: bool, d: string)
    requires NetOk(net) && Rules(net, Some(profile), resolvConf, allowLan).Some? && IsDefault(Lines(profile), d)
    requires Readable(net, Rules(net, Some(profile), resolvConf, allowLan).value)
    ensures Generated(net, Some(profile), resolvConf, allowLan) ==
            MeaningOf(net, Rules(net, Some(profile), resolvConf, allowLan).value)
            <==> PlainPorts(net, Lines(profile), d)
  {
    hide Rules, Readable, AreSound, HavePlainPorts, ReadRuleset, Render, IsDefault, Lines, PlainPorts, Meanings;
    var rules := Rules(net, Some(profile), resolvConf, allowLan).value;
    BuiltRules(net, profile, resolvConf, allowLan, d);
    ReadableMeanings(net, rules);
    ReadsBackExactly(net, rules);
  }

  /** With such ports the text is taken by the packet filter exactly when it can read every address and port. */
  lemma GeneratedExactly(net: Net, profile: string, resolvConf: Option<string>, allowLan: bool, d: string)
    requires NetOk(net) && IsDefault(Lines(profile), d) && PlainPorts(net, Lines(profile), d)
    ensures Generated(net, Some(profile), resolvConf, allowLan).Some?
            <==> && Rules(net, Some(profile), resolvConf, allowLan).Some?
                 && Readable(net, Rules(net, Some(profile), resolvConf, allowLan).value)
  {
    hide Rules, Readable, AreSound, HavePlainPorts, ReadRuleset, Render, IsDefault, Lines, PlainPorts, Meanings,
      ReadsNumerals;
    if Rules(net, Some(profile), resolvConf, allowLan).Some? {
      var rules := Rules(net, Some(profile), resolvConf, allowLan).value;
      BuiltRules(net, profile, resolvConf, allowLan, d);
      ReadableMeanings(net, rules);
      ReadInvertsRender(net, rules);
    }
  }

  /** What is loaded accepts a packet exactly when the kill switch is meant to let it out. */
  lemma AcceptedExactly(
    net: Net, profile: string, resolvConf: Option<string>, allowLan: bool, r: Ruleset, d: string, p: Packet)
    requires NetOk(net) && IsDefault(Lines(profile), d) && PlainPorts(net, Lines(profile), d)
    requires Generated(net, Some(profile), resolvConf, allowLan) == Some(r)
    ensures Accepts(net, r, p) <==> Permitted(net, Lines(profile), d, OptLines(resolvConf), allowLan, p)
  {
    GeneratedExactly(net, profile, resolvConf, allowLan, d);
    hide Rules, Readable, IsDefault, Lines, PlainPorts, Meanings, NetOk, Generated, Accepts, AnyMatches, Permitted;
    var rules := Rules(net, Some(profile), resolvConf, allowLan).value;
    GeneratedAsMeant(net, profile, resolvConf, allowLan, d);
    ReadableMeanings(net, rules);
    MeaningAcceptsExactly(net, rules, p);
    RulesMatchExactly(net, profile, resolvConf, allowLan, d, p);
  }

  /**
   * Openvpn gets through to a tcp remote by tcp. By udp it does not, unless something else lets the packet out: the
   * interface or the flow, a resolver, a remote that is not tcp, or the LAN.
   */
  lemma TcpRemotesExactly(
    net: Net, profile: string, resolvConf: Option<string>, allowLan: bool, r: Ruleset, d: string, remote: Remote,
    p: Packet)
    requires NetOk(net) && IsDefault(Lines(profile), d) && PlainPorts(net, Lines(profile), d)
    requires Generated(net, Some(profile), resolvConf, allowLan) == Some(r)
    requires ListsRemote(net, Lines(profile), d, remote) && HasPrefix(remote.proto, "tcp")
    requires p.dst in Resolve(net, remote.host) && net.isPort(remote.port, p.dport)
    ensures p.proto == "tcp" ==> Accepts(net, r, p)
    ensures p.proto == "udp" ==>
              (Accepts(net, r, p) <==>
               || p.oif == "lo" || HasPrefix(p.oif, "tun") || p.ct in {"established", "related"}
               || (ListsResolver(net, OptLines(resolvConf), p.dst) && p.dport == 53)
               || (allowLan && IsLan(p.dst))
               || exists other :: ListsRemote(net, Lines(profile), d, other) && !HasPrefix(other.proto, "tcp")
                                  && p.dst in Resolve(net, other.host) && net.isPort(other.port, p.dport))
  {
    AcceptedExactly(net, profile, resolvConf, allowLan, r, d, p);
    hide NetOk, IsDefault, Lines, PlainPorts, Generated, Accepts, ListsRemote, ListsResolver, Resolve, OptLines, IsLan,
      HasPrefix;
    assert p.proto == "tcp" ==> Reaches(net, remote, p);
    if p.proto == "udp" {
      forall other: Remote
        ensures Reaches(net, other, p) <==>
                !HasPrefix(other.proto, "tcp") && p.dst in Resolve(net, other.host) && net.isPort(other.port, p.dport)
      {
        UdpReach(net, other, p);
      }
      hide Reaches;
    }
  }

  lemma UdpReach(net: Net, other: Remote, p: Packet)
    requires p.proto == "udp"
    ensures Reaches(net, other, p) <==>
            !HasPrefix(other.proto, "tcp") && p.dst in Resolve(net, other.host) && net.isPort(other.port, p.dport)
  {
    assert "tcp"[0] != "udp"[0];
  }

  // ----- A port that is not plain

  /** A profile of one remote, whose word for the port holds a verdict. */
  function VerdictProfile(host: string, w: string): (profile: string) {
    "remote" + [' '] + (host + [' '] + WithVerdict(w))
  }

  lemma VerdictWords(host: string, w: string)
    requires IsWord(host) && IsWord(w)
    ensures var line := VerdictProfile(host, w);
            && Lines(line) == [line] && Strip(line) == line && Words(line) == ["remote", host, WithVerdict(w)]
  {
    var line := VerdictProfile(host, w);
    VerdictLine(host, w);
    StripNothing(line);
    FieldsSingle(line, NEWLINE);
    hide Strip, Fields, Free, IsWord;
    FieldsCons("remote", ' ', host + [' '] + WithVerdict(w), SEPARATORS);
    FieldsCons(host, ' ', WithVerdict(w), SEPARATORS);
    FieldsSingle(WithVerdict(w), SEPARATORS);
    assert ["remote"] + ([host] + [WithVerdict(w)]) == ["remote", host, WithVerdict(w)];
  }

  lemma VerdictLine(host: string, w: string)
    requires IsWord(host) && IsWord(w)
    ensures var line := VerdictProfile(host, w);
            line != "" && !IsSpace(line[0]) && !IsSpace(line[|line| - 1]) && Free(line, NEWLINE)
    ensures Free("remote", SEPARATORS) && Free(host, SEPARATORS) && Free(WithVerdict(w), SEPARATORS)
  {
  }

  lemma VerdictRemotes(net: Net, host: string, w: string)
    requires IsWord(host) && IsWord(w)
    ensures ParsedRemotes(net, VerdictProfile(host, w)) == [Remote(host, WithVerdict(w), UDP)]
  {
    var line := VerdictProfile(host, w);
    VerdictWords(host, w);
    assert HasPrefix(line, "remote ") && !HasPrefix(line, "proto ") by {
      assert line[..7] == "remote ";
    }
    assert host != "" && WithVerdict(w) != "";
    hide Strip, Words, Lines, VerdictProfile, WithVerdict, HasPrefix;
    assert DefaultProto([line], 0) == UDP && DefaultProto([line], 1) == UDP;
    assert Remotes(net, [line], UDP, 0) == [];
    assert RemoteAt(net, line, UDP) == Remote(host, WithVerdict(w), UDP);
  }

  lemma VerdictRules(net: Net, host: string, w: string, resolvConf: Option<string>, allowLan: bool)
    requires NetOk(net) && net.addrOf(host).Some? && IsWord(w)
    ensures IsWord(host)
    ensures Rules(net, Some(VerdictProfile(host, w)), resolvConf, allowLan)
            == Some(FixedRules() + ResolvConfRules(net, resolvConf)
                    + [Dest(net.addrOf(host).value.V6?, host, UDP, WithVerdict(w))] + LanRules(allowLan))
  {
    assert IsWord(host);
    hide NetOk, VerdictProfile, WithVerdict, FixedRules, LanRules, ResolvConfRules, IsWord;
    VerdictRemotes(net, host, w);
    var remote := Remote(host, WithVerdict(w), UDP);
    assert AllRemoteRules(net, [remote], 0) == Some([]);
    assert BaseProto(UDP) == UDP by {
      assert UDP[..3][0] == 'u';
    }
    assert RemoteRules(net, remote) == [Dest(net.addrOf(host).value.V6?, host, UDP, WithVerdict(w))];
    assert [] + RemoteRules(net, remote) == RemoteRules(net, remote);
  }

  /** Where a rule without matches accepts, everything gets out. */
  lemma {:induction false} BareAcceptDecides(net: Net, before: seq<FilterRule>, rules: seq<FilterRule>, p: Packet)
    requires forall i :: 0 <= i < |before| ==> before[i].verdict == Accept
    requires Decide(net, rules, Drop, p) == Accept
    ensures Decide(net, before + rules, Drop, p) == Accept
  {
    hide AllHold;
    if before == [] {
      assert before + rules == rules;
    } else {
      BareAcceptDecides(net, before[1..], rules, p);
      assert (before + rules)[1..] == before[1..] + rules;
    }
  }

  lemma {:induction false} MeaningsAccept(net: Net, rules: seq<Rule>)
    requires Meanings(net, rules).Some?
    ensures forall i :: 0 <= i < |Meanings(net, rules).value| ==> Meanings(net, rules).value[i].verdict == Accept
  {
    hide Meaning;
    if rules != [] {
      MeaningAccepts(net, rules[0]);
      MeaningsAccept(net, rules[1..]);
    }
  }

  lemma UndecidedThenAccept(
    net: Net, v6: bool, addr: string, proto: string, w: string, rest: seq<FilterRule>, p: Packet)
    requires net.filterAddr(addr).Some?
    ensures Decide(net, WithBareAccept(net, v6, addr, proto, w) + rest, Drop, p) == Accept
  {
    hide Holds, Undecided;
    var rules := WithBareAccept(net, v6, addr, proto, w) + rest;
    assert Undecided(net, v6, addr, proto, w).verdict == Continue by { UndecidedContinues(net, v6, addr, proto, w); }
    assert rules[0] == Undecided(net, v6, addr, proto, w) && rules[1..][0] == FilterRule([], Accept);
    assert AllHold(net, [], p);
  }

  lemma UndecidedContinues(net: Net, v6: bool, addr: string, proto: string, w: string)
    requires net.filterAddr(addr).Some?
    ensures Undecided(net, v6, addr, proto, w).verdict == Continue
  {
  }

  lemma FixedReadable(net: Net, allowLan: bool)
    ensures Readable(net, FixedRules()) && Readable(net, LanRules(allowLan))
  {
  }

  /**
   * The one line `remote host port;accept#`, for any host in numbers and any readable port, makes a kill switch
   * that lets everything out.
   */
  lemma VerdictInProfile(net: Net, host: string, w: string, resolvConf: Option<string>, allowLan: bool, p: Packet)
    requires NetOk(net) && net.addrOf(host).Some? && net.filterAddr(host).Some? && IsWord(w) && net.readsPort(w)
    requires Readable(net, ResolvConfRules(net, resolvConf))
    ensures var r := Generated(net, Some(VerdictProfile(host, w)), resolvConf, allowLan);
            r.Some? && Accepts(net, r.value, p)
  {
    VerdictRules(net, host, w, resolvConf, allowLan);
    assert net.filterAddr(host) == net.addrOf(host) && Free(host, SLASH);
    ResolvConfIs(net, resolvConf);
    hide *;
    var v6 := net.addrOf(host).value.V6?;
    var before, after := FixedRules() + ResolvConfRules(net, resolvConf), LanRules(allowLan);
    FixedSound(allowLan);
    FixedReadable(net, allowLan);
    ResolversSound(net, OptLines(resolvConf), |OptLines(resolvConf)|);
    PlainConcat(FixedRules(), ResolvConfRules(net, resolvConf));
    ReadableConcat(net, FixedRules(), ResolvConfRules(net, resolvConf));
    ReadableMeanings(net, before);
    ReadableMeanings(net, after);
    NumeralsOf(net);
    VerdictInPort(net, before, v6, host, UDP, w, after);
    MeaningsAccept(net, before);
    UndecidedThenAccept(net, v6, host, UDP, w, Meanings(net, after).value, p);
    var bad := WithBareAccept(net, v6, host, UDP, w) + Meanings(net, after).value;
    BareAcceptDecides(net, Meanings(net, before).value, bad, p);
    TableDecides(net, Meanings(net, before).value + bad, p);
    GeneratedIs(net, Some(VerdictProfile(host, w)), resolvConf, allowLan);
  }

  lemma NumeralsOf(net: Net)
    requires NetOk(net)
    ensures ReadsNumerals(net)
  {
  }

  lemma TableDecides(net: Net, rules: seq<FilterRule>, p: Packet)
    ensures Accepts(net, KillSwitchTable(rules), p) <==> Decide(net, rules, Drop, p) == Accept
  {
  }

  lemma GeneratedIs(net: Net, profile: Option<string>, resolvConf: Option<string>, allowLan: bool)
    requires Rules(net, profile, resolvConf, allowLan).Some?
    ensures Generated(net, profile, resolvConf, allowLan)
            == ReadRuleset(net, Render(Rules(net, profile, resolvConf, allowLan).value))
  {
  }
}
