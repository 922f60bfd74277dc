/** Generator parameters, the cache key made from them, and the request URL. */
module Generator {
  import opened Basics
  import opened Glib

  /** A parameter may be absent (NULL in C). */
  datatype Params = Params(
    server: Option<string>,
    device: Option<string>,
    protocol: Option<string>,
    port: Option<string>,
    customDirectives: Option<string>)
  {
    /** The five texts, with "" for an absent one. */
    function Texts(): (t: seq<string>) {
      [server.GetOr(""), device.GetOr(""), protocol.GetOr(""), port.GetOr(""), customDirectives.GetOr("")]
    }
  }

  // ----- The cache key

  const PIPE: set<char> := {'|'}

  /** The text whose hash identifies the parameters in the cache. */
  function CacheKey(p: Params): (key: string) {
    KeyOf(p.Texts())
  }

  function KeyOf(t: seq<string>): (key: string)
    requires |t| == 5
  {
    Sep(t[0], Sep(t[1], Sep(t[2], Sep(t[3], t[4]))))
  }

  function Sep(a: string, b: string): (s: string) { a + ['|'] + b }

  lemma SepAssociative(a: string, b: string, c: string)
    ensures Sep(Sep(a, b), c) == Sep(a, Sep(b, c))
  {
  }

  /** The first four texts hold no separator. */
  predicate IsUnambiguous(p: Params) {
    forall i :: 0 <= i < 4 ==> Free(p.Texts()[i], PIPE)
  }

  lemma SplitAtPipe(a: string, x: string, b: string, y: string)
    requires Free(a, PIPE) && Free(b, PIPE) && Sep(a, x) == Sep(b, y)
    ensures a == b && x == y
  {
    FirstOfFree(a, ['|'] + x, PIPE);
    FirstOfFree(b, ['|'] + y, PIPE);
    assert Sep(a, x) == a + (['|'] + x) && Sep(b, y) == b + (['|'] + y);
    assert a == Sep(a, x)[..|a|] && b == Sep(b, y)[..|b|];
    assert x == Sep(a, x)[|a| + 1..] && y == Sep(b, y)[|b| + 1..];
  }

  /** Without separators in the first four fields the key determines all five. */
  lemma KeyInjective(p: Params, q: Params)
    requires IsUnambiguous(p) && IsUnambiguous(q) && CacheKey(p) == CacheKey(q)
    ensures p.Texts() == q.Texts()
  {
    hide Sep;
    var t, u := p.Texts(), q.Texts();
    SplitAtPipe(t[0], Sep(t[1], Sep(t[2], Sep(t[3], t[4]))), u[0], Sep(u[1], Sep(u[2], Sep(u[3], u[4]))));
    SplitAtPipe(t[1], Sep(t[2], Sep(t[3], t[4])), u[1], Sep(u[2], Sep(u[3], u[4])));
    SplitAtPipe(t[2], Sep(t[3], t[4]), u[2], Sep(u[3], u[4]));
    SplitAtPipe(t[3], t[4], u[3], u[4]);
  }

  /** The key lists server, device, protocol, port and directives, in this order, with absent ones empty. */
  lemma KeyReadsBack(p: Params)
    requires forall i :: 0 <= i < 5 ==> Free(p.Texts()[i], PIPE)
    ensures Fields(CacheKey(p), PIPE) ==
            [p.server.GetOr(""), p.device.GetOr(""), p.protocol.GetOr(""), p.port.GetOr(""),
             p.customDirectives.GetOr("")]
  {
    var t := p.Texts();
    hide Free, Fields;
    FieldsCons(t[0], '|', Sep(t[1], Sep(t[2], Sep(t[3], t[4]))), PIPE);
    FieldsCons(t[1], '|', Sep(t[2], Sep(t[3], t[4])), PIPE);
    FieldsCons(t[2], '|', Sep(t[3], t[4]), PIPE);
    FieldsCons(t[3], '|', t[4], PIPE);
    FieldsSingle(t[4], PIPE);
  }

  function Pipes(s: string): (n: nat)
    ensures n == 0 <==> Free(s, PIPE)
  {
    if s == "" then 0 else Pipes(s[1..]) + if s[0] == '|' then 1 else 0
  }

  lemma {:induction false} PipesConcat(a: string, b: string)
    ensures Pipes(a + b) == Pipes(a) + Pipes(b)
  {
    if a == "" {
      assert a + b == b;
    } else {
      PipesConcat(a[1..], b);
      assert (a + b)[1..] == a[1..] + b;
    }
  }

  lemma PipesOfSep(a: string, b: string)
    ensures Pipes(Sep(a, b)) == Pipes(a) + 1 + Pipes(b)
  {
    PipesConcat(a + ['|'], b);
    PipesConcat(a, ['|']);
    assert ['|'][1..] == "";
  }

  lemma PipesOfKey(t: seq<string>)
    requires |t| == 5
    ensures Pipes(KeyOf(t)) == 4 + Pipes(t[0]) + Pipes(t[1]) + Pipes(t[2]) + Pipes(t[3]) + Pipes(t[4])
  {
    hide Sep, Pipes;
    PipesOfSep(t[3], t[4]);
    PipesOfSep(t[2], Sep(t[3], t[4]));
    PipesOfSep(t[1], Sep(t[2], Sep(t[3], t[4])));
    PipesOfSep(t[0], Sep(t[1], Sep(t[2], Sep(t[3], t[4]))));
  }

  /** Parameters with the given texts. */
  function FromTexts(t: seq<string>): (p: Params)
    requires |t| == 5
  {
    Params(Some(t[0]), Some(t[1]), Some(t[2]), Some(t[3]), Some(t[4]))
  }

  /** The text in front of the first separator, and the text behind it. */
  function Before(s: string): (r: string) { s[..FirstOf(s, PIPE)] }

  function Behind(s: string): (r: string) {
    if FirstOf(s, PIPE) < |s| then s[FirstOf(s, PIPE) + 1..] else ""
  }

  lemma CutAtPipe(s: string)
    requires !Free(s, PIPE)
    ensures Sep(Before(s), Behind(s)) == s && |Before(s)| < |s|
  {
  }

  /** Where a separator hides in a field, other parameters have the same key. */
  function Impostor(t: seq<string>): (u: seq<string>)
    requires |t| == 5
    ensures |u| == 5
  {
    if !Free(t[0], PIPE) then [Before(t[0]), Behind(t[0]), t[1], t[2], Sep(t[3], t[4])]
    else if !Free(t[1], PIPE) then [t[0], Before(t[1]), Behind(t[1]), t[2], Sep(t[3], t[4])]
    else if !Free(t[2], PIPE) then [t[0], t[1], Before(t[2]), Behind(t[2]), Sep(t[3], t[4])]
    else if !Free(t[3], PIPE) then [t[0], t[1], t[2], Before(t[3]), Sep(Behind(t[3]), t[4])]
    else [Sep(t[0], t[1]), t[2], t[3], Before(t[4]), Behind(t[4])]
  }

  lemma ImpostorHasKey(t: seq<string>)
    requires |t| == 5 && exists i :: 0 <= i < 5 && !Free(t[i], PIPE)
    ensures KeyOf(Impostor(t)) == KeyOf(t) && Impostor(t) != t
  {
    assert |Sep(t[0], t[1])| > |t[0]|;
    hide Sep, Free, Before, Behind;
    var u := Impostor(t);
    if !Free(t[0], PIPE) {
      CutAtPipe(t[0]);
      SepAssociative(u[0], u[1], Sep(t[1], Sep(t[2], Sep(t[3], t[4]))));
      assert u[0] != t[0];
    } else if !Free(t[1], PIPE) {
      CutAtPipe(t[1]);
      SepAssociative(u[1], u[2], Sep(t[2], Sep(t[3], t[4])));
      assert u[1] != t[1];
    } else if !Free(t[2], PIPE) {
      CutAtPipe(t[2]);
      SepAssociative(u[2], u[3], Sep(t[3], t[4]));
      assert u[2] != t[2];
    } else if !Free(t[3], PIPE) {
      CutAtPipe(t[3]);
      SepAssociative(u[3], Behind(t[3]), t[4]);
      assert u[3] != t[3];
    } else {
      CutAtPipe(t[4]);
      SepAssociative(t[0], t[1], Sep(t[2], Sep(t[3], t[4])));
      assert u[0] != t[0];
    }
  }

  /**
   * The key pins its parameters down against all others exactly when none of the five fields, the
   * directives included, holds a separator.
   */
  lemma KeyDeterminesExactly(p: Params)
    ensures (forall q: Params :: CacheKey(q) == CacheKey(p) ==> q.Texts() == p.Texts())
            <==> forall i :: 0 <= i < 5 ==> Free(p.Texts()[i], PIPE)
  {
    var t := p.Texts();
    if forall i :: 0 <= i < 5 ==> Free(t[i], PIPE) {
      forall q: Params | CacheKey(q) == CacheKey(p) ensures q.Texts() == t {
        PipesOfKey(t);
        PipesOfKey(q.Texts());
        KeyInjective(p, q);
      }
    } else {
      ImpostorHasKey(t);
      var q := FromTexts(Impostor(t));
      assert q.Texts() == Impostor(t);
      assert CacheKey(q) == CacheKey(p);
    }
  }

  // ----- The request

  const GENERATOR_URL := "https://airvpn.org/api/generator/"

  /** What a URL asks the generator for. */
  datatype Request = Request(server: string, device: string, protocol: string, port: string, directives: string)

  /** The parameters with their defaults filled in. */
  function Effective(p: Params): (r: Request) {
    Request(p.server.GetOr(""), p.device.GetOr(""),
            if p.protocol.GetOr("") != "" then p.protocol.value else UDP,
            if p.port.GetOr("") != "" then p.port.value else DEFAULT_PORT,
            p.customDirectives.GetOr(""))
  }

  const AMP: set<char> := {'&'}
  const HASH: set<char> := {'#'}

  /** What ends a value in a query: the separator and the start of the fragment. */
  const ENDS: set<char> := {'&', '#'}

  /** What ends a value in a query or gets decoded. */
  const MARKS: set<char> := {'&', '#', '%'}

  predicate IsUnreserved(c: char) {
    'A' <= c <= 'Z' || 'a' <= c <= 'z' || '0' <= c <= '9' || c == '-' || c == '.' || c == '_' || c == '~'
  }

  /** The characters that a query may hold (section 3.4 of RFC 3986). */
  predicate IsQueryChar(c: char) {
    || IsUnreserved(c)
    || c in {'!', '$', '&', '\'', '(', ')', '*', '+', ',', ';', '='}
    || c in {':', '@', '/', '?', '%'}
  }

  predicate IsQuery(s: string) { forall i :: 0 <= i < |s| ==> IsQueryChar(s[i]) }

  function HexDigit(d: nat): (c: char)
    requires d < 16
  {
    if d < 10 then '0' + d as char else 'A' + (d - 10) as char
  }

  function HexValue(c: char): (d: Option<nat>)
    ensures d.Some? ==> d.value < 16
  {
    if '0' <= c <= '9' then Some((c - '0') as nat)
    else if 'A' <= c <= 'F' then Some(10 + (c - 'A') as nat)
    else if 'a' <= c <= 'f' then Some(10 + (c - 'a') as nat)
    else None
  }

  predicate IsBytes(s: string) { forall i :: 0 <= i < |s| ==> s[i] as int < 256 }

  /** curl_easy_escape: percent-encodes everything but the unreserved characters. */
  function PercentEncode(s: string): (r: string)
    requires IsBytes(s)
  {
    if s == "" then ""
    else
      var n := s[0] as int;
      (if IsUnreserved(s[0]) then [s[0]] else ['%', HexDigit(n / 16), HexDigit(n % 16)]) + PercentEncode(s[1..])
  }

  /** Percent-decoding (section 2.1 of RFC 3986); None for a malformed triplet. */
  function PercentDecode(s: string): (r: Option<string>)
    decreases |s|
  {
    if s == "" then Some("")
    else if s[0] != '%' then
      match PercentDecode(s[1..])
      case None => None
      case Some(rest) => Some([s[0]] + rest)
    else if |s| >= 3 && HexValue(s[1]).Some? && HexValue(s[2]).Some? then
      match PercentDecode(s[3..])
      case None => None
      case Some(rest) => Some([(HexValue(s[1]).value * 16 + HexValue(s[2]).value) as char] + rest)
    else None
  }

  lemma DecodeTriplet(c: char, rest: string)
    requires c as int < 256
    ensures var n := c as int;
            PercentDecode(['%', HexDigit(n / 16), HexDigit(n % 16)] + rest) ==
            match PercentDecode(rest) case None => None case Some(r) => Some([c] + r)
  {
    var n := c as int;
    var s := ['%', HexDigit(n / 16), HexDigit(n % 16)] + rest;
    assert s[3..] == rest;
    assert HexValue(HexDigit(n / 16)) == Some(n / 16) && HexValue(HexDigit(n % 16)) == Some(n % 16);
    assert (n / 16 * 16 + n % 16) as char == c;
  }

  lemma {:induction false} DecodeInvertsEncode(s: string)
    requires IsBytes(s)
    ensures PercentDecode(PercentEncode(s)) == Some(s)
    ensures Free(PercentEncode(s), ENDS)
  {
    if s != "" {
      DecodeInvertsEncode(s[1..]);
      var n, e := s[0] as int, PercentEncode(s);
      assert s == [s[0]] + s[1..];
      hide HexValue;
      if IsUnreserved(s[0]) {
        assert e[1..] == PercentEncode(s[1..]);
      } else {
        DecodeTriplet(s[0], PercentEncode(s[1..]));
        assert IsUnreserved(HexDigit(n / 16)) && IsUnreserved(HexDigit(n % 16));
      }
    }
  }

  lemma {:induction false} EncodeIsQuery(s: string)
    requires IsBytes(s)
    ensures IsQuery(PercentEncode(s))
  {
    if s != "" {
      EncodeIsQuery(s[1..]);
      var n := s[0] as int;
      assert IsUnreserved(HexDigit(n / 16)) && IsUnreserved(HexDigit(n % 16));
    }
  }

  /** What stands for itself: letters, digits, and four marks (section 2.3 of RFC 3986). */
  predicate StandsForItself(c: char) {
    || 'A' <= c <= 'Z' || 'a' <= c <= 'z' || '0' <= c <= '9' || c in {'-', '.', '_', '~'}
  }

  predicate IsUpperHex(c: char) { '0' <= c <= '9' || 'A' <= c <= 'F' }

  /** Nothing but such characters, and percent signs in front of two upper-case digits. */
  predicate IsEscaped(e: string) { forall i :: 0 <= i < |e| ==> IsEscapedAt(e, i) }

  predicate IsEscapedAt(e: string, i: nat)
    requires i < |e|
  {
    StandsForItself(e[i]) || (e[i] == '%' && i + 2 < |e| && IsUpperHex(e[i + 1]) && IsUpperHex(e[i + 2]))
  }

  lemma EscapedTogether(a: string, b: string)
    requires IsEscaped(a) && IsEscaped(b)
    ensures IsEscaped(a + b)
  {
    forall i | 0 <= i < |a + b| ensures IsEscapedAt(a + b, i) {
      assert if i < |a| then IsEscapedAt(a, i) else IsEscapedAt(b, i - |a|);
    }
  }

  function EncodedChar(c: char): (e: string)
    requires c as int < 256
  {
    if IsUnreserved(c) then [c] else ['%', HexDigit(c as int / 16), HexDigit(c as int % 16)]
  }

  lemma EncodedCharFacts(c: char)
    requires c as int < 256
    ensures IsEscaped(EncodedChar(c))
    ensures if StandsForItself(c) then EncodedChar(c) == [c] else |EncodedChar(c)| == 3
  {
    HexDigitUpper(c as int / 16);
    HexDigitUpper(c as int % 16);
    hide HexDigit;
  }

  lemma HexDigitUpper(d: nat)
    requires d < 16
    ensures IsUpperHex(HexDigit(d)) && StandsForItself(HexDigit(d))
  {
  }

  /** Only such text is written, and text without anything to escape, and no other, stays as it is. */
  lemma {:induction false} EncodedExactly(s: string)
    requires IsBytes(s)
    ensures IsEscaped(PercentEncode(s)) && |PercentEncode(s)| >= |s|
    ensures PercentEncode(s) == s <==> forall i :: 0 <= i < |s| ==> StandsForItself(s[i])
    ensures |PercentEncode(s)| == |s| ==> PercentEncode(s) == s
  {
    if s != "" {
      EncodedExactly(s[1..]);
      EncodedCharFacts(s[0]);
      var head, tail := EncodedChar(s[0]), PercentEncode(s[1..]);
      assert PercentEncode(s) == head + tail;
      assert s == [s[0]] + s[1..];
      hide IsUnreserved, StandsForItself, HexDigit, EncodedChar, PercentEncode, IsEscaped;
      EscapedTogether(head, tail);
      assert head == [s[0]] ==> (head + tail == s <==> tail == s[1..]);
    }
  }

  /** Text without percent signs decodes to itself, and only such text does. */
  lemma {:induction false} DecodePlain(s: string)
    ensures PercentDecode(s).Some? ==> |PercentDecode(s).value| <= |s|
    ensures PercentDecode(s) == Some(s) <==> Free(s, {'%'})
    ensures PercentDecode(s).Some? && !Free(s, {'%'}) ==> |PercentDecode(s).value| < |s|
    decreases |s|
  {
    if s != "" {
      assert s == [s[0]] + s[1..];
      DecodePlain(s[1..]);
      if s[0] == '%' && |s| >= 3 {
        DecodePlain(s[3..]);
      }
    }
  }

  lemma {:induction false} DecodeAfterPlain(a: string, b: string)
    requires Free(a, {'%'})
    ensures PercentDecode(a + b) == match PercentDecode(b) case None => None case Some(r) => Some(a + r)
  {
    if a == "" {
      assert a + b == b;
      assert forall r: string :: a + r == r;
    } else {
      DecodeAfterPlain(a[1..], b);
      assert (a + b)[1..] == a[1..] + b;
      assert forall r: string :: [a[0]] + (a[1..] + r) == a + r;
    }
  }

  function Part(key: string, value: string): (part: string) { key + "=" + value }

  function Protocols(protocol: string, port: string): (v: string) { "openvpn_3_" + (protocol + "_" + port) }

  /** The parts of the query, in order, as they appear in the URL. */
  function QueryParts(p: Params): (parts: seq<string>)
    requires IsRequest(p)
  {
    var e := Effective(p);
    FixedParts() + [ProtocolsPart(e.protocol, e.port), ServersPart(e.server)]
    + (if e.device != "" then [DevicePart(e.device)] else [])
    + (if e.directives != "" then [DirectivesPart(e.directives)] else [])
  }

  function FixedParts(): (parts: seq<string>)
    ensures |parts| == 2
  {
    [Part("system", "linux"), Part("download", "auto")]
  }

  function ProtocolsPart(protocol: string, port: string): (part: string) {
    Part("protocols", Protocols(protocol, port))
  }

  function ServersPart(server: string): (part: string)
    requires IsBytes(server)
  {
    Part("servers", PercentEncode(server))
  }

  function DevicePart(device: string): (part: string)
    requires IsBytes(device)
  {
    Part("device", PercentEncode(device))
  }

  function DirectivesPart(directives: string): (part: string)
    requires IsBytes(directives)
  {
    Part("openvpn_directives", PercentEncode(directives))
  }

  /** The callers of the generator see to it that there is a server. */
  predicate IsRequest(p: Params) {
    && p.server.GetOr("") != ""
    && IsBytes(p.server.GetOr("")) && IsBytes(p.device.GetOr("")) && IsBytes(p.customDirectives.GetOr(""))
  }

  function GeneratorUrl(p: Params): (url: string)
    requires IsRequest(p)
  {
    GENERATOR_URL + "?" + Join(QueryParts(p), '&')
  }

  /** The URL in full, with a device and directives only when there are any. */
  lemma UrlInFull(p: Params)
    requires IsRequest(p)
    ensures var device, directives := p.device.GetOr(""), p.customDirectives.GetOr("");
            GeneratorUrl(p) ==
            "https://airvpn.org/api/generator/" + "?" + "system=linux&download=auto"
            + "&protocols=openvpn_3_" + OrElse(p.protocol, "udp") + "_" + OrElse(p.port, "443")
            + "&servers=" + PercentEncode(p.server.GetOr(""))
            + (if device != "" then "&device=" + PercentEncode(device) else "")
            + (if directives != "" then "&openvpn_directives=" + PercentEncode(directives) else "")
  {
    EffectiveIs(p);
    EffectiveBytes(p);
    var e := Effective(p);
    var four := FixedParts() + [ProtocolsPart(e.protocol, e.port), ServersPart(e.server)];
    var device := if e.device != "" then [DevicePart(e.device)] else [];
    var directives := if e.directives != "" then [DirectivesPart(e.directives)] else [];
    MandatoryUrl(e);
    OptionalTexts(e);
    assert QueryParts(p) == four + device + directives;
    hide Effective, Join, FixedParts, PercentEncode, IsBytes, ProtocolsPart, ServersPart, DevicePart, DirectivesPart,
      OrElse, QueryParts, IsRequest;
    JoinOptional(four, device);
    JoinOptional(four + device, directives);
    var d := if e.device != "" then "&device=" + PercentEncode(e.device) else "";
    var o := if e.directives != "" then "&openvpn_directives=" + PercentEncode(e.directives) else "";
    Append3(GENERATOR_URL + "?", Join(four, '&'), d, o);
  }

  lemma Append3(base: string, four: string, d: string, o: string)
    ensures base + (four + d + o) == base + four + d + o
  {
  }

  /** A part that may be missing, with its separator. */
  function Separated(part: seq<string>): (s: string) {
    if part == [] then "" else ['&'] + part[0]
  }

  lemma JoinOptional(parts: seq<string>, part: seq<string>)
    requires parts != [] && |part| <= 1
    ensures Join(parts + part, '&') == Join(parts, '&') + Separated(part)
  {
    hide Join;
    if part == [] {
      assert parts + part == parts && Join(parts, '&') + "" == Join(parts, '&');
    } else {
      assert part == [part[0]];
      JoinMore(parts, part[0], '&');
      assert Join(parts, '&') + ['&'] + part[0] == Join(parts, '&') + (['&'] + part[0]);
    }
  }

  lemma OptionalTexts(e: Request)
    requires IsBytes(e.device) && IsBytes(e.directives)
    ensures ['&'] + DevicePart(e.device) == "&device=" + PercentEncode(e.device)
    ensures ['&'] + DirectivesPart(e.directives) == "&openvpn_directives=" + PercentEncode(e.directives)
  {
    hide PercentEncode;
    assert "&device=" == ['&'] + "device" + "=" && "&openvpn_directives=" == ['&'] + "openvpn_directives" + "=";
  }

  lemma MandatoryUrl(e: Request)
    requires IsBytes(e.server)
    ensures var four := FixedParts() + [ProtocolsPart(e.protocol, e.port), ServersPart(e.server)];
            GENERATOR_URL + "?" + Join(four, '&') ==
            "https://airvpn.org/api/generator/" + "?" + "system=linux&download=auto"
            + "&protocols=openvpn_3_" + e.protocol + "_" + e.port + "&servers=" + PercentEncode(e.server)
  {
    JoinFour(FixedParts(), ProtocolsPart(e.protocol, e.port), ServersPart(e.server));
    FixedJoin();
    ProtocolsText(e.protocol, e.port);
    ServersText(e.server);
    hide Join, FixedParts, PercentEncode, IsBytes, ServersPart, ProtocolsPart;
    Flatten(GENERATOR_URL + "?", "system=linux&download=auto", "&protocols=openvpn_3_", e.protocol, e.port, "&servers=",
      PercentEncode(e.server), ProtocolsPart(e.protocol, e.port), ServersPart(e.server));
  }

  lemma Flatten(base: string, fixed: string, p: string, protocol: string, port: string, v: string, server: string,
      a: string, b: string)
    requires ['&'] + a == p + (protocol + "_" + port) && ['&'] + b == v + server
    ensures base + (fixed + ['&'] + a + ['&'] + b) == base + fixed + p + protocol + "_" + port + v + server
  {
    assert fixed + ['&'] + a + ['&'] + b == fixed + (['&'] + a) + (['&'] + b);
    assert p + (protocol + "_" + port) == p + protocol + "_" + port;
    var q := p + protocol + "_" + port;
    assert base + (fixed + q + (v + server)) == base + fixed + q + v + server;
    assert base + fixed + q == base + fixed + p + protocol + "_" + port;
  }

  lemma ProtocolsText(protocol: string, port: string)
    ensures ['&'] + ProtocolsPart(protocol, port) == "&protocols=openvpn_3_" + (protocol + "_" + port)
  {
    assert "&protocols=openvpn_3_" == ['&'] + "protocols" + "=" + "openvpn_3_";
  }

  lemma ServersText(server: string)
    requires IsBytes(server)
    ensures ['&'] + ServersPart(server) == "&servers=" + PercentEncode(server)
  {
    hide PercentEncode;
    assert "&servers=" == ['&'] + "servers" + "=";
  }

  function OrElse(o: Option<string>, default: string): (s: string) {
    if o in {None, Some("")} then default else o.value
  }

  lemma JoinFour(fixed: seq<string>, c: string, d: string)
    requires |fixed| == 2
    ensures Join(fixed + [c, d], '&') == Join(fixed, '&') + ['&'] + c + ['&'] + d
  {
    JoinMore(fixed, c, '&');
    JoinMore(fixed + [c], d, '&');
    assert fixed + [c] + [d] == fixed + [c, d];
  }

  lemma FixedJoin()
    ensures Join(FixedParts(), '&') == "system=linux&download=auto"
  {
    assert FixedParts()[1..] == [Part("download", "auto")];
  }

  /** g_string_append_printf of one more part. */
  method AppendPart(url: string, piece: string, ghost base: string, ghost parts: seq<string>) returns (url': string)
    requires parts != [] && url == base + Join(parts, '&')
    ensures url' == base + Join(parts + [piece], '&')
  {
    hide Join;
    JoinMore(parts, piece, '&');
    url' := url + ['&'] + piece;
  }

  /** The start of the URL, up to the parts that do not depend on the parameters. */
  method StartUrl() returns (url: string)
    ensures url == GENERATOR_URL + "?" + Join(FixedParts(), '&')
  {
    url := GENERATOR_URL;
    url := url + "?" + "system=linux&download=auto";
    assert FixedParts()[1..] == [Part("download", "auto")];
    assert Join(FixedParts(), '&') == "system=linux&download=auto";
  }

  /** Grows the URL piece by piece. */
  method BuildGeneratorUrl(p: Params) returns (url: string)
    requires IsRequest(p)
    ensures url == GeneratorUrl(p)
  {
    hide Join, IsBytes, FixedParts, ProtocolsPart, ServersPart, DevicePart, DirectivesPart;
    var protocol := if p.protocol.Some? && p.protocol.value != "" then p.protocol.value else UDP;
    var port := if p.port.Some? && p.port.value != "" then p.port.value else DEFAULT_PORT;
    ghost var base := GENERATOR_URL + "?";
    ghost var e := Effective(p);
    ghost var parts := FixedParts();
    url := StartUrl();

    var piece := ProtocolsPart(protocol, port);
    url := AppendPart(url, piece, base, parts);
    parts := parts + [piece];

    piece := ServersPart(p.server.value);
    url := AppendPart(url, piece, base, parts);
    parts := parts + [piece];
    assert parts == FixedParts() + [ProtocolsPart(e.protocol, e.port), ServersPart(e.server)];
    ghost var device := if e.device != "" then [DevicePart(e.device)] else [];
    ghost var directives := if e.directives != "" then [DirectivesPart(e.directives)] else [];
    assert QueryParts(p) == parts + device + directives;
    assert parts + [] == parts && parts + device + [] == parts + device;

    if p.device.Some? && p.device.value != "" {
      piece := DevicePart(p.device.value);
      url := AppendPart(url, piece, base, parts);
    }
    parts := parts + device;
    if p.customDirectives.Some? && p.customDirectives.value != "" {
      piece := DirectivesPart(p.customDirectives.value);
      url := AppendPart(url, piece, base, parts);
    }
  }

  /** The key respects the request: equal keys give byte-identical URLs. */
  lemma EqualKeysEqualUrls(p: Params, q: Params)
    requires IsUnambiguous(p) && IsUnambiguous(q) && IsRequest(p) && IsRequest(q)
    requires CacheKey(p) == CacheKey(q)
    ensures GeneratorUrl(p) == GeneratorUrl(q)
  {
    KeyInjective(p, q);
    assert forall i :: 0 <= i < 5 ==> p.Texts()[i] == q.Texts()[i];
    assert p.server.GetOr("") == p.Texts()[0] && p.device.GetOr("") == p.Texts()[1] &&
           p.protocol.GetOr("") == p.Texts()[2]
           && p.port.GetOr("") == p.Texts()[3] && p.customDirectives.GetOr("") == p.Texts()[4];
    assert q.server.GetOr("") == q.Texts()[0] && q.device.GetOr("") == q.Texts()[1] &&
           q.protocol.GetOr("") == q.Texts()[2]
           && q.port.GetOr("") == q.Texts()[3] && q.customDirectives.GetOr("") == q.Texts()[4];
    assert Effective(p) == Effective(q);
  }

  // ----- Reading the request back

  /** One part of a query: the name in front of the first `=` and the decoded value behind it. */
  function ReadPart(part: string): (r: Option<(string, string)>) {
    var i := FirstOf(part, {'='});
    if i == |part| then None
    else
      match PercentDecode(part[i + 1..])
      case None => None
      case Some(value) => Some((part[..i], value))
  }

  function ReadParts(parts: seq<string>): (r: Option<seq<(string, string)>>) {
    if parts == [] then Some([])
    else
      match (ReadPart(parts[0]), ReadParts(parts[1..]))
      case (Some(pair), Some(rest)) => Some([pair] + rest)
      case _ => None
  }

  /** The value of the first pair with the given name, or "". */
  function Lookup(pairs: seq<(string, string)>, name: string): (value: string) {
    if pairs == [] then ""
    else if pairs[0].0 == name then pairs[0].1
    else Lookup(pairs[1..], name)
  }

  /** The fragment, which begins at the first `#`, is not part of the request (section 3.5 of RFC 3986). */
  function Cut(s: string): (r: string) { s[..FirstOf(s, HASH)] }

  /** What a generator reads from a URL: the query from the first `?` to the fragment. */
  function ReadUrl(url: string): (r: Option<Request>) {
    var u := Cut(url);
    var q := FirstOf(u, {'?'});
    if q == |u| then None else ReadQuery(u[q + 1..])
  }

  /** A query, split at `&`. */
  function ReadQuery(query: string): (r: Option<Request>) {
    if !IsQuery(query) then None
    else
      match ReadParts(Fields(query, AMP))
      case None => None
      case Some(pairs) =>
        match ReadProtocols(Lookup(pairs, "protocols"))
        case None => None
        case Some((protocol, port)) =>
          Some(Request(Lookup(pairs, "servers"), Lookup(pairs, "device"), protocol, port,
            Lookup(pairs, "openvpn_directives")))
  }

  /** Protocol and port behind the fixed prefix, separated by the first underscore. */
  function ReadProtocols(v: string): (r: Option<(string, string)>) {
    if !HasPrefix(v, "openvpn_3_") then None
    else
      var rest := v[10..];
      var i := FirstOf(rest, {'_'});
      if i == |rest| then None else Some((rest[..i], rest[i + 1..]))
  }

  lemma ReadPartOf(name: string, value: string)
    requires Free(name, {'='})
    ensures ReadPart(Part(name, value)) ==
            match PercentDecode(value) case None => None case Some(v) => Some((name, v))
  {
    FirstOfFree(name, "=" + value, {'='});
    assert Part(name, value) == name + ("=" + value);
    assert Part(name, value)[..|name|] == name && Part(name, value)[|name| + 1..] == value;
  }

  lemma ReadProtocolsOf(protocol: string, port: string)
    requires Free(protocol, {'_'})
    ensures ReadProtocols(Protocols(protocol, port)) == Some((protocol, port))
  {
    var rest := protocol + "_" + port;
    FirstOfFree(protocol, "_" + port, {'_'});
    assert rest == protocol + ("_" + port);
    assert Protocols(protocol, port)[10..] == rest;
    assert rest[..|protocol|] == protocol && rest[|protocol| + 1..] == port;
  }

  lemma UrlHasNoQuery()
    ensures Free(GENERATOR_URL, {'?'}) && Free(GENERATOR_URL + "?", HASH)
  {}

  lemma FixedPartsFacts()
    ensures Free(FixedParts()[0], ENDS) && ReadPart(FixedParts()[0]) == Some(("system", "linux"))
    ensures Free(FixedParts()[1], ENDS) && ReadPart(FixedParts()[1]) == Some(("download", "auto"))
  {
    FixedTexts();
    hide Free, ReadPart, Part;
    PlainPart("system", "linux");
    PlainPart("download", "auto");
  }

  lemma FixedTexts()
    ensures Free("system", {'='} + ENDS) && Free("linux", MARKS)
    ensures Free("download", {'='} + ENDS) && Free("auto", MARKS)
  {
  }

  /** A part whose name and value hold no special characters reads back as it is. */
  lemma PlainPart(name: string, value: string)
    requires Free(name, {'='} + ENDS) && Free(value, MARKS)
    ensures Free(Part(name, value), ENDS) && ReadPart(Part(name, value)) == Some((name, value))
  {
    ReadPartOf(name, value);
    DecodePlain(value);
  }

  /** The protocol is one of the two that the properties allow. */
  predicate IsProtocol(s: string) { s == UDP || s == TCP }

  lemma ProtocolsPartFacts(protocol: string, port: string)
    requires IsProtocol(protocol)
    ensures Free(port, ENDS) ==> Free(ProtocolsPart(protocol, port), ENDS)
    ensures ReadPart(ProtocolsPart(protocol, port)) ==
            match PercentDecode(port) case None => None case Some(d) => Some(("protocols", Protocols(protocol, d)))
  {
    var prefix := "openvpn_3_" + (protocol + "_");
    PrefixFacts(protocol);
    ProtocolsIs(protocol, port);
    forall d: string ensures Protocols(protocol, d) == prefix + d {
      ProtocolsIs(protocol, d);
    }
    ReadPartOf("protocols", Protocols(protocol, port));
    DecodeAfterPlain(prefix, port);
    hide Protocols, PercentDecode, ReadPart, Part, IsProtocol;
  }

  lemma ProtocolsIs(protocol: string, port: string)
    ensures Protocols(protocol, port) == "openvpn_3_" + (protocol + "_") + port
    ensures ProtocolsPart(protocol, port) == "protocols=" + ("openvpn_3_" + (protocol + "_")) + port
    ensures ProtocolsPart(protocol, port) == Part("protocols", Protocols(protocol, port))
  {}

  lemma PrefixFacts(protocol: string)
    requires IsProtocol(protocol)
    ensures Free("openvpn_3_" + (protocol + "_"), {'%'})
    ensures Free("protocols=" + ("openvpn_3_" + (protocol + "_")), ENDS)
    ensures Free(protocol, {'_'})
    ensures IsQuery("protocols=" + ("openvpn_3_" + (protocol + "_")))
  {}

  lemma ProtocolsPartIs(protocol: string, port: string)
    ensures IsQuery(ProtocolsPart(protocol, port)) ==> IsQuery(port)
    ensures IsProtocol(protocol) && IsQuery(port) ==> IsQuery(ProtocolsPart(protocol, port))
  {
    ProtocolsIs(protocol, port);
    var prefix := "protocols=" + ("openvpn_3_" + (protocol + "_"));
    QueryOfSum(prefix, port);
    if IsProtocol(protocol) {
      PrefixFacts(protocol);
    }
    hide IsQueryChar, ProtocolsPart, IsProtocol;
  }

  lemma ProtocolsPartConcat(protocol: string, a: string, b: string)
    ensures ProtocolsPart(protocol, a + b) == ProtocolsPart(protocol, a) + b
  {
  }

  /** The port as far as the first `&` or `#`, which is where a reader of the URL sees it end. */
  function PortSeen(port: string): (r: string) { port[..FirstOf(port, ENDS)] }

  lemma PortSeenFacts(port: string)
    ensures Free(PortSeen(port), ENDS)
    ensures Free(port, MARKS) <==> PercentDecode(PortSeen(port)) == Some(port)
  {
    var k, seen := FirstOf(port, ENDS), PortSeen(port);
    DecodePlain(seen);
    if k == |port| {
      assert seen == port;
    }
  }

  lemma CutBehind(a: string, b: string)
    requires Free(a, HASH)
    ensures Cut(a + b) == a + Cut(b)
    decreases |a|
  {
    var rest := b[FirstOf(b, HASH)..];
    assert Free(a + Cut(b), HASH);
    FirstOfFree(a + Cut(b), rest, HASH);
    assert a + b == a + Cut(b) + rest;
  }

  lemma CutFree(s: string)
    requires Free(s, HASH)
    ensures Cut(s) == s
  {
    FirstOfFree(s, "", HASH);
    assert s + "" == s;
  }

  /** The fragment begins inside of the port. */
  predicate EndsAtHash(port: string) {
    FirstOf(port, ENDS) < |port| && port[FirstOf(port, ENDS)] == '#'
  }

  /** What a reader sees behind the protocols part begins with a separator, if there is anything. */
  lemma ProtocolsCut(protocol: string, port: string, rest: string) returns (rest': string)
    requires IsProtocol(protocol)
    ensures rest' == "" || rest'[0] == '&'
    ensures EndsAtHash(port) ==> rest' == ""
    ensures Cut(ProtocolsPart(protocol, port) + ['&'] + rest) == ProtocolsPart(protocol, PortSeen(port)) + rest'
  {
    ProtocolsPartFacts(protocol, PortSeen(port));
    PortSeenFacts(port);
    hide ProtocolsPart, IsProtocol;
    var k, seen := FirstOf(port, ENDS), PortSeen(port);
    var behind := port[k..] + ['&'] + rest;
    assert port == seen + port[k..];
    ProtocolsPartConcat(protocol, seen, port[k..]);
    CutBehind(ProtocolsPart(protocol, seen), behind);
    assert ProtocolsPart(protocol, port) + ['&'] + rest == ProtocolsPart(protocol, seen) + behind;
    rest' := Cut(behind);
    assert behind[0] in ENDS;
  }

  lemma SecondFieldAndBehind(parts: seq<string>, third: string, rest: string)
    requires |parts| >= 3 && Free(parts[0], ENDS) && Free(parts[1], ENDS) && Free(third, ENDS)
    requires Cut(Join(parts[2..], '&')) == third + rest && (rest == "" || rest[0] == '&')
    ensures Cut(Join(parts, '&')) == parts[0] + ['&'] + (parts[1] + ['&'] + (third + rest))
  {
    assert parts[1..][1..] == parts[2..];
    CutBehind(parts[1] + ['&'], Join(parts[2..], '&'));
    CutBehind(parts[0] + ['&'], Join(parts[1..], '&'));
  }

  lemma FirstThreeFields(f0: string, f1: string, f2: string, rest: string) returns (tail: seq<string>)
    requires Free(f0, AMP) && Free(f1, AMP) && Free(f2, AMP) && (rest == "" || rest[0] == '&')
    ensures Fields(f0 + ['&'] + (f1 + ['&'] + (f2 + rest)), AMP) == [f0, f1, f2] + tail
    ensures rest == "" ==> tail == []
  {
    hide Free, Fields;
    if rest == "" {
      tail := [];
      FieldsSingle(f2, AMP);
      assert f2 + rest == f2;
    } else {
      tail := Fields(rest[1..], AMP);
      FieldsCons(f2, '&', rest[1..], AMP);
      assert f2 + rest == f2 + ['&'] + rest[1..];
    }
    FieldsCons(f1, '&', f2 + rest, AMP);
    FieldsCons(f0, '&', f1 + ['&'] + (f2 + rest), AMP);
  }

  lemma FreeOfEnds(s: string)
    ensures Free(s, ENDS) <==> Free(s, AMP) && Free(s, HASH)
  {
  }

  lemma QueryOfSum(a: string, b: string)
    ensures IsQuery(a + b) <==> IsQuery(a) && IsQuery(b)
  {
    assert IsQuery(a + b) ==> forall i :: 0 <= i < |a| ==> a[i] == (a + b)[i];
    assert IsQuery(a + b) ==> forall i :: 0 <= i < |b| ==> b[i] == (a + b)[|a| + i];
  }

  /** The protocols part with the port as a reader sees it. */
  function SeenPart(e: Request): (part: string) { ProtocolsPart(e.protocol, PortSeen(e.port)) }

  /** However the port looks, the query as it is seen goes on behind two parts with the protocols part. */
  lemma QuerySeen(p: Params) returns (rest: string)
    requires IsRequest(p) && IsProtocol(Effective(p).protocol)
    ensures rest == "" || rest[0] == '&'
    ensures EndsAtHash(Effective(p).port) ==> rest == ""
    ensures Cut(Join(QueryParts(p), '&')) ==
            FixedParts()[0] + ['&'] + (FixedParts()[1] + ['&'] + (SeenPart(Effective(p)) + rest))
    ensures Free(SeenPart(Effective(p)), ENDS)
  {
    FixedPartsFacts();
    QueryPartsShape(p);
    hide QueryParts, ProtocolsPart, FixedParts, Free, ReadPart, Effective, IsProtocol, Join, Cut, PortSeen, EndsAtHash;
    var e, parts := Effective(p), QueryParts(p);
    PortSeenFacts(e.port);
    ProtocolsPartFacts(e.protocol, PortSeen(e.port));
    rest := ProtocolsCut(e.protocol, e.port, Join(parts[3..], '&'));
    SecondFieldAndBehind(parts, SeenPart(e), rest);
  }

  /** Whatever the port is, it is the third field of the query as far as it is seen. */
  lemma QueryFields(p: Params, rest: string) returns (tail: seq<string>)
    requires IsProtocol(Effective(p).protocol) && Free(SeenPart(Effective(p)), ENDS) && (rest == "" || rest[0] == '&')
    ensures Fields(FixedParts()[0] + ['&'] + (FixedParts()[1] + ['&'] + (SeenPart(Effective(p)) + rest)), AMP) ==
            [FixedParts()[0], FixedParts()[1], SeenPart(Effective(p))] + tail
    ensures rest == "" ==> tail == []
  {
    FixedPartsFacts();
    hide FixedParts, Free, ReadPart, Effective, SeenPart, Fields;
    var e := Effective(p);
    FreeOfEnds(FixedParts()[0]);
    FreeOfEnds(FixedParts()[1]);
    FreeOfEnds(SeenPart(e));
    tail := FirstThreeFields(FixedParts()[0], FixedParts()[1], SeenPart(e), rest);
  }

  /** The query as it is seen consists of characters that a query may hold only if the port does. */
  lemma SeenIsQuery(e: Request, rest: string)
    requires IsProtocol(e.protocol)
    ensures var seen := FixedParts()[0] + ['&'] + (FixedParts()[1] + ['&'] + (SeenPart(e) + rest));
            && (IsQuery(seen) ==> IsQuery(PortSeen(e.port)))
            && (IsQuery(PortSeen(e.port)) && rest == "" ==> IsQuery(seen))
  {
    FixedPartsQuery();
    hide FixedParts, IsQuery, ProtocolsPart, PortSeen;
    var f0, f1, seen := FixedParts()[0], FixedParts()[1], SeenPart(e);
    QueryOfSum(f0 + ['&'], f1 + ['&'] + (seen + rest));
    QueryOfSum(f1 + ['&'], seen + rest);
    QueryOfSum(f0, ['&']);
    QueryOfSum(f1, ['&']);
    QueryOfSum(seen, rest);
    assert rest == "" ==> seen + rest == seen;
    assert IsQuery(['&']) by {
      AmpIsQuery();
    }
    ProtocolsPartIs(e.protocol, PortSeen(e.port));
  }

  lemma AmpIsQuery()
    ensures IsQuery(['&'])
  {}

  lemma QueryPartsShape(p: Params)
    requires IsRequest(p)
    ensures var e, parts := Effective(p), QueryParts(p);
            && |parts| >= 4 && parts[0] == FixedParts()[0] && parts[1] == FixedParts()[1]
            && Join(parts[2..], '&') == ProtocolsPart(e.protocol, e.port) + ['&'] + Join(parts[3..], '&')
  {
    hide ProtocolsPart, ServersPart, DevicePart, DirectivesPart, FixedParts;
    var parts := QueryParts(p);
    assert parts[2..][1..] == parts[3..];
  }

  lemma UrlQuery(p: Params)
    requires IsRequest(p)
    ensures ReadUrl(GeneratorUrl(p)) == ReadQuery(Cut(Join(QueryParts(p), '&')))
  {
    UrlHasNoQuery();
    hide Join, QueryParts, Free, ReadQuery;
    var query := Join(QueryParts(p), '&');
    CutBehind(GENERATOR_URL + "?", query);
    FirstOfFree(GENERATOR_URL, "?" + Cut(query), {'?'});
    assert GENERATOR_URL + "?" + Cut(query) == GENERATOR_URL + ("?" + Cut(query));
  }

  lemma ReadPartsCons(part: string, rest: seq<string>)
    ensures ReadParts([part] + rest) ==
            match (ReadPart(part), ReadParts(rest))
            case (Some(pair), Some(pairs)) => Some([pair] + pairs)
            case _ => None
  {
    assert ([part] + rest)[1..] == rest;
  }

  lemma LookupCons(name: string, value: string, pairs: seq<(string, string)>, wanted: string)
    ensures Lookup([(name, value)] + pairs, wanted) == if name == wanted then value else Lookup(pairs, wanted)
  {
    assert ([(name, value)] + pairs)[1..] == pairs;
  }

  /** The names of the parts are all different. */
  lemma NamesDiffer()
    ensures "system" != "protocols" && "system" != "servers" && "system" != "device" && "system" != "openvpn_directives"
    ensures "download" != "protocols" && "download" != "servers" && "download" != "device" &&
            "download" != "openvpn_directives"
    ensures "protocols" != "servers" && "protocols" != "device" && "protocols" != "openvpn_directives"
    ensures "servers" != "device" && "servers" != "openvpn_directives" && "device" != "openvpn_directives"
  {
    assert "system"[0] == 's' && "device"[0] == 'd';
  }

  lemma FixedPairsFirst(f0: string, f1: string, f2: string, tail: seq<string>)
    requires ReadPart(f0) == Some(("system", "linux")) && ReadPart(f1) == Some(("download", "auto"))
    requires ReadParts([f0, f1, f2] + tail).Some? && (ReadPart(f2).Some? ==> ReadPart(f2).value.0 == "protocols")
    ensures ReadPart(f2).Some? && Lookup(ReadParts([f0, f1, f2] + tail).value, "protocols") == ReadPart(f2).value.1
  {
    hide ReadPart, Lookup, ReadParts;
    assert [f0, f1, f2] + tail == [f0] + ([f1] + ([f2] + tail));
    ReadPartsCons(f0, [f1] + ([f2] + tail));
    ReadPartsCons(f1, [f2] + tail);
    ReadPartsCons(f2, tail);
    NamesDiffer();
    var third := ReadParts([f2] + tail).value;
    var value := ReadPart(f2).value.1;
    LookupCons("protocols", value, ReadParts(tail).value, "protocols");
    LookupCons("download", "auto", third, "protocols");
    LookupCons("system", "linux", [("download", "auto")] + third, "protocols");
  }

  /** The port that is read is the decoded third field. */
  lemma PortRead(query: string, f0: string, f1: string, f2: string, tail: seq<string>, e: Request, d: Option<string>)
    requires Fields(query, AMP) == [f0, f1, f2] + tail && ReadQuery(query) == Some(e)
    requires ReadPart(f0) == Some(("system", "linux")) && ReadPart(f1) == Some(("download", "auto"))
    requires ReadPart(f2) == if d.None? then None else Some(("protocols", Protocols(e.protocol, d.value)))
    requires forall d :: ReadProtocols(Protocols(e.protocol, d)) == Some((e.protocol, d))
    ensures IsQuery(query) && d == Some(e.port)
  {
    hide Fields, ReadParts, Lookup, ReadPart, ReadProtocols, Protocols, IsQuery;
    FixedPairsFirst(f0, f1, f2, tail);
  }

  lemma ReadBackPort(p: Params)
    requires IsRequest(p) && IsProtocol(Effective(p).protocol)
    requires ReadUrl(GeneratorUrl(p)) == Some(Effective(p))
    ensures IsPlainPort(Effective(p).port)
  {
    var e := Effective(p);
    assert IsQuery(e.port) && Free(e.port, MARKS) ==> IsPlainPort(e.port);
    FixedPartsFacts();
    hide GeneratorUrl, ReadUrl, Join, QueryParts, Fields, IsQuery, ReadQuery, ReadPart, ReadProtocols, Protocols, Free,
      Effective, PortSeen, Cut, FixedParts, SeenPart, IsProtocol, PercentDecode, EndsAtHash, IsPlainPort, IsRequest;
    UrlQuery(p);
    SeenPartFacts(e);
    var rest := QuerySeen(p);
    var tail := QueryFields(p, rest);
    SeenIsQuery(e, rest);
    var d := PercentDecode(PortSeen(e.port));
    PortRead(Cut(Join(QueryParts(p), '&')), FixedParts()[0], FixedParts()[1], SeenPart(e), tail, e, d);
    SeenWhole(e.port);
  }

  /** What a reader makes of the protocols part. */
  lemma SeenPartFacts(e: Request)
    requires IsProtocol(e.protocol)
    ensures Free(e.port, MARKS) <==> PercentDecode(PortSeen(e.port)) == Some(e.port)
    ensures ReadPart(SeenPart(e)) == match PercentDecode(PortSeen(e.port)) case None => None
                                     case Some(d) => Some(("protocols", Protocols(e.protocol, d)))
    ensures forall d :: ReadProtocols(Protocols(e.protocol, d)) == Some((e.protocol, d))
  {
    PrefixFacts(e.protocol);
    PortSeenFacts(e.port);
    ProtocolsPartFacts(e.protocol, PortSeen(e.port));
    hide Protocols, ReadProtocols, IsProtocol, PortSeen, ReadPart, ProtocolsPart, PercentDecode;
    forall d ensures ReadProtocols(Protocols(e.protocol, d)) == Some((e.protocol, d)) {
      ReadProtocolsOf(e.protocol, d);
    }
  }

  /** The characters that a port can hold and reach the generator as they are. */
  predicate IsPlainPort(port: string) { IsQuery(port) && Free(port, MARKS) }

  lemma SeenWhole(port: string)
    requires Free(port, MARKS)
    ensures PortSeen(port) == port
  {
    FreeBoth(port);
    FirstOfFree(port, "", ENDS);
    assert port + "" == port;
  }

  /** The pairs that a well-formed query carries. */
  function Pairs(e: Request): (pairs: seq<(string, string)>) {
    [("system", "linux"), ("download", "auto"), ("protocols", Protocols(e.protocol, e.port)), ("servers", e.server)]
    + (if e.device != "" then [("device", e.device)] else [])
    + (if e.directives != "" then [("openvpn_directives", e.directives)] else [])
  }

  lemma PairsCarryRequest(e: Request)
    ensures Lookup(Pairs(e), "protocols") == Protocols(e.protocol, e.port)
    ensures Lookup(Pairs(e), "servers") == e.server
    ensures Lookup(Pairs(e), "device") == e.device
    ensures Lookup(Pairs(e), "openvpn_directives") == e.directives
  {
    hide Protocols, Lookup;
    NamesDiffer();
    var last := if e.directives != "" then [("openvpn_directives", e.directives)] else [];
    var behind := (if e.device != "" then [("device", e.device)] else []) + last;
    var v := Protocols(e.protocol, e.port);
    assert Pairs(e) ==
           [("system", "linux")] + ([("download", "auto")] + ([("protocols", v)] + ([("servers", e.server)] + behind)));
    forall name: string | name in {"protocols", "servers", "device", "openvpn_directives"}
      ensures Lookup(Pairs(e), name) ==
              if name == "protocols" then v else if name == "servers" then e.server else Lookup(behind, name)
    {
      var third := [("protocols", v)] + ([("servers", e.server)] + behind);
      LookupCons("system", "linux", [("download", "auto")] + third, name);
      LookupCons("download", "auto", [("protocols", v)] + ([("servers", e.server)] + behind), name);
      LookupCons("protocols", v, [("servers", e.server)] + behind, name);
      LookupCons("servers", e.server, behind, name);
    }
    OptionalPairs(e, last, behind);
  }

  lemma OptionalPairs(e: Request, last: seq<(string, string)>, behind: seq<(string, string)>)
    requires last == if e.directives != "" then [("openvpn_directives", e.directives)] else []
    requires behind == (if e.device != "" then [("device", e.device)] else []) + last
    ensures Lookup(behind, "device") == e.device && Lookup(behind, "openvpn_directives") == e.directives
  {
    NamesDiffer();
    if e.device != "" {
      assert behind[1..] == last;
    }
    if e.directives != "" {
      assert last[1..] == [];
    }
  }

  lemma EffectiveBytes(p: Params)
    requires IsRequest(p)
    ensures IsBytes(Effective(p).server) && IsBytes(Effective(p).device) && IsBytes(Effective(p).directives)
  {
  }

  lemma FreeBoth(s: string)
    requires Free(s, MARKS)
    ensures Free(s, ENDS) && Free(s, {'%'})
  {
  }

  lemma EncodedPart(name: string, value: string)
    requires Free(name, {'='} + ENDS) && IsBytes(value)
    ensures Free(Part(name, PercentEncode(value)), ENDS) &&
            ReadPart(Part(name, PercentEncode(value))) == Some((name, value))
  {
    DecodeInvertsEncode(value);
    ReadPartOf(name, PercentEncode(value));
    FreePart(name, PercentEncode(value));
    hide Free, ReadPart, PercentEncode, PercentDecode;
  }

  lemma FreePart(name: string, value: string)
    requires Free(name, {'='} + ENDS) && Free(value, ENDS)
    ensures Free(Part(name, value), ENDS)
  {
  }

  lemma NamesPlain()
    ensures Free("servers", {'='} + ENDS) && Free("device", {'='} + ENDS) && Free("openvpn_directives", {'='} + ENDS)
  {
  }

  predicate ReadsAs(parts: seq<string>, pairs: seq<(string, string)>) {
    && (forall i :: 0 <= i < |parts| ==> Free(parts[i], ENDS))
    && ReadParts(parts) == Some(pairs)
  }

  lemma {:induction false} ReadsAsConcat(
    parts: seq<string>, parts': seq<string>, pairs: seq<(string, string)>, pairs': seq<(string, string)>)
    requires ReadsAs(parts, pairs) && ReadsAs(parts', pairs')
    ensures ReadsAs(parts + parts', pairs + pairs')
    decreases |parts|
  {
    hide Free, ReadPart;
    if parts == [] {
      assert parts + parts' == parts' && pairs + pairs' == pairs';
    } else {
      ReadsAsConcat(parts[1..], parts', pairs[1..], pairs');
      ReadPartsCons(parts[0], parts[1..]);
      ReadPartsCons(parts[0], parts[1..] + parts');
      assert parts == [parts[0]] + parts[1..];
      assert parts + parts' == [parts[0]] + (parts[1..] + parts');
      assert pairs + pairs' == [pairs[0]] + (pairs[1..] + pairs');
    }
  }

  lemma OnePart(part: string, pair: (string, string))
    requires Free(part, ENDS) && ReadPart(part) == Some(pair)
    ensures ReadsAs([part], [pair])
  {
    ReadPartsCons(part, []);
    assert [part] + [] == [part] && [pair] + [] == [pair];
  }

  lemma NothingReadsAsNothing()
    ensures ReadsAs([], [])
  {}

  lemma QueryReadsAs(p: Params)
    requires IsRequest(p) && IsProtocol(Effective(p).protocol) && Free(Effective(p).port, MARKS)
    ensures ReadsAs(QueryParts(p), Pairs(Effective(p)))
  {
    var e := Effective(p);
    FixedPartsFacts();
    ProtocolsPartFacts(e.protocol, e.port);
    DecodePlain(e.port);
    FreeBoth(e.port);
    EffectiveBytes(p);
    NamesPlain();
    hide Free, ReadPart, FixedParts, ProtocolsPart, Protocols, Effective, IsBytes, PercentEncode, PercentDecode,
      IsProtocol,
      ReadsAs, IsRequest, ReadParts, QueryParts, Pairs;
    EncodedPart("servers", e.server);
    EncodedPart("device", e.device);
    EncodedPart("openvpn_directives", e.directives);
    JoinedReadsAs(p, e);
  }

  lemma JoinedReadsAs(p: Params, e: Request)
    requires IsRequest(p) && e == Effective(p) && IsBytes(e.server) && IsBytes(e.device) && IsBytes(e.directives)
    requires Free(FixedParts()[0], ENDS) && ReadPart(FixedParts()[0]) == Some(("system", "linux"))
    requires Free(FixedParts()[1], ENDS) && ReadPart(FixedParts()[1]) == Some(("download", "auto"))
    requires Free(ProtocolsPart(e.protocol, e.port), ENDS)
    requires ReadPart(ProtocolsPart(e.protocol, e.port)) == Some(("protocols", Protocols(e.protocol, e.port)))
    requires Free(ServersPart(e.server), ENDS) && ReadPart(ServersPart(e.server)) == Some(("servers", e.server))
    requires Free(DevicePart(e.device), ENDS) && ReadPart(DevicePart(e.device)) == Some(("device", e.device))
    requires Free(DirectivesPart(e.directives), ENDS) &&
             ReadPart(DirectivesPart(e.directives)) == Some(("openvpn_directives", e.directives))
    ensures ReadsAs(QueryParts(p), Pairs(e))
  {
    hide Free, ReadPart, FixedParts, ProtocolsPart, Protocols, ServersPart, DevicePart, DirectivesPart, Effective,
      IsBytes, ReadsAs;
    var f0, f1, f2, f3 := FixedParts()[0], FixedParts()[1], ProtocolsPart(e.protocol, e.port), ServersPart(e.server);
    OnePart(f0, ("system", "linux"));
    OnePart(f1, ("download", "auto"));
    OnePart(f2, ("protocols", Protocols(e.protocol, e.port)));
    OnePart(f3, ("servers", e.server));
    OnePart(DevicePart(e.device), ("device", e.device));
    OnePart(DirectivesPart(e.directives), ("openvpn_directives", e.directives));
    NothingReadsAsNothing();
    var device := if e.device != "" then [DevicePart(e.device)] else [];
    var devicePair := if e.device != "" then [("device", e.device)] else [];
    var directives := if e.directives != "" then [DirectivesPart(e.directives)] else [];
    var directivesPair := if e.directives != "" then [("openvpn_directives", e.directives)] else [];
    var first := [("system", "linux")] + [("download", "auto")];
    ReadsAsConcat([f0], [f1], [("system", "linux")], [("download", "auto")]);
    ReadsAsConcat([f0] + [f1], [f2], first, [("protocols", Protocols(e.protocol, e.port))]);
    var three := first + [("protocols", Protocols(e.protocol, e.port))];
    ReadsAsConcat([f0] + [f1] + [f2], [f3], three, [("servers", e.server)]);
    assert FixedParts() == [f0, f1];
    assert FixedParts() + [f2, f3] == [f0] + [f1] + [f2] + [f3];
    var four := [("system", "linux"), ("download", "auto"), ("protocols", Protocols(e.protocol, e.port)),
                ("servers", e.server)];
    assert four == first + [("protocols", Protocols(e.protocol, e.port))] + [("servers", e.server)];
    ReadsAsConcat(FixedParts() + [f2, f3], device, four, devicePair);
    ReadsAsConcat(FixedParts() + [f2, f3] + device, directives, four + devicePair, directivesPair);
  }

  lemma {:induction false} JoinIsQuery(parts: seq<string>)
    requires forall i :: 0 <= i < |parts| ==> IsQuery(parts[i])
    ensures IsQuery(Join(parts, '&'))
  {
    if |parts| > 1 {
      JoinIsQuery(parts[1..]);
      QueryOfSum(parts[0], ['&']);
      QueryOfSum(parts[0] + ['&'], Join(parts[1..], '&'));
    }
  }

  /** With a plain port the whole query consists of characters that it may hold. */
  lemma QueryIsQuery(p: Params)
    requires IsRequest(p) && IsProtocol(Effective(p).protocol) && IsQuery(Effective(p).port)
    ensures IsQuery(Join(QueryParts(p), '&'))
  {
    var e := Effective(p);
    EffectiveBytes(p);
    hide IsQuery, Effective, ProtocolsPart, ServersPart, DevicePart, DirectivesPart, Join, IsBytes, IsProtocol;
    ProtocolsPartIs(e.protocol, e.port);
    FixedPartsQuery();
    PartIsQuery("servers", e.server);
    PartIsQuery("device", e.device);
    PartIsQuery("openvpn_directives", e.directives);
    NamesQuery(e);
    JoinIsQuery(QueryParts(p));
  }

  lemma NamesQuery(e: Request)
    requires IsBytes(e.server) && IsBytes(e.device) && IsBytes(e.directives)
    ensures ServersPart(e.server) == Part("servers", PercentEncode(e.server))
    ensures DevicePart(e.device) == Part("device", PercentEncode(e.device))
    ensures DirectivesPart(e.directives) == Part("openvpn_directives", PercentEncode(e.directives))
  {
  }

  lemma FixedPartsQuery()
    ensures IsQuery(FixedParts()[0]) && IsQuery(FixedParts()[1])
  {
    assert Part("system", "linux") == "system=linux" && Part("download", "auto") == "download=auto";
  }

  lemma PartIsQuery(name: string, value: string)
    requires IsBytes(value) && forall i :: 0 <= i < |name| ==> IsUnreserved(name[i])
    ensures IsQuery(Part(name, PercentEncode(value)))
  {
    EncodeIsQuery(value);
    QueryOfSum(name, "=" + PercentEncode(value));
    QueryOfSum("=", PercentEncode(value));
    assert Part(name, PercentEncode(value)) == name + ("=" + PercentEncode(value));
  }

  /** Such a query is not cut, and splits into its parts. */
  lemma QueryNotCut(parts: seq<string>)
    requires parts != [] && forall i :: 0 <= i < |parts| ==> Free(parts[i], ENDS)
    requires IsQuery(Join(parts, '&'))
    ensures Cut(Join(parts, '&')) == Join(parts, '&') && Fields(Join(parts, '&'), AMP) == parts
  {
    CutFree(Join(parts, '&'));
    forall i | 0 <= i < |parts| ensures Free(parts[i], AMP) {
      FreeOfEnds(parts[i]);
    }
    hide Join, Fields, Free, Cut;
    FieldsOfJoin(parts, '&', AMP);
  }

  /**
   * Reading the URL back gives the request that was asked for exactly when the port consists of
   * characters that a query may hold and that neither end a value nor get decoded. The protocol is not
   * escaped either, but is compared with the two texts that it can be.
   */
  lemma UrlReadsBack(p: Params)
    requires IsRequest(p) && IsProtocol(Effective(p).protocol)
    ensures ReadUrl(GeneratorUrl(p)) == Some(Effective(p)) <==> IsPlainPort(Effective(p).port)
    ensures Effective(p) == Request(p.server.GetOr(""), p.device.GetOr(""), OrElse(p.protocol, "udp"),
                                    OrElse(p.port, "443"), p.customDirectives.GetOr(""))
  {
    EffectiveIs(p);
    if IsPlainPort(Effective(p).port) {
      var e := Effective(p);
      UrlQuery(p);
      QueryReadsAs(p);
      assert QueryParts(p) != [];
      QueryIsQuery(p);
      QueryNotCut(QueryParts(p));
      PairsCarryRequest(e);
      PrefixFacts(e.protocol);
      ReadProtocolsOf(e.protocol, e.port);
      hide GeneratorUrl, Join, QueryParts, Pairs, Fields, Cut, Lookup, ReadProtocols, Protocols, Free, Effective,
        IsQuery;
    } else if ReadUrl(GeneratorUrl(p)) == Some(Effective(p)) {
      ReadBackPort(p);
    }
  }

  lemma EffectiveIs(p: Params)
    ensures Effective(p) == Request(p.server.GetOr(""), p.device.GetOr(""), OrElse(p.protocol, "udp"),
                                    OrElse(p.port, "443"), p.customDirectives.GetOr(""))
  {
  }

  /** A port with a fragment in it takes the server, the device and the directives with it. */
  lemma HashLosesTheRest(p: Params)
    requires IsRequest(p) && IsProtocol(Effective(p).protocol)
    requires EndsAtHash(Effective(p).port) && IsPlainPort(PortSeen(Effective(p).port))
    ensures ReadUrl(GeneratorUrl(p)) ==
            Some(Request("", "", Effective(p).protocol, PortSeen(Effective(p).port), ""))
  {
    var e, query := Effective(p), Cut(Join(QueryParts(p), '&'));
    var seen := PortSeen(e.port);
    assert IsQuery(seen) && Free(seen, MARKS);
    FixedPartsFacts();
    hide GeneratorUrl, ReadUrl, Join, QueryParts, Fields, IsQuery, ReadQuery, ReadPart, ReadProtocols, Protocols, Free,
      Effective, PortSeen, Cut, FixedParts, SeenPart, IsProtocol, PercentDecode, EndsAtHash, IsPlainPort, IsRequest;
    UrlQuery(p);
    SeenPartFacts(e);
    DecodePlain(seen);
    FreeBoth(seen);
    var rest := QuerySeen(p);
    var tail := QueryFields(p, rest);
    SeenIsQuery(e, rest);
    HashRead(query, FixedParts()[0], FixedParts()[1], SeenPart(e), e.protocol, seen);
  }

  lemma HashRead(query: string, f0: string, f1: string, f2: string, protocol: string, port: string)
    requires IsQuery(query) && Fields(query, AMP) == [f0, f1, f2] + []
    requires ReadPart(f0) == Some(("system", "linux")) && ReadPart(f1) == Some(("download", "auto"))
    requires ReadPart(f2) == Some(("protocols", Protocols(protocol, port)))
    requires ReadProtocols(Protocols(protocol, port)) == Some((protocol, port))
    ensures ReadQuery(query) == Some(Request("", "", protocol, port, ""))
  {
    hide Fields, ReadParts, Lookup, ReadPart, ReadProtocols, Protocols, IsQuery;
    ThreePairs(f0, f1, f2, Protocols(protocol, port));
  }

  lemma ThreePairs(f0: string, f1: string, f2: string, value: string)
    requires ReadPart(f0) == Some(("system", "linux")) && ReadPart(f1) == Some(("download", "auto"))
    requires ReadPart(f2) == Some(("protocols", value))
    ensures ReadParts([f0, f1, f2] + []).Some?
    ensures var pairs := ReadParts([f0, f1, f2] + []).value;
            && Lookup(pairs, "protocols") == value
            && Lookup(pairs, "servers") == Lookup(pairs, "device") == Lookup(pairs, "openvpn_directives") == ""
  {
    hide ReadPart, Lookup;
    assert [f0, f1, f2] + [] == [f0] + ([f1] + ([f2] + []));
    ReadPartsCons(f0, [f1] + ([f2] + []));
    ReadPartsCons(f1, [f2] + []);
    ReadPartsCons(f2, []);
    NamesDiffer();
    hide ReadParts;
    forall name
      ensures Lookup([("system", "linux")] + ([("download", "auto")] + ([("protocols", value)] + [])), name) ==
              if name == "system" then "linux" else if name == "download" then "auto"
              else if name == "protocols" then value else ""
    {
      LookupCons("system", "linux", [("download", "auto")] + ([("protocols", value)] + []), name);
      LookupCons("download", "auto", [("protocols", value)] + [], name);
      LookupCons("protocols", value, [], name);
      LookupNone(name);
    }
  }

  lemma LookupNone(name: string)
    ensures Lookup([], name) == ""
  {}
}
