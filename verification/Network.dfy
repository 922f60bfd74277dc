/** Addresses, packets, and what the outside world says about names and addresses. */
module Network {
  import opened Basics
  import opened Glib
  import opened Numerals

  const GROUP: nat := 0x1_0000_0000_0000_0000_0000_0000_0000 // 2^112: an IPv6 address holds eight groups of 16 bits

  datatype Addr = V4(value: nat) | V6(value: nat) {
    predicate Valid() { value < if V4? then 0x1_0000_0000 else 0x1_0000 * GROUP }
  }

  /** The IPv4 address with the given four octets. */
  function Quad(a: nat, b: nat, c: nat, d: nat): (v: nat) { ((a * 256 + b) * 256 + c) * 256 + d }

  /** An outgoing packet; `ct` is the connection-tracking state of its flow. */
  datatype Packet = Packet(oif: string, ct: string, dst: Addr, proto: string, dport: nat)

  /**
   * The world outside. GLib reads and writes addresses in numbers with `addrOf` and `show`, and `lookup`
   * resolves a name (to nothing when it fails). The packet filter reads an address with `filterAddr`; it takes
   * the words for ports that `readsPort` says, and means by them the ports that `isPort` says. `behind` is what
   * lies behind the token vector of a line in memory.
   */
  datatype Net = Net(
    addrOf: string -> Option<Addr>,
    show: Addr -> string,
    lookup: string -> seq<Addr>,
    filterAddr: string -> Option<Addr>,
    readsPort: string -> bool,
    isPort: (string, nat) -> bool,
    behind: string -> Option<string>)

  /** What ends a word for the packet filter. */
  const PUNCTUATION: set<char> := {' ', '\t', '\n', ';', '#', '{', '}', ',', '"'}
  const SLASH: set<char> := {'/'}

  /** One word for the packet filter. */
  predicate IsWord(s: string) { s != "" && Free(s, PUNCTUATION) }

  /** An IPv4 address in numbers. */
  function Dotted(a: nat, b: nat, c: nat, d: nat): (s: string) {
    Decimal(a) + "." + Decimal(b) + "." + Decimal(c) + "." + Decimal(d)
  }

  /** GLib and the packet filter agree on addresses in numbers, wherever both read them. */
  ghost predicate AgreeOnAddresses(net: Net) {
    && (forall s: string :: net.addrOf(s).Some? ==>
          && IsWord(s) && Free(s, SLASH) && net.addrOf(s).value.Valid() && (':' in s <==> net.addrOf(s).value.V6?)
          && net.filterAddr(s) in {None, net.addrOf(s)})
    && (forall a: Addr :: a.Valid() ==> net.addrOf(net.show(a)) == net.filterAddr(net.show(a)) == Some(a))
    && (forall h: string, a: Addr :: a in net.lookup(h) ==> a.Valid())
  }

  /** The packet filter reads plain numerals as everyone does. */
  ghost predicate ReadsNumerals(net: Net) {
    && (forall a: nat, b: nat, c: nat, d: nat :: a < 256 && b < 256 && c < 256 && d < 256 ==>
          net.filterAddr(Dotted(a, b, c, d)) == Some(V4(Quad(a, b, c, d))))
    && (forall g: nat :: g < 0x1_0000 ==> net.filterAddr(Hex(g) + "::") == Some(V6(g * GROUP)))
    && (forall n: nat :: n < 0x1_0000 ==> net.readsPort(Decimal(n)))
    && (forall n: nat, port: nat :: n < 0x1_0000 ==> (net.isPort(Decimal(n), port) <==> port == n))
  }

  ghost predicate NetOk(net: Net) { AgreeOnAddresses(net) && ReadsNumerals(net) }
}
