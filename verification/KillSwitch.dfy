/** The nftables table of the kill switch, and loading and deleting it. */
module KillSwitch {
  import opened Basics
  import opened Firewall
  import opened Network
  import opened Nftables

  /** The table, if it is loaded. */
  type Table = Option<Ruleset>

  /** How far loading a ruleset gets: the binary is installed, the file is written, `nft -f` succeeds. */
  datatype Nft = Nft(available: bool, wroteFile: bool, ran: bool) {
    predicate Loads() { available && wroteFile && ran }
  }

  /**
   * What the packet filter makes of the text that is generated for a profile; None when there is none or it is
   * refused.
   */
  function Generated(net: Net, profile: Option<string>, resolvConf: Option<string>, allowLan: bool)
    : (r: Option<Ruleset>)
  {
    match Rules(net, profile, resolvConf, allowLan)
    case None => None
    case Some(rules) => ReadRuleset(net, Render(rules))
  }

  /** Rules for a chain that is still there come behind its old ones. */
  function Added(table: Table, r: Ruleset): (r': Ruleset) {
    if table.None? then r else r.(rules := table.value.rules + r.rules)
  }

  /** Loading is all or nothing. */
  function Armed(table: Table, r: Option<Ruleset>, nft: Nft): (table': Table) {
    if r.Some? && nft.Loads() then Some(Added(table, r.value)) else table
  }

  function Disarmed(table: Table, deleted: bool): (r: Table) { if deleted then None else table }

  /** The kernel's side of the kill switch. */
  class PacketFilter {
    var table: Table

    constructor ()
      ensures table == None
    {
      table := None;
    }

    /** nm_airvpn_firewall_arm: what is loaded is what the packet filter reads in the generated text. */
    method Arm(net: Net, profile: Option<string>, resolvConf: Option<string>, allowLan: bool, nft: Nft)
      returns (ok: bool, loaded: Option<Ruleset>)
      modifies this
      ensures ok == (Generated(net, profile, resolvConf, allowLan).Some? && nft.Loads())
      ensures ok ==> loaded == Generated(net, profile, resolvConf, allowLan)
      ensures !ok ==> table == old(table)
      ensures table == Armed(old(table), Generated(net, profile, resolvConf, allowLan), nft)
    {
      hide Rules, ReadRuleset, Render;
      if !nft.available {
        return false, None;
      }
      var text := BuildRuleset(net, profile, resolvConf, allowLan);
      if text.None? {
        return false, None;
      }
      if !nft.wroteFile {
        return false, None;
      }
      loaded := ReadRuleset(net, text.value);
      if !nft.ran || loaded.None? {
        return false, None;
      }
      table := Some(Added(table, loaded.value));
      return true, loaded;
    }

    /** nm_airvpn_firewall_disarm: best effort. */
    method Disarm(deleted: bool)
      modifies this
      ensures table == Disarmed(old(table), deleted)
    {
      if deleted {
        table := None;
      }
    }
  }
}
