# NetworkManager-airvpn: a verified model

This project models the parts of NetworkManager-airvpn whose correctness is spread over several functions, and proves what
they promise. `dafny verify dfyconfig.toml` checks all of it.

**The service daemon** (`Service`, `Plugin`, `ServiceEffects`, `ServiceSafety`, `ServiceOutcomes`, `KillSwitchSafety`,
`FetchSafety`, `ProfileFreshness`). `Service` gives, for every callback of the daemon, the state it leaves behind: the plugin's private
fields together with the world around them (the nftables table, the cache files, the fetches in flight, the child
processes). `Plugin` is the object whose methods update those fields in place, and every method is proved to do what
`Service` says. A run is any sequence of callbacks, with arbitrary outcomes of every outside call (`Env`), in any order in
which they can happen: timers fire while they are set, children report after they exit, fetches report while they are in
flight, and NetworkManager may connect, disconnect, change the state or dispose of the plugin at any time. The theorems
are about all runs.

- A process is started exactly past the supersede point, when it can be spawned and a kill switch that is wanted can be
  loaded. A connect asks the generator exactly when nothing usable is cached and there is a key. What every step leaves of
  connection, flags, timer, processes and fetches is said for all steps at once; in particular a process is told to end
  exactly by what ends its attempt, and by a timeout while it is connecting.
- While the current process was started with a kill switch, the table is loaded and holds its rules. If deleting the table
  always works, it holds exactly those: what the packet filter reads in the text that was generated. As long as no port of
  the profile falls apart into several words there, a packet leaves the machine exactly when the profile, the resolvers
  and the LAN setting of that attempt permit it.
- After an unexpected drop the table stays through any continuation, until `run_openvpn` reaches the point where it
  supersedes earlier state or the daemon is restarted; those two are the only ways out.
- The claim that every live process with a kill switch is the current one, and covered by the table, fails for two steps
  and for no others: the report of an old child that comes while a new one lives (`openvpn_watch_cb` ignores its `pid`
  argument), and a restart of the daemon, which deletes the table while a process of its predecessor lives. Over whole
  runs, the claim holds in every state if and only if the run contains neither. Two concrete runs, of five and of two
  steps, show where they lead: to a process that lives and has no table.
- An attempt that fails before it was connected leaves its own profile stale, and from a stale profile no connect starts a
  process before a fetch has been stored. A process started from the cache runs what an earlier fetch delivered for the
  same parameters.
- A fetch that was cancelled, or lost its connection, never does anything.

**Cache and generator request** (`Cache`, `Generator`, `Properties`). The cache is proved against histories of stores and
marks, with the exact effect of a store torn between its two writes. The cache key is injective when the first four fields
hold no `|`, it determines all five against every other parameter set exactly when none of the five holds one, and equal
keys give equal request URLs. Neither the protocol nor the port is escaped in the URL. The protocol is checked to be one
of two texts. The port is only checked to begin with a number in range, and the URL reads back as the request if and only if the
port consists of characters that a query may hold and holds neither `&` nor `%` (a `#` is no such character: it ends the
query, and takes the server with it). The port `443#x` goes through the check and does not reach the generator.

**The firewall** (`Network`, `Nftables`, `Firewall`, `ProfileText`, `RulesetText`, `RulesetReads`, `FirewallPolicy`, `KillSwitch`).
`Firewall` generates the text of the ruleset as the daemon does. `Nftables` is the other side: it breaks text into tokens
at blanks, `;`, `#`, `{`, `}`, `,` and quotes, reads table, chain, hook and policy, matches with their blocks and states,
and verdicts, and decides on packets by the first rule that matches and the policy. The theorems connect the two: what is
read is what the rules are meant to do if and only if no port in the profile holds one of those characters, and then it
accepts exactly the packets that are meant to get out. A profile with the port `443;accept#` is the input for the other
case: its ruleset accepts every packet.

**The vendored helpers** (`RandPerm`, `FindIndexes`, `DBusPath`, `EscapedSplit`, `StrSplit`, `StrBuf`, `StrvCleanup`,
`Utf8Escape`; `CString`, `Numerals`, `Glib` and `Basics` are vocabulary). Loops over buffers and arrays are methods over
arrays, each proved against a simple function or predicate.

**The editor's "Apply & Reconnect"** (`Reconnect`, `Editor`): every context is freed exactly once, after at most 25
reports of which at most 21 are polls, and a connection is activated exactly when it was saved while active, was deactivated, and is seen to be gone within
twenty-one polls.

## Reading notes

- The calls to libnm's `failure` and `disconnect` are the last thing their callers do, so whatever libnm calls back is a
  later step of the run. libnm itself is not part of this model.
- `nft -f` is all or nothing, and adds to a table that is still there. `nft delete` may fail.
- A line such as `remote host`, without a port, has two tokens, and `src/nm-airvpn-firewall.c:94` then reads one slot
  behind the vector's terminator. What lies there is a parameter (`Net.behind`); `Firewall.ParseRemotes` reports whether
  every read was inside of its vector, which is the case if and only if there is no such line.
- GLib and the packet filter both read addresses. Where GLib takes one that the packet filter does not (such as one with a
  zone), or a port is a word that it does not know, the packet filter refuses the text, and openvpn is not started. What
  they are taken to agree on is `NetOk`: addresses in numbers, and that numerals mean what they say.
- `ch < ' '` in the escaper (`shared/nm-utils/nm-shared-utils.c:1104`) also catches the bytes from 128 on where `char` is
  signed. Signedness is a parameter (`Flags.charSigned`), and the theorems hold for both.
- The comment above `nm_utils_dbus_path_cmp` speaks of a total order. The order is total among paths of equal prefix
  length; across prefix lengths it is not transitive, and `DBusPath.TransitiveUnlessWedge` says exactly when.
- A meta file counts as present when it can be loaded; an absent time reads as 0 and an absent flag as false, as in
  GKeyFile.
- Fetches and children are named by numbers. A new child's number is not that of a child which has not been reaped. A
  restarted daemon starts without fetches and does not watch the children that are left.

## Model

| member | source | states |
|---|---|---|
| KillSwitchSafety.GuardedThroughout | src/nm-airvpn-firewall.c:189-291 | over any continuation in which a process spawned with a kill switch stays the current one and deletes work, the ruleset in the packet filter accepts a packet if and only if the profile, resolvers and LAN setting of its spawn permit it, unless a port in the profile falls apart |
| KillSwitchSafety.SpawnedGuard | src/nm-airvpn-service.c:343-382 | the same at the moment of the spawn: what the packet filter read is in the table, and nothing else is |
| KillSwitchSafety.RunTableExact | src/nm-airvpn-service.c:130-162 | over every run in which deletes work, the table is loaded if and only if the plugin thinks so, and equals the rules of the current attempt |
| KillSwitchSafety.SpawnDetails | src/nm-airvpn-service.c:258-382 | a process becomes current only behind the supersede point, with the current profile, a connect timer, and armed rules if the connection wants a kill switch |
| ServiceOutcomes.SpawnsExactly | src/nm-airvpn-service.c:258-382 | a step starts a process if and only if it gets past the supersede point, a process can be spawned and, for a connection that says yes to the kill switch, there is a ruleset and it loads; its number is then the one that was given, and `run_openvpn` says so |
| ServiceOutcomes.ConnectExactly | src/nm-airvpn-service.c:442-518 | a connect leaves a fetch for its own connection and parameters in flight if and only if it is valid, nothing usable is cached and there is a key; it succeeds if and only if it does so or starts a process; an invalid one changes nothing |
| ServiceOutcomes.StepOutcome | src/nm-airvpn-service.c:130-597 | after any step: which connection, whose profile an early failure marks, the started flag, the timer, the current process, a pending drop, which children there are, which of them were told to end, and which fetches are in flight or cancelled |
| KillSwitchSafety.ChildKept | src/nm-airvpn-service.c:176-218 | no step changes the profile or the rules of a child that stays, nor brings it back to life, nor watches it again |
| KillSwitchSafety.FailedAttemptReleases | src/nm-airvpn-service.c:346-370 | an attempt that fails behind the supersede point leaves no table, so nothing stays blocked |
| KillSwitchSafety.DisconnectReleases | src/nm-airvpn-service.c:155-158 | after a disconnect or at the end of the plugin the table is there if and only if it was loaded and a drop is pending |
| KillSwitchSafety.TimeoutEndsProcess | src/nm-airvpn-service.c:246-253 | a timeout before the started state always finds a process and tells it to end |
| KillSwitchSafety.DropStep | src/nm-airvpn-service.c:155-158 | with a drop pending, a step ends it if and only if it reaches the supersede point or restarts the daemon, and otherwise leaves the table as it is |
| KillSwitchSafety.DropKept | src/nm-airvpn-service.c:343-349 | after an unexpected drop the table is unchanged by any continuation without those two |
| KillSwitchSafety.DropKeepsBlocking | src/nm-airvpn-service.c:204-214 | when the process of a started attempt fails, its rules are still loaded after any such continuation |
| KillSwitchSafety.StepTracked | src/nm-airvpn-service.c:199-202 | a step keeps "every live process with a kill switch is the current one" if and only if it is neither the report of another child while such a process is current, nor a restart while one lives |
| KillSwitchSafety.StepCovered | src/nm-airvpn-service.c:720-722 | after one step from there such a process lacks its rules in the table if and only if the step is a restart that deletes it |
| KillSwitchSafety.RunTrackedExactly | src/nm-airvpn-service.c:176-202 | over every run: it holds in every state if and only if no step of the run is one of the two |
| KillSwitchSafety.RunCoversLive | src/nm-airvpn-service.c:374-382 | and then every live process with a kill switch has its rules in the table, whichever daemon started it |
| KillSwitchSafety.WatchingFirst | src/nm-airvpn-service.c:374-382 | no report is late in a run that spawns no process before every earlier end was reported |
| KillSwitchSafety.LateWatchUnguards | src/nm-airvpn-service.c:176-202 | after every late report the process lives on forgotten, and a disconnect takes the table from it if and only if no drop is pending by then |
| KillSwitchSafety.LateWatchRunUnguards | src/nm-airvpn-service.c:176-202 | a run of five steps, possible for every connection with a kill switch and a valid profile, that ends with a live process and no table |
| KillSwitchSafety.AbandonRunUnguards | src/nm-airvpn-service.c:720-722 | so does a run of two, a connect and a restart of the daemon |
| ServiceSafety.StepInv | src/nm-airvpn-service.c:130-597 | every callback keeps the invariant: a timer needs a process, a live fetch is the current one and excludes a process, and an armed attempt has its rules loaded |
| ServiceSafety.RunKeepsInv | src/nm-airvpn-service.c:130-597 | so does every run |
| ServiceSafety.ReachableGuard | src/nm-airvpn-service.c:351-361 | from the start of the daemon with any table and files: an active kill switch means a loaded table, and an attempt with a kill switch has its rules in it |
| ServiceSafety.ReachableFetches | src/nm-airvpn-service.c:493-498 | from the start: at most one fetch that is not cancelled, beside which there is neither process nor timer |
| ServiceSafety.FetchedInv | src/nm-airvpn-service.c:384-440 | the end of a fetch keeps the invariant, whether it stores, falls back, fails or was cancelled |
| ServiceSafety.CleanupInv | src/nm-airvpn-service.c:130-162 | cleaning up keeps the invariant and leaves neither process nor fetch |
| ServiceEffects.UnlessSuperseding | src/nm-airvpn-service.c:258-349 | every step short of the supersede point starts no process, revives none, and drops the table only if it was active with no drop pending, or on a restart |
| ServiceEffects.RunHasEffect | src/nm-airvpn-service.c:258-382 | whether it succeeds or not, `run_openvpn` leaves connection, files and fetches alone, ends a pending drop if openvpn is installed, and adds at most the one child with the wanted rules |
| FetchSafety.DoomedFetchDoesNothing | src/nm-airvpn-service.c:394-404 | a fetch once cancelled or left without its connection stores nothing, starts nothing and leaves the table alone, however much later it reports |
| FetchSafety.DisconnectDooms | src/nm-airvpn-service.c:140-143 | after a disconnect this holds of every earlier fetch |
| FetchSafety.StoredAsRequested | src/nm-airvpn-service.c:406-411 | a profile is stored only for the connection and parameters it was requested for |
| FetchSafety.StepNotStarted | src/nm-airvpn-service.c:569-578 | a step keeps "no fetch while started" if and only if it is not a report of the started state during a fetch |
| FetchSafety.RunNotStarted | src/nm-airvpn-service.c:569-590 | if the started state is only reported while there is a process, no fetch is ever in flight while started |
| ProfileFreshness.EarlyFailureMarks | src/nm-airvpn-service.c:204-208 | an error exit, signal, timeout or disconnect before the started state leaves the current profile unusable without a fetch, if the mark can be written |
| ProfileFreshness.EarlyFailureMarksItsOwn | src/nm-airvpn-service.c:552-557 | that profile is the one of the process itself |
| ProfileFreshness.DropLeavesFiles | src/nm-airvpn-service.c:209-214 | once started, only the end of a fetch changes the files |
| ProfileFreshness.StaleUntilFetched | src/nm-airvpn-service.c:476-498 | from a stale profile on, in any run without a stored fetch for that connection, no connect starts a process for it and it stays stale |
| ProfileFreshness.RunIsHistory | src/nm-airvpn-service.c:409-417 | the cache after a run is what the run's stores and marks, in order, make of it |
| ProfileFreshness.HitsServeFetched | src/nm-airvpn-service.c:478-481 | a process started without a fetch runs the profile last stored for the same parameters, at most 90 days old and unmarked since, unless a store was torn after it |
| ProfileFreshness.StoresAreFetched | src/nm-airvpn-service.c:396-411 | every store in that history was delivered by a fetch that was not cancelled, for the same connection and parameters |
| Plugin.Plugin.constructor | src/nm-airvpn-service.c:720-728 | a new daemon has deleted a left-over table if that works, keeps the files, has an empty state, and does not watch the processes that an earlier one left |
| Plugin.Plugin.CleanupPlugin | src/nm-airvpn-service.c:130-162 | the whole state after cleaning up, with the table kept when a drop is pending |
| Plugin.Plugin.MarkStaleAndFail | src/nm-airvpn-service.c:164-174 | the files after marking the current profile |
| Plugin.Plugin.OpenvpnWatchCb | src/nm-airvpn-service.c:176-218 | the whole state after a child's end, for every kind of status and whichever child it is |
| Plugin.Plugin.ConnectTimeoutCb | src/nm-airvpn-service.c:240-256 | the whole state after a timeout, before and after the started state |
| Plugin.Plugin.RunOpenvpn | src/nm-airvpn-service.c:258-382 | result and whole state for every failure point: no binary, superseding, arming, spawning |
| Plugin.Plugin.FetchDoneCb | src/nm-airvpn-service.c:384-440 | the whole state after a fetch, cancelled, late, stored, torn or failed with and without a fallback |
| Plugin.Plugin.ConnectCommon | src/nm-airvpn-service.c:442-499 | result and whole state for every outcome of a connect |
| Plugin.Plugin.RealConnect | src/nm-airvpn-service.c:501-505 | result and whole state of a plain connect |
| Plugin.Plugin.RealConnectInteractive | src/nm-airvpn-service.c:507-518 | result and whole state of an interactive connect, which is marked as such only on success |
| Plugin.Plugin.RealNewSecrets | src/nm-airvpn-service.c:563-567 | result and whole state of a connect with new secrets |
| Plugin.Plugin.RealDisconnect | src/nm-airvpn-service.c:547-561 | the whole state after a disconnect, with the profile marked if the process was still connecting |
| Plugin.Plugin.StateChangedCb | src/nm-airvpn-service.c:569-590 | the whole state after each reported state |
| Plugin.Plugin.DisposeObject | src/nm-airvpn-service.c:592-598 | disposing cleans up |
| KillSwitch.PacketFilter.Arm | src/nm-airvpn-firewall.c:253-291 | the table gains the rules that the packet filter reads in the generated text, or nothing changes and the result says so |
| KillSwitch.PacketFilter.Disarm | src/nm-airvpn-firewall.c:292-304 | the table is gone if deleting works |
| FirewallPolicy.AcceptedExactly | src/nm-airvpn-firewall.c:189-229 | the ruleset that is read from the generated text, with its policy and verdicts, accepts a packet if and only if it leaves by lo or tun*, belongs to an established flow, goes to a listed resolver on port 53, reaches a listed remote, or stays on the LAN when that is allowed |
| FirewallPolicy.TcpRemotesExactly | src/nm-airvpn-firewall.c:110-187 | packets to a remote whose protocol begins with tcp are accepted by tcp, and by udp if and only if something other than a tcp remote lets them out |
| FirewallPolicy.GeneratedAsMeant | src/nm-airvpn-firewall.c:189-229 | a text of readable words means what its rules are meant to do if and only if no remote of the profile gives a port with a quote, semicolon, hash, comma or brace in it |
| FirewallPolicy.GeneratedExactly | src/nm-airvpn-firewall.c:189-229 | with such ports the packet filter takes the text if and only if there is one and it can read every address and port in it |
| FirewallPolicy.VerdictInProfile | src/nm-airvpn-firewall.c:154-187 | the profile of one line `remote address port;accept#` makes a ruleset that accepts every packet |
| FirewallPolicy.RefusedExactly | src/nm-airvpn-firewall.c:195-217 | no ruleset is generated if and only if the profile is unreadable, lists no remote, or lists one that does not resolve |
| FirewallPolicy.DefaultIs | src/nm-airvpn-firewall.c:65-78 | the default protocol is that of the last `proto` line wherever it stands, udp without one, and no other |
| FirewallPolicy.RemotesAreListed | src/nm-airvpn-firewall.c:80-97 | the parsed remotes are exactly those of the `remote` lines |
| ProfileText.RemoteLineReads | src/nm-airvpn-firewall.c:80-97 | a `remote` line with any blanks around it and single blanks or tabs in it names host, port and protocol; an empty port is 443, an empty protocol the default, and without a host it does not count |
| ProfileText.ProtoLineReads | src/nm-airvpn-firewall.c:65-78 | likewise a `proto` line names the default protocol |
| ProfileText.NameserverReads | src/nm-airvpn-firewall.c:130-151 | likewise a `nameserver` line names an address, and counts if it is one in numbers |
| ProfileText.LinesOfText | src/nm-airvpn-firewall.c:63-63 | a text of lines is read as these lines |
| FirewallPolicy.RemotesMatch | src/nm-airvpn-firewall.c:154-187 | the rules of the remotes match a packet if and only if some remote's address, base protocol and port do |
| FirewallPolicy.ResolversMatch | src/nm-airvpn-firewall.c:124-152 | the rules of resolv.conf match exactly udp and tcp to port 53 of the listed addresses |
| FirewallPolicy.LanMatch | src/nm-airvpn-firewall.c:220-224 | the LAN rules match exactly the three blocks of section 3 of RFC 1918, fe80::/10 and fc00::/7, by first and last address |
| Firewall.ParseRemotes | src/nm-airvpn-firewall.c:51-108 | two passes over lines stripped in place, and a list built by prepending and reversing, give the remotes in file order, and every slot read lies in its vector if and only if no `remote` line has two words only |
| Firewall.BareRemoteReadsBehind | src/nm-airvpn-firewall.c:94-95 | `remote host` is such a line for every host, and its protocol is what lies behind the vector |
| Firewall.BehindDoesNotMatter | src/nm-airvpn-firewall.c:80-97 | without such a line the remotes depend on the profile alone |
| Firewall.AppendResolverRules | src/nm-airvpn-firewall.c:124-152 | the text grows by the rendered resolver rules |
| Firewall.AppendRemoteRules | src/nm-airvpn-firewall.c:154-187 | the text grows by the rules of one remote, and failure means that it does not resolve |
| Firewall.BuildRuleset | src/nm-airvpn-firewall.c:189-229 | the text is the rendering of the rules, or none |
| RulesetReads.ReadInvertsRender | src/nm-airvpn-firewall.c:199-228 | breaking a generated text into tokens and reading its header, policy, matches, blocks and verdicts gives what its rules are meant to do, where every port is one word |
| RulesetReads.ReadsBackExactly | src/nm-airvpn-firewall.c:199-228 | for readable words it does so if and only if every port is one word |
| RulesetReads.VerdictInPort | src/nm-airvpn-firewall.c:169-182 | what is read instead, anywhere in a ruleset, when a port holds `;accept#`: its rule without a verdict, and one that accepts everything |
| Cache.HitExactly | src/nm-airvpn-cache.c:84-109 | after any history a profile exists for parameters if and only if the last complete store was for the same ones |
| Cache.ValidExactly | src/nm-airvpn-cache.c:111-118 | it is valid if and only if it exists, was not marked since, and its positive time is at most 90 days old |
| Cache.HitServesStored | src/nm-airvpn-cache.c:149-184 | without a torn store since, the file holds the text of the last complete store |
| Cache.TornStores | src/nm-airvpn-cache.c:172-183 | with torn stores it does so if and only if the last of them wrote the very same text |
| Cache.TornStoreMixesUp | src/nm-airvpn-cache.c:172-183 | one torn store after a complete one serves the new text as valid for the old parameters |
| Cache.MetaHistory | src/nm-airvpn-cache.c:175-201 | the meta file is that of the last complete store, stale if and only if it was marked later |
| Cache.ConfigHistory | src/nm-airvpn-cache.c:172-173 | the profile is the one written last, complete or torn |
| Cache.StateDir.CheckCache | src/nm-airvpn-cache.c:84-135 | the check answers existence or validity, as asked |
| Cache.StateDir.Put | src/nm-airvpn-cache.c:149-184 | the files after a store that stops at any of its three points |
| Cache.StateDir.SetStale | src/nm-airvpn-cache.c:186-201 | the files after a mark, which needs a readable meta file |
| Generator.KeyInjective | src/nm-airvpn-cache.c:48-60 | without a pipe character in the first four fields, equal keys mean equal fields, absent and empty being the same |
| Generator.KeyDeterminesExactly | src/nm-airvpn-cache.c:53-58 | a key belongs to no other parameters if and only if none of the five fields holds a pipe character |
| Generator.KeyReadsBack | src/nm-airvpn-cache.c:53-58 | split at its pipe characters, a key of fields without any lists server, device, protocol, port and directives in this order, absent ones as empty |
| Generator.EqualKeysEqualUrls | src/nm-airvpn-api.c:222-255 | equal keys give byte-identical URLs |
| Generator.BuildGeneratorUrl | src/nm-airvpn-api.c:222-255 | the URL is the fixed base and the joined parts, optional ones only when set |
| Generator.UrlInFull | src/nm-airvpn-api.c:222-255 | the URL in full, with udp and 443 where protocol and port are absent or empty, and device and directives only when they are not |
| Generator.EncodedExactly | src/nm-airvpn-api.c:238-252 | the escaping writes nothing but unreserved characters (section 2.3 of RFC 3986) and triplets with upper-case digits, and leaves a text as it is if and only if it has no others |
| Generator.DecodeInvertsEncode | src/nm-airvpn-api.c:238-252 | percent-decoding (section 2.1 of RFC 3986) inverts the escaping, and escaped text has neither `&` nor `#` |
| Generator.UrlReadsBack | src/nm-airvpn-api.c:230-252 | reading the URL by sections 3.4 and 3.5 of RFC 3986, up to the fragment, gives the effective server, device, protocol, port and directives if and only if the port consists of query characters other than `&` and `%` |
| Generator.HashLosesTheRest | src/nm-airvpn-api.c:236-252 | with a `#` in the port the request arrives with the port in front of it and without server, device and directives |
| Properties.CheckedPortReadsBack | shared/nm-airvpn-properties.c:145-157 | a port that goes through the check reaches the generator if and only if it does not begin with a blank and the tail behind its number consists of such characters |
| Properties.CheckIgnoresTail | shared/nm-airvpn-properties.c:145-157 | digits go through the check if and only if their value is a port, with any tail behind them |
| Properties.PortCheckExactly | shared/nm-airvpn-properties.c:145-157 | of blanks, a sign, digits and a tail, for every text: the check passes if and only if the sign is no minus and the value of the digits is from 1 to 65535 |
| Properties.HashPassesCheck | shared/nm-airvpn-properties.c:145-157 | the port 443#x goes through the check, and with it the request arrives without its server |
| Reconnect.StepInv | properties/nm-airvpn-editor.c:292-505 | every callback keeps the invariant of the protocol |
| Reconnect.FreedExactlyOnce | properties/nm-airvpn-editor.c:292-320 | in every run: busy if and only if there is a context, then exactly one; freed once when gone and never before; and meanwhile the editor is not disposed of, its operation not cancelled and its UUID kept |
| Reconnect.Bounded | properties/nm-airvpn-editor.c:370-393 | a context sees at most 21 polls and at most 25 reports, after which it has been freed |
| Reconnect.Progress | properties/nm-airvpn-editor.c:395-478 | in every run a context that is there waits for an operation whose report, with any result, continues the run |
| Reconnect.ActivatedBecause | properties/nm-airvpn-editor.c:370-440 | activation follows a commit that succeeded while active and a later poll that found the connection gone |
| Reconnect.StageExactly | properties/nm-airvpn-editor.c:352-505 | in every run a context waits for its client from the click on, and for each further operation exactly from the successful report of the one before until its own; it polls on for up to twenty ticks that see the connection active, and activates once a tick does not |
| Reconnect.SuccessActivates | properties/nm-airvpn-editor.c:370-478 | from every state with a new context, a ready client, a save while active, a deactivation and at most twenty ticks that see the connection active are a run; a tick that then sees it gone activates it, and one more that does not gives up after the twentieth |
| Editor.AirvpnEditor.ButtonClicked | properties/nm-airvpn-editor.c:480-505 | a click starts one context, or nothing when busy or not saved yet |
| Editor.AirvpnEditor.ClientReady | properties/nm-airvpn-editor.c:442-478 | the whole state for each way on or out |
| Editor.AirvpnEditor.CommitDone | properties/nm-airvpn-editor.c:413-440 | the whole state after the save |
| Editor.AirvpnEditor.DeactivateDone | properties/nm-airvpn-editor.c:395-411 | the whole state after the deactivation |
| Editor.AirvpnEditor.PollDeactivated | properties/nm-airvpn-editor.c:370-393 | the whole state after a tick, and that the timer goes on exactly while it polls |
| Editor.AirvpnEditor.ActivateDone | properties/nm-airvpn-editor.c:352-368 | the context is freed either way |
| Editor.AirvpnEditor.CtxFinish | properties/nm-airvpn-editor.c:292-320 | the whole state after freeing, disposal included when it held the last reference |
| Editor.AirvpnEditor.FindActive | properties/nm-airvpn-editor.c:335-350 | the first active connection with the editor's UUID, and none exactly when there is none |
| Editor.AirvpnEditor.Dispose | properties/nm-airvpn-editor.c:861-895 | an operation in flight is cancelled and the UUID cleared |
| RandPerm.RandPerm | shared/nm-utils/nm-test-utils.h:866-906 | the array ends as the shuffle of its input by the draws |
| RandPerm.ShuffledPermutes | shared/nm-utils/nm-test-utils.h:866-906 | the shuffle is a permutation of its input |
| RandPerm.DrawsBijectToPermutations | shared/nm-utils/nm-test-utils.h:866-906 | for distinct elements an order is reached if and only if it is a permutation, and by one sequence of draws only |
| FindIndexes.FindAllIndexes | shared/nm-utils/nm-test-utils.h:1017-1054 | the indexes are the greedy matching, injective on matches, and the result counts them |
| FindIndexes.GreedyTakesFirst | shared/nm-utils/nm-test-utils.h:1030-1050 | each needle gets the first element that equals it and is not taken yet, and -1 exactly without one |
| FindIndexes.GreedyIsMaximum | shared/nm-utils/nm-test-utils.h:1017-1054 | when matching compares keys, greedy matches as many as the multisets of keys share, and no matching has more |
| FindIndexes.GreedyIsMaximumExactly | shared/nm-utils/nm-test-utils.h:1017-1054 | a comparison makes greedy a maximum matching on all inputs if and only if elements that share one needle share all |
| FindIndexes.GreedyNotMaximumInGeneral | shared/nm-utils/nm-test-utils.h:1017-1054 | equality up to a wildcard on either side does not: an input where greedy finds one of two |
| DBusPath.PathCmpAntisymmetric | shared/nm-utils/nm-shared-utils.c:588-650 | on all pairs, NULL included: antisymmetric, and 0 exactly for equal paths |
| DBusPath.TotalOrderOnFamily | shared/nm-utils/nm-shared-utils.c:588-650 | paths of equal prefix length are totally ordered |
| DBusPath.ComponentsOrdered | shared/nm-utils/nm-shared-utils.c:588-650 | below one prefix the components that are no numbers come first, as in a dictionary, and then the numbers by value; NULL comes before every path |
| DBusPath.PathsByText | shared/nm-utils/nm-shared-utils.c:604-618 | paths that are not below one prefix are ordered as in a dictionary |
| DBusPath.TransitiveUnlessWedge | shared/nm-utils/nm-shared-utils.c:604-608 | in general transitivity fails if and only if one path's text lies between two others that numbers and texts order differently |
| DBusPath.NotTransitive | shared/nm-utils/nm-shared-utils.c:604-608 | /x/8, /x/10 and /x/5/z go round in a circle |
| DBusPath.ComponentNumeric | shared/nm-utils/nm-shared-utils.c:563-586 | the numbers are exactly the numerals without leading zeros that fit 64 bits |
| DBusPath.CanonicalInjective | shared/nm-utils/nm-shared-utils.c:563-586 | such numerals are equal when their values are |
| EscapedSplit.StrSplit | shared/nm-utils/nm-test-utils.h:241-282 | the string is split in place into its tokens, and memory behind it is left alone |
| EscapedSplit.TakeToken | shared/nm-utils/nm-test-utils.h:250-276 | one token is unescaped onto the front of its own text and terminated, nothing beyond what was read is written |
| EscapedSplit.SplitInvertsEscape | shared/nm-utils/nm-test-utils.h:241-282 | splitting escaped tokens that each end in a delimiter gives the tokens back, empty ones included |
| EscapedSplit.SplitKeepsLast | shared/nm-utils/nm-test-utils.h:241-282 | behind them a last token without a delimiter is a token too, and so is a single backslash |
| StrSplit.StrSplitSet | shared/nm-utils/nm-shared-utils.c:675-764 | NULL exactly without a word; else a NULL-terminated table of the words, all inside the one allocation that is returned, through every growth and the final rebase |
| StrSplit.RunsAreTheMaximalRuns | shared/nm-utils/nm-shared-utils.c:655-674 | the words are exactly the maximal non-empty delimiter-free runs, in order |
| StrSplit.Grow | shared/nm-utils/nm-shared-utils.c:719-729 | the new, larger block holds the entries of the old table; the text stays in the first block until the end |
| StrSplit.RebaseTable | shared/nm-utils/nm-shared-utils.c:752-761 | every pointer into the first block becomes one to the same offset in the final block |
| StrBuf.ShowsTruncated | shared/nm-utils/nm-shared-utils.c:41-116 | a buffer of n bytes holds the first n - 1 characters of everything appended, and has 0 bytes left exactly when text was lost |
| StrBuf.Cursor.AppendC | shared/nm-utils/nm-shared-utils.c:41-59 | appends one character to what the window shows |
| StrBuf.Cursor.AppendStr | shared/nm-utils/nm-shared-utils.c:61-93 | appends a string, NULL counting as empty |
| StrBuf.Cursor.Append | shared/nm-utils/nm-shared-utils.c:95-116 | appends formatted text |
| StrBuf.StrQuote | shared/nm-utils/nm-shared-utils.c:140-189 | the buffer holds the quoted text, or what fits of it |
| StrBuf.QuotedMarksTruncation | shared/nm-utils/nm-shared-utils.c:118-139 | the last character is `^` exactly when it was cut and `"` exactly when not |
| StrBuf.Flags2Str | shared/nm-utils/nm-shared-utils.c:217-272 | the buffer holds the truncated list of names and residue |
| StrBuf.ChosenPartitions | shared/nm-utils/nm-shared-utils.c:246-262 | the named flags are disjoint, make up the input together with the residue, and leave no descriptor wholly inside it |
| StrBuf.ChosenInTurn | shared/nm-utils/nm-shared-utils.c:246-256 | each descriptor in turn is taken if and only if all its bits are left by those before it |
| StrBuf.FlagsReadBack | shared/nm-utils/nm-shared-utils.c:246-262 | from the text of names that can be told apart one can tell the flags: the named bits are among them and the numeral is the rest |
| StrBuf.ZeroNameExactly | shared/nm-utils/nm-shared-utils.c:234-242 | without flags the text is the name of the first descriptor without bits, and empty if there is none |
| Numerals.HexRoundTrip | shared/nm-utils/nm-shared-utils.c:258-262 | the residue's numeral reads back as the residue |
| StrvCleanup.StrvFindFirst | shared/nm-utils/nm-shared-utils.c:779-810 | the first match, by text or for NULL, and -1 exactly without one |
| StrvCleanup.StrvCleanup | shared/nm-utils/nm-shared-utils.c:812-839 | the wanted strings stay in place and order, stripped if asked; every other one is freed once |
| StrvCleanup.KeptTexts | shared/nm-utils/nm-shared-utils.c:823-836 | a text survives if and only if it occurs and is not an unwanted empty one, and once if repeats are unwanted |
| StrvCleanup.KeptAndDropped | shared/nm-utils/nm-shared-utils.c:823-836 | kept and freed strings together are the input |
| StrvCleanup.KeptInOrder | shared/nm-utils/nm-shared-utils.c:823-836 | the survivors keep their order, and of equal strings the first survives |
| StrvCleanup.CleanedIdempotent | shared/nm-utils/nm-shared-utils.c:812-839 | cleaning up again changes nothing |
| Utf8Escape.Utf8SafeEscape | shared/nm-utils/nm-shared-utils.c:1074-1121 | the result is valid UTF-8 and unescapes to the input; a copy is made exactly when it differs |
| Utf8Escape.EscapeCopy | shared/nm-utils/nm-shared-utils.c:1094-1117 | the loop with its revalidations ends and produces the escaped form |
| Utf8Escape.EscapedIsUtf8 | shared/nm-utils/nm-shared-utils.c:1074-1121 | the escaped form is valid UTF-8 (section 4 of RFC 3629) for every byte string and flag set |
| Utf8Escape.UnescapeInvertsEscape | shared/nm-utils/nm-shared-utils.c:1074-1134 | unescaping inverts escaping, for every byte string and flag set |
| Utf8Escape.EscapedUnchanged | shared/nm-utils/nm-shared-utils.c:1083-1092 | the text stays as it is if and only if it is valid UTF-8 without a backslash and without a byte in the ranges that the flags are about |
| Utf8Escape.FlagsKept | shared/nm-utils/nm-shared-utils.c:1103-1108 | no byte that a flag is about is in the result: below 32 for control characters (and from 128 on where char is signed), from 127 on for the other |
| Utf8Escape.EscapedConcat | shared/nm-utils/nm-shared-utils.c:1094-1117 | valid text is escaped for itself, whatever follows |
| Utf8Escape.EscapedMalformed | shared/nm-utils/nm-shared-utils.c:1111-1116 | a byte that starts no character is written in three octal digits, and what follows it is escaped for itself |
| Utf8Escape.EscapedAscii | shared/nm-utils/nm-shared-utils.c:1100-1108 | a backslash is doubled, and a character of one byte written in octal if and only if a flag is about it |
| Utf8Escape.PlainUtf8Unchanged | shared/nm-utils/nm-shared-utils.c:1083-1092 | without flags, valid UTF-8 without backslashes is left alone |
| Utf8Escape.Utf8SafeUnescape | shared/nm-utils/nm-shared-utils.c:1124-1134 | the result is the unescaped text, copied exactly when there is a backslash |
| Utf8Escape.UnescapedPlain | shared/nm-utils/nm-shared-utils.c:1124-1134 | in unescaping, a byte that is no backslash is copied |
| Utf8Escape.UnescapedLetter | shared/nm-utils/nm-shared-utils.c:1124-1134 | behind a backslash b, f, n, r, t and v stand for their control characters, and whatever is no octal digit for itself; a single backslash at the end is dropped |
| Utf8Escape.UnescapedOctal | shared/nm-utils/nm-shared-utils.c:1124-1134 | three octal digits behind a backslash stand for their value modulo 256 |
| Utf8Escape.UnescapedTwoOctal | shared/nm-utils/nm-shared-utils.c:1124-1134 | two of them stand for their value if no third one follows |
| Utf8Escape.UnescapedOneOctal | shared/nm-utils/nm-shared-utils.c:1124-1134 | and so does one |

## Left out

- HTTP, curl, JSON and the worker threads: a fetch ends with a profile, an error or cancelled.
- `shared/nm-airvpn-properties.c` but for the port, and the openvpn helper: the outcome of the property checks is a field of the connection, and more would add easy members only.
- The arguments of openvpn (`src/nm-airvpn-service.c:284-341`), log text and error messages.
- SHA-256: the key itself stands for its hash, so hashes are taken to be free of collisions.
- Two seconds after SIGTERM a child that lives is killed (`src/nm-airvpn-service.c:119-128`): a child that was signalled is simply no longer counted as live.
- Plugin.Plugin.OpenvpnWatchCb: does not model the `waitpid` on the current process (`src/nm-airvpn-service.c:199`), because reaping is the main loop's report; that it could reap the current process in its stead, whose own report then has no status, is not captured.
- The reuse of process numbers after reaping is allowed, signals to a reused number are not modelled.
- How a daemon ends: it may be restarted at any time, whether or not it was disposed of before.
- File permissions, umask and the temporary ruleset file.
- A NUL byte inside a profile or resolv.conf, which ends the text for the C code: file contents are taken as the text before it.
- Editor: widgets, labels and button sensitivity, and what is written into the connection before the commit; a reconnect context is a value in the editor's map, so freeing memory is removal from the map.
- FirewallPolicy.AcceptedExactly: the packet filter is as much of nft's grammar and of chain evaluation as the text needs, with first-match verdicts; a statement that it does not know makes it refuse the text. `NetOk` is a hypothesis.
- Generator.UrlReadsBack: a reader that takes `+` for a blank, as forms do, would also change a port with a plus in it.
- Generator.BuildGeneratorUrl: needs a server, which its callers have checked.
- StrBuf.Cursor.Append: the text that a printf format produces is given, not computed.
- StrBuf: the static buffer of `nm_utils_to_string_buffer_init`; a NULL buffer means that one there.
- Utf8Escape.Utf8SafeUnescape: GLib's `g_strcompress` is modelled as a function on bytes; a backslash at the very end, about which GLib warns, is dropped.
- Glib: `g_ascii_isspace` without the vertical tab, as GLib defines it; `g_strsplit` and `g_strsplit_set` as functions.
- `nm_utils_fd_read_loop` and the remaining vendored helpers.
