# Models and proofs for foris-controller

foris-controller reads and writes the configuration of a Turris router. Its settings code edits the
uci store inside transactions that one reader/writer lock serialises; clients reach it over unix
sockets and ubus. This project models that code in Dafny, in the form the code has (step machines for
the lock and the transactions, a class for the transaction object, methods that edit the store,
functions where the code only computes), and proves what the code is for.

| file | what it models |
|---|---|
| `RwLock.dfy` | the reader/writer lock as a step machine: two locks, one condition with `notify()`, a counter |
| `Transactions.dfy` | blocks of store edits under that lock, in every interleaving |
| `UciStore.dfy` | the uci store and the transaction object `UciBackend` |
| `UciOptions.dfy` | what the settings code shares: reading and writing options, and what an edit leaves alone |
| `UciExport.dfy` | the parser of `uci export`, and the printer it undoes |
| `Ipv4.dfy` | addresses, netmasks, the DHCP pool check, CIDR texts |
| `LanHosts.dfy`, `LanClients.dfy` | static DHCP hosts: the rules, and the three operations in the store |
| `LanPruning.dfy`, `LanSettings.dfy` | re-addressing the LAN, and the whole LAN update with its reader |
| `WanSettings.dfy` | the WAN update and its reader |
| `GuestNetwork.dfy` | the guest network as a step of other updates |
| `Networks.dfy`, `NetworkUpdate.dfy` | which port belongs to which network: the reader, and the update that it reads back |
| `WifiSettings.dfy` | the Wi-Fi update and its reader |
| `MockNetworks.dfy` | the port assignment of the mock handler |
| `NaturalOrder.dfy` | sorting by natural order |
| `Framing.dfy`, `Multipart.dfy` | length-prefixed messages on a stream; requests in parts and replies in chunks |
| `Texts.dfy`, `Wrappers.dfy` | decimal numbers, splitting and joining; `Option`, facts about lists |
| `Literals.dfy` | the names written into the store, told apart |

The store is a map from configs to ordered sections to options, with the behaviour of the `uci`
command: `set` on a missing section fails, `delete` of a missing entry fails, `set` with the empty
text deletes the option, `add_list` appends, `set c.s=type` on an existing section keeps its options.
An exception is a flag that stays set until the end of the block; after it no edit has an effect that
is committed. The methods say exactly when they set that flag, so each update is proved both ways: it
ends normally if and only if a condition on the stored configuration and the request holds (`Possible`,
`AllPossible`, `EnablingPossible`), and then its reader gives back what was written. `hide` statements
only keep proofs short: they withhold a definition from the verifier.
Literals are told apart by a fingerprint (`Texts.Fingerprint`, computed in `Literals.dfy`), which is a
proof device and models nothing.

## What the code does that its readers might not expect

Each of these is proved, with the exact condition where there is one.

- The LAN update rolls back when some host has a real address and either the pruned range leaves the
  address space or the host lies in the range and is left behind in the old network, so that it is deleted
  twice (`LanPruning.FailsExactly`). Both happen with pools that the pool check accepts
  (`LanPruning.OverflowHappens`, `LanPruning.DoubleDeleteHappens`). A range that ends inside the new network
  is safe (`LanPruning.PoolInsideTheNetworkPasses`).
- The pool is checked from the network address, hosts are pruned from the router's own address
  (`Ipv4.PruningStartsAtTheRouter`).
- A client whose record lacks the address or the hostname can be deleted but never updated: the update
  raises (`LanHosts.UpdateRaisesExactly`, `LanHosts.StuckClientsOnlyGo`). Of the clients that the program
  itself sets or updates, exactly those with an empty hostname get into that state
  (`LanHosts.SetClientsStuckExactly`, `LanHosts.UpdatedClientsStuckExactly`).
- An unmanaged dhcp LAN that is updated without a hostname keeps the old one
  (`LanSettings.HostnameReadsBackExactly`).
- A second DNS server without a first one comes back as the first, for WAN and LAN
  (`WanSettings.WanReadsBackExactly`, `WanSettings.Wan6ReadsBackExactly`,
  `LanSettings.StaticReadsBackExactly`), and a netmask that is not written as a contiguous mask comes back
  as one (`LanSettings.ManagedReadsBackExactly`).
- Two WAN ports are never shown, whatever the config (`NetworkUpdate.TwoWanPortsAreNeverShown`), and where
  the WAN bridge is the one that WAN uses the reader raises, because it looks for the bridge among the ports
  (`NetworkUpdate.TwoWanPortsDoNotReadBack`). The port check compares sets and accepts a port that is asked
  for twice, which no reader can show (`NetworkUpdate.OverlapIsAccepted`,
  `NetworkUpdate.OverlapsAreNeverShown`).
- An anonymous WAN bridge that gives way to a single port does not hand its MAC on: the interface keeps the
  one that it had (`NetworkUpdate.MacKept`).
- A WAN update raises when the firewall has a zone without a name in front of the WAN zone, and one with a
  VLAN when the WAN device is a list (`WanSettings.Possible`).
- The unix socket handler ends exactly when a message makes it fail or the stream does not stop behind the
  header of a message; otherwise its read loop goes round without progress
  (`Framing.Connection.HandleUnix`, `Framing.UnixLoopSpins`). The client socket handler ends on every stream.

## Model

| member | source | states |
|---|---|---|
| RwLock.ReachableInv | foris_controller/utils.py:57-96 | every schedule of any threads keeps the lock's invariant: each lock has the owner the program counters say, the counter equals the readers between increment and decrement, a writer inside is alone, a waiter is still to be notified whenever the counter is zero |
| RwLock.Exclusion | foris_controller/utils.py:57-87 | in every run at most one writer is inside, no reader is inside with a writer, and the counter is the number of counted readers |
| RwLock.NoLostWakeup | foris_controller/utils.py:57-83 | at most one thread waits on the condition, and a waiter that nobody has notified while the counter lock is free means that the counter is positive |
| RwLock.NoDeadlock | foris_controller/utils.py:57-87 | while any thread is in acquire or release, or inside, some thread can take a step |
| RwLock.ClaimFreezesCounter | foris_controller/utils.py:78-83 | once a writer holds the gate against new readers, no step raises the counter |
| RwLock.WaitsForCountedReaders | foris_controller/utils.py:63-83 | while the writer keeps its claim, the counter falls by exactly the reader releases that happen |
| RwLock.BoundedWait | foris_controller/utils.py:78-83 | a claim that has not been granted lasts at most ten steps for each thread |
| Transactions.Serializable | foris_controller_backends/uci/__init__.py:143-158 | in every interleaving, whenever no block is under way, the files are what the finished blocks leave when each runs alone, in the order in which they got the lock |
| Transactions.Isolated | foris_controller_backends/uci/__init__.py:134-148 | a running block sees exactly what it would see alone on the files that the earlier blocks left |
| Transactions.AbortsLeaveNothing | foris_controller_backends/uci/__init__.py:150-158 | dropping the blocks that ended by exception from the history changes nothing in the files |
| Transactions.CommitsWhole | foris_controller_backends/uci/__init__.py:268-278 | one more block adds to the files all that it saw of its own edits if it ends normally, and nothing if it raises |
| UciStore.UciBackend.Enter | foris_controller_backends/uci/__init__.py:134-148 | a block starts from the committed files, whatever an aborted one left in the changes directory |
| UciStore.UciBackend.Exit | foris_controller_backends/uci/__init__.py:150-158 | after a normal end the files are what the block saw, after an exception they are as before |
| UciStore.UciBackend.Commit | foris_controller_backends/uci/__init__.py:268-278 | committing the affected configs one by one, in any order, commits everything the block saw |
| UciStore.UciBackend.AddSection | foris_controller_backends/uci/__init__.py:201-215 | fails exactly without the config; a new section comes last and empty, an existing one keeps its options, nothing else changes |
| UciStore.UciBackend.AddAnonymous | foris_controller_backends/uci/__init__.py:201-215 | a failing command is ignored and gives the empty name; otherwise a new section comes last under the invented name |
| UciStore.UciBackend.DelSection | foris_controller_backends/uci/__init__.py:217-222 | fails exactly on a missing section, else the section and its options are gone and nothing else changed |
| UciStore.UciBackend.SetOption | foris_controller_backends/uci/__init__.py:224-226 | fails exactly on a missing section, else this one option has the value, or is gone for the empty value |
| UciStore.UciBackend.DelOption | foris_controller_backends/uci/__init__.py:228-230 | never fails; this one option is gone |
| UciStore.UciBackend.AddToList | foris_controller_backends/uci/__init__.py:232-241 | an empty list asks nothing of the section; otherwise the items are appended in order to what was there, a plain option becoming a list |
| UciStore.UciBackend.ReplaceList | foris_controller_backends/uci/__init__.py:256-266 | the option reads back as exactly the non-empty items, whatever it was before |
| UciStore.NewListReads | foris_controller_backends/uci/__init__.py:232-241 | items added to an absent option read back as the non-empty ones, in order |
| UciStore.StoreBool | foris_controller_backends/uci/__init__.py:35-47 | a stored boolean is not empty and parses back to the same boolean |
| UciExport.ConvertUndoesQuote | foris_controller_backends/uci/__init__.py:280-286 | unquoting undoes quoting for every text, quotes inside included |
| UciExport.LineReader.ParseSection | foris_controller_backends/uci/__init__.py:288-309 | the loop that pops lines ends and reads the options and lists up to the next head |
| UciExport.LineReader.ParsePackage | foris_controller_backends/uci/__init__.py:311-336 | the loop that pops lines ends and reads the sections up to the next package |
| UciExport.LineReader.ParsePackages | foris_controller_backends/uci/__init__.py:338-358 | the outer loop ends on every list of lines and reads all packages |
| UciExport.ExportReadsBack | foris_controller_backends/uci/__init__.py:280-363 | printing in export form and parsing gives back the same packages, sections, options and list order |
| UciExport.ReadersAgree | foris_controller_backends/uci/__init__.py:50-86 | looking a config, a section or an option up in parsed packages gives what the observers of the store show |
| UciExport.TypesAgree | foris_controller_backends/uci/__init__.py:89-95 | the sections of a type found in a parsed package are those that the store lists, in order |
| UciExport.ReadShowsTheStore | foris_controller_backends/uci/__init__.py:280-363 | whatever order uci prints in, what the readers find in the parsed export of a store is what the store holds |
| Ipv4.PrintedIpParses | foris_controller/utils.py:284-290 | the text of an address parses to that address |
| Ipv4.ParsedIpPrints | foris_controller/utils.py:284-290 | a text that parses is the one text of its address |
| Ipv4.MasksAreContiguous | foris_controller/utils.py:285 | a number counts as a netmask exactly when it is leading ones followed by zeros, and then gives their number |
| Ipv4.PoolCheckIsExact | foris_controller/utils.py:277-297 | the check answers true exactly when every address of the pool exists, lies in the network and differs from the router's |
| Ipv4.EndsAreEnough | foris_controller/utils.py:286-295 | testing the two ends of the pool is the same as testing all of it |
| Ipv4.PruningStartsAtTheRouter | foris_controller_backends/lan/__init__.py:546-556 | for an accepted pool, its first address is in the pruned range exactly when the router has the network address |
| Ipv4.CidrReadsBack | foris_controller_backends/lan/__init__.py:45-50 | address and mask stored as one CIDR text read back as the address and the mask of its prefix |
| Ipv4.ContiguousMasksReadBack | foris_controller_backends/lan/__init__.py:100-125 | every contiguous mask reads back as it was written |
| LanHosts.FirstWith | foris_controller_backends/lan/__init__.py:603-618 | finds a section that carries the MAC, or none carries it |
| LanHosts.JoinedMacs | foris_controller_backends/lan/__init__.py:575-590 | well-formed MACs joined by blanks come apart into the same list |
| LanHosts.LeftMacs | foris_controller_backends/lan/__init__.py:831-839 | a record of several MACs that loses one keeps exactly the others and stays well formed |
| LanHosts.SetKeeps | foris_controller_backends/lan/__init__.py:703-743 | setting a client keeps MACs, addresses and hostnames unique |
| LanHosts.UpdateKeeps | foris_controller_backends/lan/__init__.py:745-816 | updating a client keeps them unique, though it may reuse what its own record had |
| LanHosts.DeleteKeeps | foris_controller_backends/lan/__init__.py:818-844 | deleting a MAC keeps them unique |
| LanHosts.EveryRunKeepsHostsConsistent | foris_controller_backends/lan/__init__.py:703-844 | after every sequence of set, update and delete, under any network settings in between, the three uniqueness rules hold |
| LanHosts.SetSucceedsExactly | foris_controller_backends/lan/__init__.py:663-738 | set succeeds exactly when the MAC and the hostname are free and the address is `ignore`, or is free, in the LAN network, and the LAN is managed with DHCP on |
| LanHosts.SetAddsExactly | foris_controller_backends/lan/__init__.py:703-743 | the new MAC gets the address and hostname asked for, every other MAC keeps its own |
| LanHosts.UpdateMovesExactly | foris_controller_backends/lan/__init__.py:745-816 | the new MAC gets what was asked, the record's other MACs lose theirs, every other MAC keeps its own; an update that changes nothing changes nothing |
| LanHosts.DeleteRemovesExactly | foris_controller_backends/lan/__init__.py:818-844 | delete succeeds exactly on a known MAC, and only that MAC loses its address and hostname |
| LanHosts.UpdateRaisesExactly | foris_controller_backends/lan/__init__.py:745-816 | an update raises exactly when the LAN address does not parse, the record lacks its address or hostname, or there is something to change and the address check raises |
| LanHosts.SetClientsStuckExactly | foris_controller_backends/lan/__init__.py:703-743 | a new client can never be updated exactly when it was set without a hostname |
| LanHosts.UpdatedClientsStuckExactly | foris_controller_backends/lan/__init__.py:745-816 | an updated client can never be updated again exactly when the update changed something and its hostname is empty |
| LanHosts.StuckClientsOnlyGo | foris_controller_backends/lan/__init__.py:768-773 | every update of such a client raises, whatever it asks and under any settings, while delete works |
| LanClients.SetDhcpClient | foris_controller_backends/lan/__init__.py:703-743 | reply, exception and hosts on disk are those of the rule; only host sections change; a new client has an endless lease and a DNS entry |
| LanClients.UpdateDhcpClient | foris_controller_backends/lan/__init__.py:745-816 | reply, exception and hosts on disk are those of the rule; only host sections change |
| LanClients.DeleteDhcpClient | foris_controller_backends/lan/__init__.py:818-844 | reply, exception and hosts on disk are those of the rule; only host sections change |
| LanClients.AnswersKeepHostsConsistent | foris_controller_backends/lan/__init__.py:703-844 | whatever an operation answers, the hosts on disk stay consistent |
| LanPruning.FateInNumbers | foris_controller_backends/lan/__init__.py:384-395 | what happens to a host is decided by its address being in the pool, in the old network and in the new one |
| LanPruning.PruningIsExact | foris_controller_backends/lan/__init__.py:373-395 | survivors are exactly the hosts without a real address and those outside the pool that did not fall out of the new network |
| LanPruning.SurvivorsAreInTheNewNetwork | foris_controller_backends/lan/__init__.py:373-395 | if all real addresses were in the old network, all that survive are in the new one |
| LanPruning.FailsExactly | foris_controller_backends/lan/__init__.py:385-395 | the pass raises exactly when some host has a real address and the pruned range leaves the address space or the host meets both tests |
| LanPruning.PoolInsideTheNetworkPasses | foris_controller_backends/lan/__init__.py:385-395 | if the pruned range ends inside the new network the pass ends normally |
| LanPruning.DoubleDeleteHappens | foris_controller_backends/lan/__init__.py:385-395 | a concrete move, with a pool that the check accepts, on which the pass deletes a host twice |
| LanPruning.OverflowHappens | foris_controller_backends/lan/__init__.py:546-556 | a router and a pool that the check accepts, with which every host with a real address makes the pass raise |
| LanPruning.SurvivorsConsistent | foris_controller_backends/lan/__init__.py:373-395 | pruning keeps the uniqueness rules |
| LanPruning.FilterRecord | foris_controller_backends/lan/__init__.py:384-395 | one turn deletes the section, leaves it alone or raises, as the rule says |
| LanPruning.FilterRecords | foris_controller_backends/lan/__init__.py:373-395 | the loop raises exactly when some host fails, and otherwise leaves exactly the survivors, unchanged and in order |
| LanSettings.LeaseReadsBack | foris_controller_backends/lan/__init__.py:267-279 | every lease time reads back, 0 by way of `infinite` |
| LanSettings.ServersReadBack | foris_controller_backends/lan/__init__.py:323-331 | DNS servers stored in reverse read back in order, a lone second one as the first |
| LanSettings.SetLan | foris_controller_backends/lan/__init__.py:127-138 | raises exactly when address or mask do not parse; otherwise the reader gives the address and the mask back and no other option changed |
| LanSettings.StoreRedirect | foris_controller_backends/lan/__init__.py:397-408 | raises exactly without a firewall config; an existing redirect is switched as asked, a missing one is not made |
| LanSettings.WritePool | foris_controller_backends/lan/__init__.py:446-462 | start, limit and lease time read back |
| LanSettings.WriteManaged | foris_controller_backends/lan/__init__.py:434-474 | raises exactly without a dhcp config, on an address that does not parse, and with DHCP on if the old address does not parse or the pruning fails; else the mode reads back and the hosts left are the survivors of the move |
| LanSettings.WriteUnmanaged | foris_controller_backends/lan/__init__.py:476-505 | raises exactly without a dhcp config or on a static address that does not parse; else the mode reads back, DHCP is off and hosts are not touched |
| LanSettings.WriteQos | foris_controller_backends/lan/__init__.py:507-529 | raises exactly when a limit is asked for without an sqm config; the rates read back although they are stored swapped, a disabled limit reads as off with the defaults |
| LanSettings.UpdateSettings | foris_controller_backends/lan/__init__.py:410-529 | ends normally exactly when the configs it edits are there and its mode is possible; then mode, address, pool, DNS, hostname, redirect and rates read back and the hosts are the survivors; after an exception nothing on disk changed |
| LanSettings.ManagedReadsBackExactly | foris_controller_backends/lan/__init__.py:45-50 | after an update the reader shows the managed address exactly as written if and only if its netmask was the text of a contiguous mask |
| LanSettings.StaticReadsBackExactly | foris_controller_backends/lan/__init__.py:491-503 | after an update the reader shows address, netmask and DNS servers of a static setup as written if and only if the mask was contiguous and there was no second server without a first |
| LanSettings.HostnameReadsBackExactly | foris_controller_backends/lan/__init__.py:485-489 | an unmanaged dhcp LAN shows the hostname asked for exactly when one was given or none was there |
| LanSettings.FailingHostStopsTheUpdate | foris_controller_backends/lan/__init__.py:457-471 | a host that the pruning fails on makes the update impossible |
| WanSettings.MigrateOldConfig | foris_controller_backends/wan/__init__.py:411-432 | never raises; a legacy interface becomes the device with a section of its own that takes over the MAC, any other config is left alone |
| WanSettings.WriteWan | foris_controller_backends/wan/__init__.py:195-228 | raises exactly without a network config; the options of the written type are in place, those it makes optional are gone when not given, and no other section changes |
| WanSettings.WriteWan6 | foris_controller_backends/wan/__init__.py:230-339 | raises exactly without a network config or, for 6to4, without a lan section; the options of the written type are in place whatever an earlier type left |
| WanSettings.WriteRules | foris_controller_backends/wan/__init__.py:238-248 | raises exactly without a firewall config; the 6in4 and 6to4 rules are on exactly for their own type, and the other zones stay in order |
| WanSettings.WriteDevice | foris_controller_backends/wan/__init__.py:349-363 | raises exactly without a device or with a VLAN on a list; the device section exists with the custom MAC or none, and the device takes the VLAN asked for or stays |
| WanSettings.TaggedReadsBack | foris_controller_backends/wan/__init__.py:392-407 | the VLAN written onto any device name, tagged before or not, is the one that is read |
| WanSettings.WriteQos | foris_controller_backends/wan/__init__.py:365-375 | never raises; the WAN limit reads back, or is off |
| WanSettings.SetWanZone | foris_controller_backends/networks/__init__.py:600-637 | raises exactly when no zone of that name comes before a nameless one; else this zone holds the wired interfaces and nothing else changed |
| WanSettings.WanReadsBack | foris_controller_backends/wan/__init__.py:56-76 | the reader gives back every WAN type, up to an empty hostname and a lone second server |
| WanSettings.Wan6ReadsBack | foris_controller_backends/wan/__init__.py:78-118 | the reader gives back every WAN6 type, up to a lone second server |
| WanSettings.WanReadsBackExactly | foris_controller_backends/wan/__init__.py:59-76 | the reader gives WAN back as written if and only if there is no empty hostname and no second DNS server without a first |
| WanSettings.Wan6ReadsBackExactly | foris_controller_backends/wan/__init__.py:78-118 | the reader gives WAN6 back as written if and only if there is no second DNS server without a first |
| WanSettings.UpdateSettings | foris_controller_backends/wan/__init__.py:190-378 | from any starting config it ends normally exactly when the sections it edits, a WAN device and a WAN zone are there; then WAN, WAN6, custom MAC, VLAN, limit, IPv6 switch and tunnel rules read back; after an exception nothing on disk changed |
| GuestNetwork.WriteInterface | foris_controller_backends/guest/__init__.py:129-141 | raises exactly without a network config; the guest interface is on its bridge and switched, an enabled one has its address, a legacy `ifname` stays, other sections are untouched |
| GuestNetwork.WriteFirewall | foris_controller_backends/guest/__init__.py:143-203 | raises exactly without a firewall config; the four switched sections are all on or all off, the zone holds the guest network alone and rejects what comes in or through, its forwarding leads to WAN |
| GuestNetwork.WriteDhcp | foris_controller_backends/guest/__init__.py:204-231 | raises exactly without a dhcp config; the server of an enabled network reads back, that of a disabled one stays |
| GuestNetwork.WriteQueue | foris_controller_backends/guest/__init__.py:233-267 | never raises; the limit reads back although it is stored swapped where there is an sqm config, and no limit as the defaults |
| GuestNetwork.SetGuestNetwork | foris_controller_backends/guest/__init__.py:117-267 | raises exactly when one of its configs is missing; else enabled flag, address, pool, lease time and limits read back, and other interfaces and configs are untouched |
| GuestNetwork.EnableGuestNetwork | foris_controller_backends/guest/__init__.py:269-334 | raises exactly when a config is missing or the options of the guest server do not parse; else the guest network reads as enabled with the server it had, made from nothing if need be |
| Networks.PortsMap.TakePorts | foris_controller_backends/networks/__init__.py:95-98 | the loop takes, in order, each listed port that is still in the map, once |
| Networks.ShowNetwork | foris_controller_backends/networks/__init__.py:66-111 | the method on the shared map does what the reader function says, raising where `device` is a list |
| Networks.ShowNetworks | foris_controller_backends/networks/__init__.py:363-383 | wan, lan, guest and the rest are read one after the other from one shared map |
| Networks.ShownNetworksPartitionTheHardware | foris_controller_backends/networks/__init__.py:66-123 | for every config the four displayed networks are a partition of the detected ports |
| Networks.ShownExactly | foris_controller_backends/networks/__init__.py:113-123 | the reader ends normally exactly when the active WAN device is absent or detected and no device option is a list |
| NetworkUpdate.DropLegacy | foris_controller_backends/networks/__init__.py:496-502 | a legacy `ifname` is gone, and nothing but it and the type changed |
| NetworkUpdate.DropAnonymous | foris_controller_backends/networks/__init__.py:504-514 | exactly the anonymous bridges of the network that is in use are deleted, without an exception as long as they are there once each, and the MAC of its last bridge device is found |
| NetworkUpdate.CreateBridge | foris_controller_backends/networks/__init__.py:458-468 | raises exactly without the interface; the network is on a bridge with these ports, and a MAC handed over is kept |
| NetworkUpdate.DelBridge | foris_controller_backends/networks/__init__.py:470-482 | raises exactly without the interface; the network is directly on its port with the MAC of its named bridge or else its own, or has no device |
| NetworkUpdate.UpdateNet | foris_controller_backends/networks/__init__.py:495-525 | one turn raises exactly when neither the interface nor a named bridge that is enough is there; else it writes one network from whichever form it had, hands the MAC of a replaced bridge on as the code does, and touches only its own sections |
| NetworkUpdate.AssignedReadsBack | foris_controller_backends/networks/__init__.py:363-383 | with at most one WAN port the reader shows exactly the ports asked for in every network and the rest in none |
| NetworkUpdate.TwoWanPortsAreNeverShown | foris_controller_backends/networks/__init__.py:113-123 | no config makes the reader show two WAN ports |
| NetworkUpdate.TwoWanPortsDoNotReadBack | foris_controller_backends/networks/__init__.py:121-122 | with several WAN ports on the bridge that WAN uses the reader raises |
| NetworkUpdate.UpdateSettings | foris_controller_backends/networks/__init__.py:440-539 | answers true exactly when the lists are the configurable ports as sets; then it ends normally exactly when the guest network can be enabled and the sections of WAN and LAN are there; from any well-formed config, legacy or bridged, the reader then shows what was asked exactly when at most one port is WAN's, firewall rules included; after an exception nothing on disk changed |
| NetworkUpdate.OverlapIsAccepted | foris_controller_backends/networks/__init__.py:453-456 | a port asked for twice passes the check |
| NetworkUpdate.OverlapsAreNeverShown | foris_controller_backends/networks/__init__.py:363-383 | a request that is shown as asked names no port in two networks |
| WifiSettings.WriteCipher | foris_controller_backends/wifi/__init__.py:428-448 | the cipher is stored with 802.11w off only for WPA3 ciphers that ask for it; custom encryption is left alone |
| WifiSettings.UpdateRadio | foris_controller_backends/wifi/__init__.py:333-420 | one radio is switched off, or its device, interface and guest sections hold what was asked; no other section changes |
| WifiSettings.UpdateRadios | foris_controller_backends/wifi/__init__.py:469-502 | the loop raises exactly when some request is not possible, and otherwise every request is written and stays written |
| WifiSettings.RadiosApart | foris_controller_backends/wifi/__init__.py:290-308 | two radios have no section in common, new guest sections included |
| WifiSettings.EnabledRadioReadsBack | foris_controller_backends/wifi/__init__.py:181-283 | an enabled radio reads back its SSID, channel, band, width, cipher, 802.11w, password and guest network |
| WifiSettings.GuestFound | foris_controller_backends/wifi/__init__.py:298-306 | the guest section that the reader finds is the one that was written |
| WifiSettings.UpdateRegulator | foris_controller_backends/wifi/__init__.py:450-453 | every device gets the country and no other option changes |
| WifiSettings.UpdateSettings | foris_controller_backends/wifi/__init__.py:455-519 | all requests or none: it ends normally exactly when every request names a radio, band, channel and width that are there, the guest network can be enabled if asked for, and there is a country to read; then every radio reads back, else the disk is as it was |
| MockNetworks.AcceptsExactlyPartitions | foris_controller_modules/networks/handlers/mock.py:190-207 | the lists are accepted exactly when they name every configurable port once and nothing else |
| MockNetworks.UpdateConservesPorts | foris_controller_modules/networks/handlers/mock.py:196-213 | every list becomes what was asked, other ports end up in none, and no port is lost or doubled |
| MockNetworks.MockNetworksHandler.UpdateSettings | foris_controller_modules/networks/handlers/mock.py:182-217 | the loops on the shared map do this, and a refused update changes no network |
| MockNetworks.EveryRunKeepsThePorts | foris_controller_modules/networks/handlers/mock.py:190-217 | over every run of updates the same ports are there, each with its own id |
| NaturalOrder.KeyAlternates | foris_controller/utils.py:330 | the split key alternates words and numbers, a word at both ends |
| NaturalOrder.NamesComparable | foris_controller/utils.py:326-331 | no comparison of two names mixes a word with a number |
| NaturalOrder.NaturalOrderIsTotal | foris_controller/utils.py:326-331 | the order is reflexive, total and transitive |
| NaturalOrder.NumbersDecide | foris_controller/utils.py:326-331 | behind a common prefix names are ordered by their numbers |
| NaturalOrder.SortedIsSound | foris_controller/utils.py:326-331 | the result is an ordered permutation of the items |
| NaturalOrder.SortIsStable | foris_controller/utils.py:326-331 | names with the same key keep their order |
| Framing.UnpackUndoesPack | foris_controller/buses/unix_socket.py:55 | the length read is the length sent |
| Framing.DeframeUndoesFrames | foris_controller/buses/unix_socket.py:119-126 | any sequence of messages comes out of the stream as it went in |
| Framing.CutStreamGivesTheWholeMessages | foris_controller/client_socket.py:124-142 | a stream that ends inside a message gives all the messages before it |
| Framing.Connection.ReadMessage | foris_controller/client_socket.py:130-140 | however `recv` cuts the payload, the loop ends with the payload, or with an error exactly when the stream ends first |
| Framing.Connection.ReadWholeMessage | foris_controller/buses/unix_socket.py:57-63 | however `recv` cuts it, a payload that arrives whole is read whole, and of one that does not all that there is |
| Framing.Connection.HandleClient | foris_controller/client_socket.py:119-168 | on every stream exactly the whole messages are served, in order, up to the first that ends the connection, and the replies are sent in order |
| Framing.Connection.HandleUnix | foris_controller/buses/unix_socket.py:44-84 | on every stream exactly the whole messages are served and answered, in order, up to the first that fails; it ends exactly when a message fails or the stream stops short of the end of a header, and else is left in the read loop with an incomplete message |
| Framing.RepliesReadBack | foris_controller/client_socket.py:111-116 | what a handler sends is read back as the same replies |
| Framing.UnixLoopSpins | foris_controller/buses/unix_socket.py:60-63 | there, with nothing more to come, every further turn of the loop leaves its state as it is |
| Multipart.RequestStorage.Arrive | foris_controller/buses/ubus.py:82-100 | a final part hands on its own request's parts since the last pickup, joined; no other request is touched |
| Multipart.RequestStorage.ArriveAll | foris_controller/buses/ubus.py:37-52 | over every interleaving exactly these are handed on, and the storage holds what still waits |
| Multipart.WaitingAfter | foris_controller/buses/ubus.py:42-52 | one more part waits with its own request only, a final part leaves nothing waiting |
| Multipart.OthersMakeNoDifference | foris_controller/buses/ubus.py:37-52 | what waits for a request is what would wait if the other requests had never arrived |
| Multipart.PiecesReassemble | foris_controller/buses/ubus.py:82-89 | a request sent in pieces, the last one final, is handed on once as its whole text, and nothing of it waits |
| Multipart.SendReply | foris_controller/buses/ubus.py:117-118 | the chunks joined are the reply, all but the last are full, none is empty |
| Multipart.CutsAreUnique | foris_controller/buses/ubus.py:117-118 | there is only one way to cut a reply like this |

## Left out

- Subprocesses, service restarts, notifications, logging, discovery of modules and the command line.
- The `uci` program itself: failing commands inside `commit`, and `import_data`, which writes past the transaction.
- JSON and its schemas: payloads are opaque, and ranges that a schema checks are preconditions (`Accepted`, `Asked`).
- The `multiprocessing` lock backend, where `_counter` is not shared between processes, and nested acquires by one thread.
- Anonymous section names come from outside as names not in use; how uci derives them is not modelled.
- uci list items that are empty are invisible to the reader; a list written from only such items reads as absent.
- Text is ASCII: `upper`, `lower`, `strip` and digits are those of ASCII, and Python's text of a list does not escape quotes.
- IPv6 addresses in LAN settings count as texts that do not parse; `ipaddress` would read them and the network tests would answer false.
- A config that the readers need is taken to exist; the readers raise when one is missing.
- Hardware's part of the readers: interface counts, hardware MACs, frequency lists, live leases, odhcpd data, and matching Wi-Fi interfaces to networks.
- The WAN mode is wired: the firewall zone that selects the mode is written but not read.
- GuestNetwork.EnableGuestNetwork: the program repeats a failed first attempt; the second attempt issues the same commands and fails at the same one, so the model makes one attempt.
- WifiSettings.UpdateSettings: does not tell apart the answer false and an exception that reaches the caller; in both cases nothing is committed.
- Framing.Connection.HandleUnix: headers arrive whole; the loop that goes round for ever on an incomplete message is left by the model once nothing can come any more.
- NetworkUpdate.UpdateSettings: when it ends normally is stated for network configs that list each section once, as every uci config does.
- LanSettings.UpdateSettings: requires that the dhcp config lists each section once and that its section `lan` is no static host.
- The LAN mock handler, process tables, the MQTT and zeroconf clients and the setup guide.
- Passwords, DNS forwarders, updater, remote access and notification modules: thin wrappers around files and programs.
