/** The guest network: a long run of store edits that other updates use as one of their steps. */
module GuestNetwork {
  import opened Wrappers
  import opened Texts
  import opened UciStore
  import opened UciOptions
  import Literals
  import Lan = LanSettings

  /** The settings of an enabled guest network; the limits are optional. */
  datatype Guest = Guest(ip: string, netmask: string, dhcp: Lan.Dhcp, qos: Option<Lan.Qos>)

  // ---------------------------------------------------------------- reading

  /** `get_guest_enabled`: every part has to be on.  None where a flag is no boolean. */
  function ReadGuestEnabled(st: Store): Option<bool> {
    AllOn([ReadBool(st, "network", "guest_turris", "enabled", false),
           ReadBool(st, "firewall", "guest_turris", "enabled", false),
           ReadBool(st, "firewall", "guest_turris_forward_wan", "enabled", false),
           ReadBool(st, "firewall", "guest_turris_dhcp_rule", "enabled", false),
           ReadBool(st, "firewall", "guest_turris_dns_rule", "enabled", false)])
  }

  /** `and` from left to right: what comes after a false flag is not looked at. */
  function AllOn(flags: seq<Option<bool>>): Option<bool> {
    if flags == [] then Some(true)
    else if flags[0] == Some(true) then AllOn(flags[1..])
    else flags[0]
  }

  /** The address and the netmask. */
  function ReadAddress(st: Store): (Value, Value) {
    (GetOr(st, "network", "guest_turris", "ipaddr", "10.111.222.1"), GetOr(st, "network", "guest_turris", "netmask", "255.255.255.0"))
  }

  /** Whether the guest network has a DHCP server; None where the flag is no boolean. */
  function ReadServing(st: Store): Option<bool> {
    match ReadBool(st, "dhcp", "guest_turris", "ignore", false)
    case None => None
    case Some(ignored) => Some(!ignored)
  }

  /** Start, limit and lease time; None where one of them does not parse. */
  function ReadPool(st: Store): Option<(nat, nat, nat)> {
    var start := ReadNat(st, "dhcp", "guest_turris", "start", 100);
    var limit := ReadNat(st, "dhcp", "guest_turris", "limit", 150);
    var lease := Lan.NormalizeLease(PyText(GetOr(st, "dhcp", "guest_turris", "leasetime", "3600")));
    if start.None? || limit.None? || lease.None? then None else Some((start.value, limit.value, lease.value))
  }

  /** The limit: upload is what the queue calls download, and the other way round. */
  function ReadLimit(st: Store): Option<(bool, Lan.Qos)> {
    var enabled := ReadBool(st, "sqm", "guest_limit_turris", "enabled", false);
    var upload := ReadNat(st, "sqm", "guest_limit_turris", "download", 1024);
    var download := ReadNat(st, "sqm", "guest_limit_turris", "upload", 1024);
    if enabled.None? || upload.None? || download.None? then None
    else Some((enabled.value, Lan.Qos(download.value, upload.value)))
  }

  lemma FlagsReadBack(st: Store, enabled: bool)
    requires FlagIs(st, "network", "guest_turris", enabled)
    requires FlagsAre(st, {"guest_turris", "guest_turris_forward_wan", "guest_turris_dns_rule", "guest_turris_dhcp_rule"}, enabled)
    ensures ReadGuestEnabled(st) == Some(enabled)
  {
    hide Get, StoreBool, Stored, ReadBool, ParseBool;
    BoolReadsBack(st, "network", "guest_turris", "enabled", enabled, false);
    BoolReadsBack(st, "firewall", "guest_turris", "enabled", enabled, false);
    BoolReadsBack(st, "firewall", "guest_turris_forward_wan", "enabled", enabled, false);
    BoolReadsBack(st, "firewall", "guest_turris_dhcp_rule", "enabled", enabled, false);
    BoolReadsBack(st, "firewall", "guest_turris_dns_rule", "enabled", enabled, false);
    Five(Some(enabled));
  }

  lemma Five(flag: Option<bool>)
    requires flag.Some?
    ensures AllOn([flag, flag, flag, flag, flag]) == flag
  {
    AllOnFirst(flag, []);
    AllOnFirst(flag, [flag]);
    AllOnFirst(flag, [flag, flag]);
    AllOnFirst(flag, [flag, flag, flag]);
    AllOnFirst(flag, [flag, flag, flag, flag]);
    assert [flag] + [flag, flag, flag, flag] == [flag, flag, flag, flag, flag];
    assert [flag] + [flag, flag, flag] == [flag, flag, flag, flag];
    assert [flag] + [flag, flag] == [flag, flag, flag];
    assert [flag] + [flag] == [flag, flag] && [flag] + [] == [flag];
  }

  lemma AllOnFirst(flag: Option<bool>, rest: seq<Option<bool>>)
    ensures AllOn([flag] + rest) == if flag == Some(true) then AllOn(rest) else flag
  {
    assert ([flag] + rest)[1..] == rest;
  }

  // ---------------------------------------------------------------- the network config

  ghost predicate FlagIs(st: Store, c: string, s: string, enabled: bool) {
    Get(st, c, s, "enabled") == Stored(StoreBool(enabled))
  }

  /** The guest interface sits on its own bridge, and a legacy `ifname` is still there. */
  ghost predicate GuestBridge(st: Store, st': Store) {
    && Kind(st', "network", "guest_turris") == Some("interface")
    && Kind(st', "network", "br_guest_turris") == Some("device")
    && Get(st', "network", "guest_turris", "device") == Some(Text("br-guest-turris"))
    && Get(st', "network", "br_guest_turris", "name") == Some(Text("br-guest-turris"))
    && Get(st', "network", "guest_turris", "ifname") == Get(st, "network", "guest_turris", "ifname")
  }

  /** The address of an enabled guest network is written, that of a disabled one stays. */
  ghost predicate AddressWritten(st: Store, st': Store, enabled: bool, g: Guest) {
    && Get(st', "network", "guest_turris", "ipaddr") ==
         (if enabled then Stored(g.ip) else Get(st, "network", "guest_turris", "ipaddr"))
    && Get(st', "network", "guest_turris", "netmask") ==
         (if enabled then Stored(g.netmask) else Get(st, "network", "guest_turris", "netmask"))
  }

  /** The interface and its bridge. */
  method WriteInterface(backend: UciBackend, enabled: bool, g: Guest)
    requires backend.Valid() && !backend.raised
    modifies backend
    ensures backend.InBlock() && backend.raised == !HasConfig(old(backend.View()), "network")
    ensures !backend.raised ==>
      && OnlySections(old(backend.View()), backend.View(), "network", {"guest_turris", "br_guest_turris"})
      && GuestBridge(old(backend.View()), backend.View())
      && FlagIs(backend.View(), "network", "guest_turris", enabled)
      && AddressWritten(old(backend.View()), backend.View(), enabled, g)
  {
    hide ConfigsIn, ShapeOf, KindIn, OrderIn, Get, Fingerprint, OnlySections, StoreBool, Stored, AddressWritten;
    ghost var st := backend.View();
    WriteSection(backend, "network", "interface", "guest_turris", [("enabled", StoreBool(enabled)), ("proto", "static")]);
    if backend.raised { return; }
    ghost var st1 := backend.View();
    WriteSection(backend, "network", "device", "br_guest_turris", [("name", "br-guest-turris"), ("type", "bridge")]);
    ghost var st2 := backend.View();
    InterfaceStarted(st, st1, st2, enabled);
    FinishInterface(backend, enabled, g);
    AddressSince(st, st2, backend.View(), enabled, g);
    ghost var both := {"guest_turris", "br_guest_turris"};
    OnlyBoth(st, st2, backend.View(), "network", both, both);
    assert both + both == both;
  }

  lemma AddressSince(st: Store, st2: Store, st': Store, enabled: bool, g: Guest)
    requires AddressWritten(st2, st', enabled, g)
    requires forall o | o in ["ipaddr", "netmask"] :: Get(st2, "network", "guest_turris", o) == Get(st, "network", "guest_turris", o)
    ensures AddressWritten(st, st', enabled, g)
  {
    hide Get, Stored;
    assert "ipaddr" in ["ipaddr", "netmask"] && "netmask" in ["ipaddr", "netmask"];
  }

  method FinishInterface(backend: UciBackend, enabled: bool, g: Guest)
    requires backend.Valid() && !backend.raised
    requires Kind(backend.View(), "network", "guest_turris") == Some("interface")
    requires Kind(backend.View(), "network", "br_guest_turris") == Some("device")
    modifies backend
    ensures backend.InBlock() && !backend.raised
    ensures OnlySections(old(backend.View()), backend.View(), "network", {"guest_turris", "br_guest_turris"})
    ensures Kind(backend.View(), "network", "guest_turris") == Some("interface")
    ensures Kind(backend.View(), "network", "br_guest_turris") == Some("device")
    ensures Get(backend.View(), "network", "guest_turris", "device") == Some(Text("br-guest-turris"))
    ensures Get(backend.View(), "network", "guest_turris", "ifname") == Get(old(backend.View()), "network", "guest_turris", "ifname")
    ensures Get(backend.View(), "network", "guest_turris", "enabled") == Get(old(backend.View()), "network", "guest_turris", "enabled")
    ensures Get(backend.View(), "network", "br_guest_turris", "name") == Get(old(backend.View()), "network", "br_guest_turris", "name")
    ensures AddressWritten(old(backend.View()), backend.View(), enabled, g)
  {
    hide ConfigsIn, ShapeOf, KindIn, OrderIn, Get, Fingerprint, OnlySections, StoreBool, PairsIn, Stored, AddressWritten;
    Literals.Interfaces();
    ghost var st2 := backend.View();
    SetOptions(backend, "network", "guest_turris", [("device", "br-guest-turris")]);
    ghost var st3 := backend.View();
    WriteAddress(backend, enabled, g);
    ghost var st4 := backend.View();
    SetOptions(backend, "network", "br_guest_turris", [("bridge_empty", StoreBool(true))]);
    ghost var st5 := backend.View();
    SetOptions(backend, "network", "guest_turris", [("ip6assign", "64")]);
    InterfaceFinished(st2, st3, st4, st5, backend.View(), StoreBool(true));
    AddressFinished(st2, st3, st4, st5, backend.View(), StoreBool(true), enabled, g);
  }

  /** The address, of an enabled network only. */
  method WriteAddress(backend: UciBackend, enabled: bool, g: Guest)
    requires backend.Valid() && !backend.raised && Has(backend.View(), "network", "guest_turris")
    modifies backend
    ensures backend.InBlock() && !backend.raised && ShapeOf(backend.View()) == ShapeOf(old(backend.View()))
    ensures OnlySections(old(backend.View()), backend.View(), "network", {"guest_turris"})
    ensures AddressWritten(old(backend.View()), backend.View(), enabled, g)
    ensures forall o :: o != "ipaddr" && o != "netmask" ==>
      Get(backend.View(), "network", "guest_turris", o) == Get(old(backend.View()), "network", "guest_turris", o)
  {
    hide ConfigsIn, ShapeOf, KindIn, OrderIn, Get, Fingerprint, OnlySections, PairsIn, Stored;
    Literals.InterfaceOptions();
    ghost var st := backend.View();
    OnlyNothing(st, "network", {"guest_turris"});
    if enabled {
      var pairs := [("ipaddr", g.ip), ("netmask", g.netmask)];
      SetOptions(backend, "network", "guest_turris", pairs);
      AddressOnly(st, backend.View(), g);
      PairHolds(st, backend.View(), "network", "guest_turris", pairs, 0);
      PairHolds(st, backend.View(), "network", "guest_turris", pairs, 1);
    }
  }

  lemma AddressOnly(st: Store, st': Store, g: Guest)
    requires PairsIn(st, st', "network", "guest_turris", [("ipaddr", g.ip), ("netmask", g.netmask)])
    ensures forall o :: o != "ipaddr" && o != "netmask" ==> Get(st', "network", "guest_turris", o) == Get(st, "network", "guest_turris", o)
  {
    hide Get;
  }

  /** No other edit of the interface concerns the address. */
  lemma AddressFinished(st2: Store, st3: Store, st4: Store, st5: Store, st6: Store, flag: string, enabled: bool, g: Guest)
    requires PairsIn(st2, st3, "network", "guest_turris", [("device", "br-guest-turris")])
    requires AddressWritten(st3, st4, enabled, g)
    requires OnlySections(st4, st5, "network", {"br_guest_turris"})
    requires PairsIn(st5, st6, "network", "guest_turris", [("ip6assign", "64")])
    ensures AddressWritten(st2, st6, enabled, g)
  {
    hide ConfigsIn, ShapeOf, KindIn, OrderIn, Get, Fingerprint, OnlySections, PairsIn, LastAt, Names, Stored;
    Literals.Interfaces();
    Literals.CommonOptions();
    Literals.InterfaceOptions();
    NotNamed(st2, st3, "network", "guest_turris", [("device", "br-guest-turris")], "ipaddr");
    NotNamed(st2, st3, "network", "guest_turris", [("device", "br-guest-turris")], "netmask");
    OnlyOthers(st4, st5, "network", {"br_guest_turris"}, "guest_turris");
    NotNamed(st5, st6, "network", "guest_turris", [("ip6assign", "64")], "ipaddr");
    NotNamed(st5, st6, "network", "guest_turris", [("ip6assign", "64")], "netmask");
  }

  lemma InterfaceStarted(st: Store, st1: Store, st2: Store, enabled: bool)
    requires OnlySections(st, st1, "network", {"guest_turris"}) && OnlySections(st1, st2, "network", {"br_guest_turris"})
    requires PairsIn(st, st1, "network", "guest_turris", [("enabled", StoreBool(enabled)), ("proto", "static")])
    requires PairsIn(st1, st2, "network", "br_guest_turris", [("name", "br-guest-turris"), ("type", "bridge")])
    ensures OnlySections(st, st2, "network", {"guest_turris", "br_guest_turris"})
    ensures FlagIs(st2, "network", "guest_turris", enabled)
    ensures Get(st2, "network", "br_guest_turris", "name") == Some(Text("br-guest-turris"))
    ensures Get(st2, "network", "guest_turris", "ifname") == Get(st, "network", "guest_turris", "ifname")
    ensures Kind(st2, "network", "guest_turris") == Kind(st1, "network", "guest_turris")
    ensures forall o | o in ["ipaddr", "netmask"] :: Get(st2, "network", "guest_turris", o) == Get(st, "network", "guest_turris", o)
  {
    hide ConfigsIn, ShapeOf, KindIn, OrderIn, Get, Fingerprint, OnlySections, StoreBool, PairsIn, LastAt, Names;
    Literals.Interfaces();
    Literals.GuestRules();
    Literals.CommonOptions();
    Literals.InterfaceOptions();
    var ps, qs := [("enabled", StoreBool(enabled)), ("proto", "static")], [("name", "br-guest-turris"), ("type", "bridge")];
    PairHolds(st, st1, "network", "guest_turris", ps, 0);
    PairHolds(st1, st2, "network", "br_guest_turris", qs, 0);
    NotNamed(st, st1, "network", "guest_turris", ps, "ifname");
    NotNamed(st, st1, "network", "guest_turris", ps, "ipaddr");
    NotNamed(st, st1, "network", "guest_turris", ps, "netmask");
    OnlyOthers(st1, st2, "network", {"br_guest_turris"}, "guest_turris");
    OnlyBoth(st, st1, st2, "network", {"guest_turris"}, {"br_guest_turris"});
    assert {"guest_turris"} + {"br_guest_turris"} == {"guest_turris", "br_guest_turris"};
  }

  lemma InterfaceFinished(st2: Store, st3: Store, st4: Store, st5: Store, st6: Store, flag: string)
    requires OnlySections(st2, st3, "network", {"guest_turris"}) && OnlySections(st3, st4, "network", {"guest_turris"})
    requires OnlySections(st4, st5, "network", {"br_guest_turris"}) && OnlySections(st5, st6, "network", {"guest_turris"})
    requires PairsIn(st2, st3, "network", "guest_turris", [("device", "br-guest-turris")])
    requires forall o :: o != "ipaddr" && o != "netmask" ==> Get(st4, "network", "guest_turris", o) == Get(st3, "network", "guest_turris", o)
    requires PairsIn(st4, st5, "network", "br_guest_turris", [("bridge_empty", flag)])
    requires PairsIn(st5, st6, "network", "guest_turris", [("ip6assign", "64")])
    ensures OnlySections(st2, st6, "network", {"guest_turris", "br_guest_turris"})
    ensures Get(st6, "network", "guest_turris", "device") == Some(Text("br-guest-turris"))
    ensures Get(st6, "network", "guest_turris", "ifname") == Get(st2, "network", "guest_turris", "ifname")
    ensures Get(st6, "network", "guest_turris", "enabled") == Get(st2, "network", "guest_turris", "enabled")
    ensures Get(st6, "network", "br_guest_turris", "name") == Get(st2, "network", "br_guest_turris", "name")
  {
    hide ConfigsIn, ShapeOf, KindIn, OrderIn, Get, Fingerprint, OnlySections, PairsIn, LastAt, Names;
    Literals.Interfaces();
    Literals.GuestRules();
    Literals.CommonOptions();
    Literals.InterfaceOptions();
    PairHolds(st2, st3, "network", "guest_turris", [("device", "br-guest-turris")], 0);
    NotNamed(st2, st3, "network", "guest_turris", [("device", "br-guest-turris")], "ifname");
    NotNamed(st2, st3, "network", "guest_turris", [("device", "br-guest-turris")], "enabled");
    NotNamed(st4, st5, "network", "br_guest_turris", [("bridge_empty", flag)], "name");
    NotNamed(st5, st6, "network", "guest_turris", [("ip6assign", "64")], "device");
    NotNamed(st5, st6, "network", "guest_turris", [("ip6assign", "64")], "ifname");
    NotNamed(st5, st6, "network", "guest_turris", [("ip6assign", "64")], "enabled");
    OnlyOthers(st2, st3, "network", {"guest_turris"}, "br_guest_turris");
    OnlyOthers(st3, st4, "network", {"guest_turris"}, "br_guest_turris");
    OnlyOthers(st4, st5, "network", {"br_guest_turris"}, "guest_turris");
    OnlyOthers(st5, st6, "network", {"guest_turris"}, "br_guest_turris");
    OnlyBoth(st2, st3, st4, "network", {"guest_turris"}, {"guest_turris"});
    OnlyBoth(st4, st5, st6, "network", {"br_guest_turris"}, {"guest_turris"});
    OnlyBoth(st2, st4, st6, "network", {"guest_turris"} + {"guest_turris"}, {"br_guest_turris"} + {"guest_turris"});
    assert {"guest_turris"} + {"guest_turris"} + ({"br_guest_turris"} + {"guest_turris"}) == {"guest_turris", "br_guest_turris"};
  }

  lemma NotNamed(st: Store, st': Store, c: string, s: string, pairs: Pairs, o: string)
    requires PairsIn(st, st', c, s, pairs) && forall j | 0 <= j < |pairs| :: pairs[j].0 != o
    ensures Get(st', c, s, o) == Get(st, c, s, o)
  {
    hide Get;
  }

  // ---------------------------------------------------------------- the other configs

  /** These firewall sections are switched on or off. */
  ghost predicate FlagsAre(st: Store, names: set<string>, enabled: bool) {
    forall s | s in names :: FlagIs(st, "firewall", s, enabled)
  }

  /** Where the firewall edits stand: nothing else changed, and these sections are switched. */
  ghost predicate Switched(st: Store, st': Store, names: set<string>, enabled: bool) {
    OnlyConfig(st, st', "firewall") && FlagsAre(st', names, enabled)
  }

  lemma SwitchedKept(st: Store, st': Store, st'': Store, names: set<string>, enabled: bool, s: string)
    requires Switched(st, st', names, enabled) && OnlySections(st', st'', "firewall", {s}) && s !in names
    ensures Switched(st, st'', names, enabled)
  {
    hide Get, StoreBool, OnlyConfig;
    OnlyConfigTwice(st, st', st'', "firewall");
  }

  /** The zone holds the guest network and nothing else, and lets nothing in or through. */
  ghost predicate ZoneIs(st: Store) {
    && Get(st, "firewall", "guest_turris", "name") == Some(Text("tr_guest"))
    && Get(st, "firewall", "guest_turris", "network") == Some(Items(["guest_turris"]))
    && Get(st, "firewall", "guest_turris", "input") == Some(Text("REJECT"))
    && Get(st, "firewall", "guest_turris", "forward") == Some(Text("REJECT"))
    && Get(st, "firewall", "guest_turris", "output") == Some(Text("ACCEPT"))
  }

  /** The forwarding leads from the guest zone to WAN. */
  ghost predicate ForwardIs(st: Store) {
    && Get(st, "firewall", "guest_turris_forward_wan", "src") == Some(Text("tr_guest"))
    && Get(st, "firewall", "guest_turris_forward_wan", "dest") == Some(Text("wan"))
  }

  /** Zone and forwarding are as they were, unless this is one of them. */
  ghost predicate GuardsKept(st: Store, st': Store, s: string) {
    && (s != "guest_turris" && ZoneIs(st) ==> ZoneIs(st'))
    && (s != "guest_turris_forward_wan" && ForwardIs(st) ==> ForwardIs(st'))
  }

  lemma OthersGuard(st: Store, st': Store, s: string)
    requires OnlySections(st, st', "firewall", {s})
    ensures GuardsKept(st, st', s)
  {
    hide Get, ConfigsIn, ShapeOf, KindIn, OrderIn, OnlySections;
    if s != "guest_turris" { OnlyOthers(st, st', "firewall", {s}, "guest_turris"); }
    if s != "guest_turris_forward_wan" { OnlyOthers(st, st', "firewall", {s}, "guest_turris_forward_wan"); }
  }

  lemma ForwardWritten(st: Store, st': Store, flag: string)
    requires PairsIn(st, st', "firewall", "guest_turris_forward_wan",
      [("enabled", flag)] + [("name", "guest to wan forward"), ("src", "tr_guest"), ("dest", "wan")])
    ensures ForwardIs(st')
  {
    hide Get, Fingerprint, PairsIn;
    Literals.CommonOptions();
    Literals.FirewallOptions();
    var pairs := [("enabled", flag)] + [("name", "guest to wan forward"), ("src", "tr_guest"), ("dest", "wan")];
    assert pairs == [("enabled", flag), ("name", "guest to wan forward"), ("src", "tr_guest"), ("dest", "wan")];
    PairHolds(st, st', "firewall", "guest_turris_forward_wan", pairs, 2);
    PairHolds(st, st', "firewall", "guest_turris_forward_wan", pairs, 3);
  }

  /** A section whose first option is the switch. */
  method WriteSwitched(backend: UciBackend, kind: string, s: string, enabled: bool, rest: Pairs,
                       ghost st: Store, ghost names: set<string>)
    requires backend.Valid()
    requires !backend.raised ==> Switched(st, backend.View(), names, enabled)
    requires s !in names && forall j | 0 <= j < |rest| :: rest[j].0 != "enabled"
    modifies backend
    ensures backend.InBlock() && backend.raised == (old(backend.raised) || !HasConfig(old(backend.View()), "firewall"))
    ensures !backend.raised ==> Switched(st, backend.View(), names + {s}, enabled) && Has(backend.View(), "firewall", s)
    ensures !backend.raised ==>
      && GuardsKept(old(backend.View()), backend.View(), s)
      && PairsIn(old(backend.View()), backend.View(), "firewall", s, [("enabled", StoreBool(enabled))] + rest)
  {
    hide Get, StoreBool, OnlyConfig, OnlySections, PairsIn, ConfigsIn, ShapeOf, KindIn, GuardsKept;
    if backend.raised { return; }
    ghost var before := backend.View();
    var pairs := [("enabled", StoreBool(enabled))] + rest;
    WriteSection(backend, "firewall", kind, s, pairs);
    if backend.raised { return; }
    SwitchedKept(st, before, backend.View(), names, enabled, s);
    OthersGuard(before, backend.View(), s);
    assert forall j | 0 < j < |pairs| :: pairs[j] == rest[j - 1];
    PairHolds(before, backend.View(), "firewall", s, pairs, 0);
  }

  /** A section without a switch. */
  method WriteRule(backend: UciBackend, s: string, pairs: Pairs, listOption: string, items: seq<string>,
                   ghost st: Store, ghost names: set<string>, ghost enabled: bool)
    requires backend.Valid()
    requires !backend.raised ==> Switched(st, backend.View(), names, enabled)
    requires s !in names
    modifies backend
    ensures backend.InBlock() && backend.raised == (old(backend.raised) || !HasConfig(old(backend.View()), "firewall"))
    ensures !backend.raised ==> Switched(st, backend.View(), names, enabled) && GuardsKept(old(backend.View()), backend.View(), s)
  {
    hide ZoneIs, ForwardIs, Get, Switched, OnlySections, PairsIn, ConfigsIn, ShapeOf, KindIn, Listed, OrderIn;
    if backend.raised { return; }
    ghost var before := backend.View();
    WriteSection(backend, "firewall", "rule", s, pairs);
    if backend.raised { return; }
    SwitchedKept(st, before, backend.View(), names, enabled, s);
    OthersGuard(before, backend.View(), s);
    if items != [] {
      ghost var written := backend.View();
      backend.ReplaceList("firewall", s, listOption, items);
      OnlyOptions(written, backend.View(), "firewall", s);
      SwitchedKept(st, written, backend.View(), names, enabled, s);
      OthersGuard(written, backend.View(), s);
    }
  }

  /** The zone, the forwarding and the rules. */
  method WriteFirewall(backend: UciBackend, enabled: bool)
    requires backend.Valid() && !backend.raised
    modifies backend
    ensures backend.InBlock() && backend.raised == !HasConfig(old(backend.View()), "firewall")
    ensures !backend.raised ==> Switched(old(backend.View()), backend.View(),
      {"guest_turris", "guest_turris_forward_wan", "guest_turris_dns_rule", "guest_turris_dhcp_rule"}, enabled)
    ensures !backend.raised ==> ZoneIs(backend.View()) && ForwardIs(backend.View())
  {
    hide ZoneIs, ForwardIs, PairsIn, StoreBool, Get, Switched, ConfigsIn, ShapeOf, KindIn, Fingerprint, Listed, OrderIn;
    Literals.Interfaces();
    Literals.GuestRules();
    Literals.Configs();
    Literals.CommonOptions();
    Literals.FirewallOptions();
    ghost var st := backend.View();
    WriteZone(backend, enabled);
    ghost var zoned := backend.View();
    WriteSwitched(backend, "forwarding", "guest_turris_forward_wan", enabled,
      [("name", "guest to wan forward"), ("src", "tr_guest"), ("dest", "wan")], st, {"guest_turris"});
    if !backend.raised { ForwardWritten(zoned, backend.View(), StoreBool(enabled)); }
    assert {"guest_turris"} + {"guest_turris_forward_wan"} == {"guest_turris", "guest_turris_forward_wan"};
    WriteSwitched(backend, "rule", "guest_turris_dns_rule", enabled,
      [("name", "guest dns rule"), ("src", "tr_guest"), ("proto", "tcpudp"), ("dest_port", "53"), ("target", "ACCEPT")],
      st, {"guest_turris", "guest_turris_forward_wan"});
    assert {"guest_turris", "guest_turris_forward_wan"} + {"guest_turris_dns_rule"} ==
      {"guest_turris", "guest_turris_forward_wan", "guest_turris_dns_rule"};
    WriteSwitched(backend, "rule", "guest_turris_dhcp_rule", enabled,
      [("name", "guest dhcp rule"), ("src", "tr_guest"), ("proto", "udp"), ("src_port", "67-68"),
       ("dest_port", "67-68"), ("target", "ACCEPT")],
      st, {"guest_turris", "guest_turris_forward_wan", "guest_turris_dns_rule"});
    ghost var all := {"guest_turris", "guest_turris_forward_wan", "guest_turris_dns_rule", "guest_turris_dhcp_rule"};
    assert {"guest_turris", "guest_turris_forward_wan", "guest_turris_dns_rule"} + {"guest_turris_dhcp_rule"} == all;
    WriteRule(backend, "guest_turris_Allow_DHCPv6",
      [("src", "tr_guest"), ("proto", "udp"), ("src_ip", "fe80::/10"), ("src_port", "546-547"), ("dest_ip", "fe80::/10"),
       ("dest_port", "546-547"), ("family", "ipv6"), ("target", "ACCEPT")], "", [], st, all, enabled);
    WriteRule(backend, "guest_turris_Allow_MLD",
      [("src", "tr_guest"), ("proto", "icmp"), ("src_ip", "fe80::/10"), ("family", "ipv6"), ("target", "ACCEPT")],
      "icmp_type", ["130/0", "131/0", "132/0", "143/0"], st, all, enabled);
    WriteRule(backend, "guest_turris_Allow_ICMPv6_Input",
      [("src", "tr_guest"), ("proto", "icmp"), ("limit", "1000/sec"), ("family", "ipv6"), ("target", "ACCEPT")],
      "icmp_type", ["echo-request", "echo-reply", "destination-unreachable", "packet-too-big", "time-exceeded",
                    "bad-header", "unknown-header-type", "router-solicitation", "neighbour-solicitation",
                    "router-advertisement", "neighbour-advertisement"], st, all, enabled);
  }

  lemma SwitchedStart(st: Store, enabled: bool)
    ensures Switched(st, st, {}, enabled)
  {
    OnlyNothing(st, "firewall", {});
  }

  method WriteZone(backend: UciBackend, enabled: bool)
    requires backend.Valid() && !backend.raised
    modifies backend
    ensures backend.InBlock() && backend.raised == !HasConfig(old(backend.View()), "firewall")
    ensures !backend.raised ==> Switched(old(backend.View()), backend.View(), {"guest_turris"}, enabled) && ZoneIs(backend.View())
  {
    hide Get, ConfigsIn, ShapeOf, KindIn, Fingerprint, Listed, OrderIn, OnlyConfig, OnlySections, StoreBool, ConfigKept, PairsIn, ZoneIs, GuardsKept;
    Literals.Configs();
    Literals.CommonOptions();
    Literals.FirewallOptions();
    ghost var st := backend.View();
    SwitchedStart(st, enabled);
    WriteSwitched(backend, "zone", "guest_turris", enabled, [("name", "tr_guest")], st, {});
    if backend.raised { return; }
    ghost var st1 := backend.View();
    backend.ReplaceList("firewall", "guest_turris", "network", ["guest_turris"]);
    ghost var st2 := backend.View();
    OnlyOptions(st1, st2, "firewall", "guest_turris");
    var pairs := [("input", "REJECT"), ("forward", "REJECT"), ("output", "ACCEPT")];
    SetOptions(backend, "firewall", "guest_turris", pairs);
    NotNamed(st2, backend.View(), "firewall", "guest_turris", pairs, "enabled");
    SwitchedKept(st, st1, st2, {}, enabled, "guest_turris");
    SwitchedKept(st, st2, backend.View(), {}, enabled, "guest_turris");
    ZoneWritten(st, st1, st2, backend.View(), StoreBool(enabled));
  }

  lemma ZoneWritten(st: Store, st1: Store, st2: Store, st3: Store, flag: string)
    requires PairsIn(st, st1, "firewall", "guest_turris", [("enabled", flag)] + [("name", "tr_guest")])
    requires OptionIs(st1, st2, "firewall", "guest_turris", "network", Listed(["guest_turris"]))
    requires PairsIn(st2, st3, "firewall", "guest_turris", [("input", "REJECT"), ("forward", "REJECT"), ("output", "ACCEPT")])
    ensures ZoneIs(st3)
  {
    hide Get, Fingerprint, PairsIn, ShapeOf, Listed;
    ZoneNamed(st, st1, flag);
    ListedOne("guest_turris");
    NetworkApart();
    ZoneClosed(st2, st3);
  }

  lemma NetworkApart()
    ensures "network" != "name"
  {
  }

  lemma ListedOne(s: string)
    requires s != ""
    ensures Listed([s]) == Some(Items([s]))
  {
    AllShown([s]);
  }

  lemma ZoneNamed(st: Store, st': Store, flag: string)
    requires PairsIn(st, st', "firewall", "guest_turris", [("enabled", flag)] + [("name", "tr_guest")])
    ensures Get(st', "firewall", "guest_turris", "name") == Some(Text("tr_guest"))
  {
    hide Get, Fingerprint, PairsIn;
    Literals.CommonOptions();
    var pairs := [("enabled", flag)] + [("name", "tr_guest")];
    assert pairs == [("enabled", flag), ("name", "tr_guest")];
    PairHolds(st, st', "firewall", "guest_turris", pairs, 1);
  }

  lemma ZoneClosed(st: Store, st': Store)
    requires PairsIn(st, st', "firewall", "guest_turris", [("input", "REJECT"), ("forward", "REJECT"), ("output", "ACCEPT")])
    ensures Get(st', "firewall", "guest_turris", "name") == Get(st, "firewall", "guest_turris", "name")
    ensures Get(st', "firewall", "guest_turris", "network") == Get(st, "firewall", "guest_turris", "network")
    ensures Get(st', "firewall", "guest_turris", "input") == Some(Text("REJECT"))
    ensures Get(st', "firewall", "guest_turris", "forward") == Some(Text("REJECT"))
    ensures Get(st', "firewall", "guest_turris", "output") == Some(Text("ACCEPT"))
  {
    hide Get, Fingerprint, PairsIn;
    Literals.Configs();
    Literals.CommonOptions();
    Literals.FirewallOptions();
    var pairs := [("input", "REJECT"), ("forward", "REJECT"), ("output", "ACCEPT")];
    NotNamed(st, st', "firewall", "guest_turris", pairs, "name");
    NotNamed(st, st', "firewall", "guest_turris", pairs, "network");
    PairHolds(st, st', "firewall", "guest_turris", pairs, 0);
    PairHolds(st, st', "firewall", "guest_turris", pairs, 1);
    PairHolds(st, st', "firewall", "guest_turris", pairs, 2);
  }

  /** The server of an enabled guest network reads back, its numbers only when it is on; the server of
      a disabled one is left alone. */
  ghost predicate ServerWritten(st: Store, st': Store, enabled: bool, dhcp: Lan.Dhcp) {
    && ReadServing(st') == (if enabled then Some(dhcp.On?) else ReadServing(st))
    && ReadPool(st') == (if enabled && dhcp.On? then Some((dhcp.start, dhcp.limit, dhcp.leaseTime)) else ReadPool(st))
  }

  /** The DHCP server of the guest network. */
  method WriteDhcp(backend: UciBackend, enabled: bool, g: Guest)
    requires backend.Valid() && !backend.raised
    modifies backend
    ensures backend.InBlock() && backend.raised == !HasConfig(old(backend.View()), "dhcp")
    ensures !backend.raised ==>
      && OnlySections(old(backend.View()), backend.View(), "dhcp", {"guest_turris"})
      && ServerWritten(old(backend.View()), backend.View(), enabled, g.dhcp)
  {
    hide ConfigsIn, ShapeOf, KindIn, OrderIn, Get, Fingerprint, OnlySections, PairsIn, ReadServing, ReadPool;
    Literals.CommonOptions();
    Literals.DhcpOptions();
    ghost var st, name := backend.View(), {"guest_turris"};
    var pairs := [("interface", "guest_turris")];
    WriteSection(backend, "dhcp", "dhcp", "guest_turris", pairs);
    if backend.raised { return; }
    ghost var st1 := backend.View();
    forall o | o in ["ignore", "start", "limit", "leasetime"] ensures Get(st1, "dhcp", "guest_turris", o) == Get(st, "dhcp", "guest_turris", o) {
      NotNamed(st, st1, "dhcp", "guest_turris", pairs, o);
    }
    ServerSame(st, st1);
    if enabled {
      WriteServer(backend, g);
      OnlyBoth(st, st1, backend.View(), "dhcp", name, name);
      assert name + name == name;
    }
  }

  lemma ServerSame(st: Store, st': Store)
    requires forall o | o in ["ignore", "start", "limit", "leasetime"] ::
      Get(st', "dhcp", "guest_turris", o) == Get(st, "dhcp", "guest_turris", o)
    ensures ReadServing(st') == ReadServing(st) && ReadPool(st') == ReadPool(st)
  {
    hide Get, ParseBool, Int, Lan.NormalizeLease, PyText;
    var options := ["ignore", "start", "limit", "leasetime"];
    assert options[0] in options && options[1] in options && options[2] in options && options[3] in options;
  }

  /** The switch of the server, its pool, and the router as the DNS server. */
  method WriteServer(backend: UciBackend, g: Guest)
    requires backend.Valid() && !backend.raised && Has(backend.View(), "dhcp", "guest_turris")
    modifies backend
    ensures backend.InBlock() && !backend.raised
    ensures OnlySections(old(backend.View()), backend.View(), "dhcp", {"guest_turris"})
    ensures ServerWritten(old(backend.View()), backend.View(), true, g.dhcp)
  {
    hide ConfigsIn, ShapeOf, KindIn, OrderIn, Get, Fingerprint, OnlySections, Listed, ReadServing, ReadPool;
    Literals.DhcpOptions();
    ghost var st, name := backend.View(), {"guest_turris"};
    WritePool(backend, g.dhcp);
    if g.ip != "" {
      ghost var st1 := backend.View();
      backend.ReplaceList("dhcp", "guest_turris", "dhcp_option", ["6," + g.ip]);
      OnlyOptions(st1, backend.View(), "dhcp", "guest_turris");
      OnlyBoth(st, st1, backend.View(), "dhcp", name, name);
      assert name + name == name;
      assert "dhcp_option" !in ["ignore", "start", "limit", "leasetime"] by { Literals.CommonOptions(); }
      ServerSame(st1, backend.View());
    }
  }

  method WritePool(backend: UciBackend, dhcp: Lan.Dhcp)
    requires backend.Valid() && !backend.raised && Has(backend.View(), "dhcp", "guest_turris")
    modifies backend
    ensures backend.InBlock() && !backend.raised && ShapeOf(backend.View()) == ShapeOf(old(backend.View()))
    ensures OnlySections(old(backend.View()), backend.View(), "dhcp", {"guest_turris"})
    ensures ServerWritten(old(backend.View()), backend.View(), true, dhcp)
  {
    hide ConfigsIn, ShapeOf, KindIn, OrderIn, Get, Fingerprint, OnlySections, PairsIn, StoreBool, Decimal, Lan.LeaseText;
    ghost var st, name := backend.View(), {"guest_turris"};
    if dhcp.On? {
      var pairs := [("ignore", StoreBool(!dhcp.On?)), ("start", Decimal(dhcp.start)), ("limit", Decimal(dhcp.limit)),
                    ("leasetime", Lan.LeaseText(dhcp.leaseTime)), ("dhcpv6", "server"), ("ra", "server")];
      SetOptions(backend, "dhcp", "guest_turris", pairs);
      PoolReadsBack(st, backend.View(), dhcp);
    } else {
      SetOptions(backend, "dhcp", "guest_turris", [("ignore", StoreBool(!dhcp.On?))]);
      OffReadsBack(st, backend.View());
    }
  }

  lemma PoolReadsBack(st: Store, st': Store, dhcp: Lan.Dhcp)
    requires dhcp.On?
    requires PairsIn(st, st', "dhcp", "guest_turris",
      [("ignore", StoreBool(false)), ("start", Decimal(dhcp.start)), ("limit", Decimal(dhcp.limit)),
       ("leasetime", Lan.LeaseText(dhcp.leaseTime)), ("dhcpv6", "server"), ("ra", "server")])
    ensures ServerWritten(st, st', true, dhcp)
  {
    hide Get, PairsIn, StoreBool, Decimal, Lan.LeaseText, Lan.NormalizeLease, ParseBool, Int, ReadPool, ReadBool, Stored;
    PoolWritten(st, st', StoreBool(false), Decimal(dhcp.start), Decimal(dhcp.limit), Lan.LeaseText(dhcp.leaseTime));
    BoolReadsBack(st', "dhcp", "guest_turris", "ignore", false, false);
    NumbersReadBack(st', dhcp);
  }

  lemma PoolWritten(st: Store, st': Store, flag: string, start: string, limit: string, lease: string)
    requires PairsIn(st, st', "dhcp", "guest_turris",
      [("ignore", flag), ("start", start), ("limit", limit), ("leasetime", lease), ("dhcpv6", "server"), ("ra", "server")])
    ensures Get(st', "dhcp", "guest_turris", "ignore") == Stored(flag)
    ensures Get(st', "dhcp", "guest_turris", "start") == Stored(start)
    ensures Get(st', "dhcp", "guest_turris", "limit") == Stored(limit)
    ensures Get(st', "dhcp", "guest_turris", "leasetime") == Stored(lease)
  {
    hide Get, Fingerprint, PairsIn, Stored;
    Literals.CommonOptions();
    Literals.DhcpOptions();
    var pairs := [("ignore", flag), ("start", start), ("limit", limit), ("leasetime", lease), ("dhcpv6", "server"), ("ra", "server")];
    PairHolds(st, st', "dhcp", "guest_turris", pairs, 0);
    PairHolds(st, st', "dhcp", "guest_turris", pairs, 1);
    PairHolds(st, st', "dhcp", "guest_turris", pairs, 2);
    PairHolds(st, st', "dhcp", "guest_turris", pairs, 3);
  }

  lemma NumbersReadBack(st: Store, dhcp: Lan.Dhcp)
    requires dhcp.On?
    requires Get(st, "dhcp", "guest_turris", "start") == Stored(Decimal(dhcp.start))
    requires Get(st, "dhcp", "guest_turris", "limit") == Stored(Decimal(dhcp.limit))
    requires Get(st, "dhcp", "guest_turris", "leasetime") == Stored(Lan.LeaseText(dhcp.leaseTime))
    ensures ReadPool(st) == Some((dhcp.start, dhcp.limit, dhcp.leaseTime))
  {
    assert Lan.LeaseText(dhcp.leaseTime) != "";
    hide Get, Decimal, Lan.LeaseText, Lan.NormalizeLease, Int;
    NatReadsBack(st, "dhcp", "guest_turris", "start", dhcp.start, 100);
    NatReadsBack(st, "dhcp", "guest_turris", "limit", dhcp.limit, 150);
    Lan.LeaseReadsBack(dhcp.leaseTime);
  }

  lemma OffReadsBack(st: Store, st': Store)
    requires PairsIn(st, st', "dhcp", "guest_turris", [("ignore", StoreBool(true))])
    ensures ServerWritten(st, st', true, Lan.Off)
  {
    hide Get, Fingerprint, PairsIn, StoreBool, Lan.NormalizeLease, ParseBool, Int, PyText;
    Literals.CommonOptions();
    Literals.DhcpOptions();
    var pairs := [("ignore", StoreBool(true))];
    PairHolds(st, st', "dhcp", "guest_turris", pairs, 0);
    NotNamed(st, st', "dhcp", "guest_turris", pairs, "start");
    NotNamed(st, st', "dhcp", "guest_turris", pairs, "limit");
    NotNamed(st, st', "dhcp", "guest_turris", pairs, "leasetime");
    BoolReadsBack(st', "dhcp", "guest_turris", "ignore", true, false);
  }

  /** The limit that the request asks for, if it does and the network is enabled. */
  function Limit(enabled: bool, g: Guest): Option<Lan.Qos> {
    if enabled && g.qos.Some? && g.qos.value.Qos? then g.qos else None
  }

  /** The limit reads back where there is an sqm config to keep it, and no limit as the defaults. */
  ghost predicate LimitIs(st: Store, limit: Option<Lan.Qos>) {
    ReadLimit(st) == Some(if limit.Some? && HasConfig(st, "sqm") then (true, limit.value) else (false, Lan.Qos(1024, 1024)))
  }

  /** The queue of the guest limit; a missing sqm config is not an error here. */
  method WriteQueue(backend: UciBackend, enabled: bool, g: Guest) returns (sqm: string)
    requires backend.Valid() && !backend.raised
    modifies backend
    ensures backend.InBlock() && !backend.raised
    ensures OnlySections(old(backend.View()), backend.View(), "sqm", {"guest_limit_turris"})
    ensures LimitIs(backend.View(), Limit(enabled, g))
    ensures sqm == if Limit(enabled, g).None? then "disable" else if HasConfig(old(backend.View()), "sqm") then "enable" else ""
  {
    hide ConfigsIn, ShapeOf, KindIn, OrderIn, Get, OnlySections, PairsIn, ReadLimit, StoreBool;
    ghost var st, name := backend.View(), {"guest_limit_turris"};
    NoOptions(st, "sqm", "guest_limit_turris");
    backend.DelSection("sqm", "guest_limit_turris", true);
    ghost var st1 := backend.View();
    if Has(st, "sqm", "guest_limit_turris") {
      OnlyGone(st, st1, "sqm", "guest_limit_turris");
    } else {
      OnlyNothing(st, "sqm", name);
    }
    NoLimitReadsBack(st1);
    if Limit(enabled, g).None? { return "disable"; }
    if !HasConfig(backend.View(), "sqm") { return ""; }
    FillQueue(backend, Limit(enabled, g).value);
    OnlyBoth(st, st1, backend.View(), "sqm", name, name);
    assert name + name == name;
    return "enable";
  }

  method FillQueue(backend: UciBackend, qos: Lan.Qos)
    requires backend.Valid() && !backend.raised && HasConfig(backend.View(), "sqm") && qos.Qos?
    modifies backend
    ensures backend.InBlock() && !backend.raised
    ensures OnlySections(old(backend.View()), backend.View(), "sqm", {"guest_limit_turris"})
    ensures ReadLimit(backend.View()) == Some((true, qos))
  {
    hide ConfigsIn, ShapeOf, KindIn, OrderIn, Get, Fingerprint, OnlySections, PairsIn, StoreBool, Decimal, ReadLimit;
    Literals.CommonOptions();
    Literals.QueueOptions();
    var pairs := [("enabled", StoreBool(true)), ("interface", "br-guest-turris"), ("qdisc", "fq_codel"), ("script", "simple.qos"),
                  ("link_layer", "none"), ("verbosity", "5"), ("debug_logging", "1"),
                  ("upload", Decimal(qos.download)), ("download", Decimal(qos.upload))];
    ghost var st := backend.View();
    WriteSection(backend, "sqm", "queue", "guest_limit_turris", pairs);
    PairHolds(st, backend.View(), "sqm", "guest_limit_turris", pairs, 0);
    PairHolds(st, backend.View(), "sqm", "guest_limit_turris", pairs, 7);
    PairHolds(st, backend.View(), "sqm", "guest_limit_turris", pairs, 8);
    LimitReadsBack(backend.View(), qos);
  }

  lemma NoLimitReadsBack(st: Store)
    requires forall o :: Get(st, "sqm", "guest_limit_turris", o) == None
    ensures ReadLimit(st) == Some((false, Lan.Qos(1024, 1024)))
  {
    hide Get;
  }

  lemma LimitReadsBack(st: Store, qos: Lan.Qos)
    requires qos.Qos? && Get(st, "sqm", "guest_limit_turris", "enabled") == Stored(StoreBool(true))
    requires Get(st, "sqm", "guest_limit_turris", "upload") == Stored(Decimal(qos.download))
    requires Get(st, "sqm", "guest_limit_turris", "download") == Stored(Decimal(qos.upload))
    ensures ReadLimit(st) == Some((true, qos))
  {
    hide Get, Decimal, StoreBool, Stored;
    BoolReadsBack(st, "sqm", "guest_limit_turris", "enabled", true, false);
    NatReadsBack(st, "sqm", "guest_limit_turris", "upload", qos.download, 1024);
    NatReadsBack(st, "sqm", "guest_limit_turris", "download", qos.upload, 1024);
  }

  /** All that a caller needs to know of the step. */
  ghost predicate GuestSet(st: Store, st': Store, enabled: bool) {
    && GuestBridge(st, st')
    && (forall s :: s != "guest_turris" && s != "br_guest_turris" ==> Kind(st', "network", s) == Kind(st, "network", s))
    && (forall s, o :: s != "guest_turris" && s != "br_guest_turris" ==>
          Get(st', "network", s, o) == Get(st, "network", s, o))
    && (WellOrdered(st, "network") ==> WellOrdered(st', "network"))
    && FlagIs(st', "network", "guest_turris", enabled)
    && FlagsAre(st', {"guest_turris", "guest_turris_forward_wan", "guest_turris_dns_rule", "guest_turris_dhcp_rule"}, enabled)
    && Elsewhere(st, st')
  }

  /** Nothing changed in the configs that are none of the guest network's. */
  ghost predicate Elsewhere(st: Store, st': Store) {
    forall c :: c != "network" && c != "firewall" && c != "dhcp" && c != "sqm" ==> ConfigKept(st, st', c)
  }

  lemma StepsStayHere(st: Store, st1: Store, st2: Store, st3: Store, st4: Store)
    requires OnlyConfig(st, st1, "network") && OnlyConfig(st1, st2, "firewall")
    requires OnlyConfig(st2, st3, "dhcp") && OnlyConfig(st3, st4, "sqm")
    ensures Elsewhere(st, st4)
  {
    hide ConfigKept;
    forall c | c != "network" && c != "firewall" && c != "dhcp" && c != "sqm" ensures ConfigKept(st, st4, c) {
      KeptTwice(st, st1, st2, c);
      KeptTwice(st, st2, st3, c);
      KeptTwice(st, st3, st4, c);
    }
  }

  /** What the reader of the settings shows of a request: everything of an enabled network, an empty
      address as the default; of a disabled one what was there before. */
  ghost predicate SettingsAre(st: Store, st': Store, enabled: bool, g: Guest) {
    && ReadGuestEnabled(st') == Some(enabled)
    && ZoneIs(st') && ForwardIs(st')
    && ReadAddress(st') ==
         (if enabled then (Text(if g.ip == "" then "10.111.222.1" else g.ip), Text(if g.netmask == "" then "255.255.255.0" else g.netmask))
          else ReadAddress(st))
    && ServerWritten(st, st', enabled, g.dhcp)
    && LimitIs(st', Limit(enabled, g))
  }

  /** `set_guest_network`: raises exactly when one of its configs is missing. */
  method SetGuestNetwork(backend: UciBackend, enabled: bool, g: Guest) returns (sqm: string)
    requires backend.Valid() && !backend.raised
    modifies backend
    ensures backend.InBlock()
    ensures backend.raised == !ConfigsThere(old(backend.View()))
    ensures !backend.raised ==>
      GuestSet(old(backend.View()), backend.View(), enabled) && SettingsAre(old(backend.View()), backend.View(), enabled, g)
  {
    hide ConfigsIn, ShapeOf, KindIn, OrderIn, Get, OnlySections, StoreBool, GuestBridge, FlagIs, FlagsAre, ConfigKept, GuestSet;
    hide AddressWritten, ServerWritten, LimitIs, Limit, SettingsAre, ZoneIs, ForwardIs;
    sqm := "";
    ghost var st := backend.View();
    WriteInterface(backend, enabled, g);
    if backend.raised { return; }
    ghost var st1 := backend.View();
    WriteFirewall(backend, enabled);
    if backend.raised { return; }
    ghost var st2 := backend.View();
    WriteDhcp(backend, enabled, g);
    if backend.raised { return; }
    ghost var st3 := backend.View();
    sqm := WriteQueue(backend, enabled, g);
    StepsMakeGuest(st, st1, st2, st3, backend.View(), enabled);
    StepsMakeSettings(st, st1, st2, st3, backend.View(), enabled, g);
  }

  /** The configs that the guest network cannot do without. */
  predicate ConfigsThere(st: Store) {
    HasConfig(st, "network") && HasConfig(st, "firewall") && HasConfig(st, "dhcp")
  }

  lemma StepsMakeSettings(st: Store, st1: Store, st2: Store, st3: Store, st4: Store, enabled: bool, g: Guest)
    requires OnlySections(st, st1, "network", {"guest_turris", "br_guest_turris"}) && AddressWritten(st, st1, enabled, g)
    requires OnlyConfig(st1, st2, "firewall") && ZoneIs(st2) && ForwardIs(st2)
    requires OnlySections(st2, st3, "dhcp", {"guest_turris"}) && ServerWritten(st2, st3, enabled, g.dhcp)
    requires OnlySections(st3, st4, "sqm", {"guest_limit_turris"}) && LimitIs(st4, Limit(enabled, g))
    requires ReadGuestEnabled(st4) == Some(enabled)
    ensures SettingsAre(st, st4, enabled, g)
  {
    hide Get, ConfigsIn, ShapeOf, KindIn, OrderIn, Fingerprint, WellOrdered, ReadGuestEnabled, ConfigKept, AddressWritten, ReadServing, ReadPool, LimitIs, Limit, ReadAddress, ZoneIs, ForwardIs;
    Literals.Configs();
    assert ConfigKept(st2, st3, "firewall") && ConfigKept(st3, st4, "firewall");
    KeptTwice(st2, st3, st4, "firewall");
    GuardsOfKept(st2, st4);
    assert ConfigKept(st1, st2, "network") && ConfigKept(st2, st3, "network") && ConfigKept(st3, st4, "network");
    KeptTwice(st1, st2, st3, "network");
    KeptTwice(st1, st3, st4, "network");
    AddressReadsBack(st, st1, st4, enabled, g);
    assert ConfigKept(st, st1, "dhcp") && ConfigKept(st1, st2, "dhcp") && ConfigKept(st3, st4, "dhcp");
    KeptTwice(st, st1, st2, "dhcp");
    ServerOfKept(st, st2);
    ServerOfKept(st3, st4);
  }

  lemma GuardsOfKept(st: Store, st': Store)
    requires ConfigKept(st, st', "firewall") && ZoneIs(st) && ForwardIs(st)
    ensures ZoneIs(st') && ForwardIs(st')
  {
    hide Get, ConfigsIn, ShapeOf, KindIn, OrderIn;
  }

  lemma AddressReadsBack(st: Store, st1: Store, st': Store, enabled: bool, g: Guest)
    requires AddressWritten(st, st1, enabled, g) && ConfigKept(st1, st', "network")
    ensures ReadAddress(st') ==
      if enabled then (Text(if g.ip == "" then "10.111.222.1" else g.ip), Text(if g.netmask == "" then "255.255.255.0" else g.netmask))
      else ReadAddress(st)
  {
    hide Get, ConfigsIn, ShapeOf, KindIn, OrderIn;
  }

  lemma ServerOfKept(st: Store, st': Store)
    requires ConfigKept(st, st', "dhcp")
    ensures ReadServing(st') == ReadServing(st) && ReadPool(st') == ReadPool(st)
  {
    hide Get, ConfigsIn, ShapeOf, KindIn, OrderIn, ReadServing, ReadPool;
    ServerSame(st, st');
  }

  lemma StepsMakeGuest(st: Store, st1: Store, st2: Store, st3: Store, st4: Store, enabled: bool)
    requires OnlySections(st, st1, "network", {"guest_turris", "br_guest_turris"}) && GuestBridge(st, st1)
    requires FlagIs(st1, "network", "guest_turris", enabled)
    requires Switched(st1, st2,
      {"guest_turris", "guest_turris_forward_wan", "guest_turris_dns_rule", "guest_turris_dhcp_rule"}, enabled)
    requires OnlySections(st2, st3, "dhcp", {"guest_turris"}) && OnlySections(st3, st4, "sqm", {"guest_limit_turris"})
    ensures GuestSet(st, st4, enabled) && ReadGuestEnabled(st4) == Some(enabled)
  {
    hide Get, ConfigsIn, ShapeOf, KindIn, OrderIn, StoreBool, Fingerprint, WellOrdered, ReadGuestEnabled, ConfigKept, Elsewhere;
    Literals.Configs();
    StepsStayHere(st, st1, st2, st3, st4);
    assert ConfigKept(st1, st2, "network") && ConfigKept(st2, st3, "network") && ConfigKept(st3, st4, "network");
    assert ConfigKept(st2, st3, "firewall") && ConfigKept(st3, st4, "firewall");
    KeptTwice(st1, st2, st3, "network");
    KeptTwice(st1, st3, st4, "network");
    KeptTwice(st2, st3, st4, "firewall");
    BridgeKept(st, st1, st4);
    FlagsKept(st2, st4,
      {"guest_turris", "guest_turris_forward_wan", "guest_turris_dns_rule", "guest_turris_dhcp_rule"}, enabled);
    NetworkKept(st1, st4, enabled);
    FlagsReadBack(st4, enabled);
    OutsideKept(st, st1, st4);
  }

  lemma BridgeKept(st: Store, st': Store, st'': Store)
    requires GuestBridge(st, st') && ConfigKept(st', st'', "network")
    ensures GuestBridge(st, st'')
  {
    hide Get, ConfigsIn, ShapeOf, KindIn;
  }

  lemma FlagsKept(st: Store, st': Store, names: set<string>, enabled: bool)
    requires FlagsAre(st, names, enabled) && ConfigKept(st, st', "firewall")
    ensures FlagsAre(st', names, enabled)
  {
    hide Get, StoreBool, ConfigsIn, ShapeOf, KindIn;
  }

  lemma NetworkKept(st: Store, st': Store, enabled: bool)
    requires FlagIs(st, "network", "guest_turris", enabled) && ConfigKept(st, st', "network")
    ensures FlagIs(st', "network", "guest_turris", enabled)
  {
    hide Get, StoreBool, ConfigsIn, ShapeOf, KindIn;
  }

  lemma OutsideKept(st: Store, st1: Store, st': Store)
    requires OnlySections(st, st1, "network", {"guest_turris", "br_guest_turris"}) && ConfigKept(st1, st', "network")
    ensures forall s :: s != "guest_turris" && s != "br_guest_turris" ==> Kind(st', "network", s) == Kind(st, "network", s)
    ensures forall s, o :: s != "guest_turris" && s != "br_guest_turris" ==>
      Get(st', "network", s, o) == Get(st, "network", s, o)
    ensures WellOrdered(st, "network") ==> WellOrdered(st', "network")
  {
    hide Get, ConfigsIn, ShapeOf, KindIn, OrderIn;
  }

  /** What enabling asks of the configuration: its configs, and a server whose options parse. */
  predicate EnablingPossible(st: Store) {
    ConfigsThere(st) && ReadServing(st).Some? && ReadPool(st).Some?
  }

  /** `enable_guest_network`: raises exactly when this is not possible, else the guest network is enabled
      with the server that it had.  A failed first attempt is repeated by the program and fails again for the
      same reason. */
  method EnableGuestNetwork(backend: UciBackend)
    requires backend.Valid() && !backend.raised
    modifies backend
    ensures backend.InBlock()
    ensures backend.raised == !EnablingPossible(old(backend.View()))
    ensures !backend.raised ==>
      && GuestSet(old(backend.View()), backend.View(), true) && ReadGuestEnabled(backend.View()) == Some(true)
      && ReadServing(backend.View()) == ReadServing(old(backend.View())) && ReadPool(backend.View()) == ReadPool(old(backend.View()))
  {
    hide ConfigsIn, ShapeOf, KindIn, OrderIn, Get, GuestSet, ReadGuestEnabled, ParseBool, Lan.NormalizeLease, PyText, ReadAddress, LimitIs, Limit;
    var st := backend.View();
    if !HasConfig(st, "network") || !HasConfig(st, "dhcp") { backend.Raise(); return; }
    var ignore := ReadBool(st, "dhcp", "guest_turris", "ignore", false);
    var start := ReadNat(st, "dhcp", "guest_turris", "start", 100);
    var limit := ReadNat(st, "dhcp", "guest_turris", "limit", 150);
    var lease := Lan.NormalizeLease(PyText(GetOr(st, "dhcp", "guest_turris", "leasetime", "3600")));
    if ignore.None? || start.None? || limit.None? || lease.None? { backend.Raise(); return; }
    var dhcp := if ignore.value then Lan.Off else Lan.On(start.value, limit.value, lease.value);
    var ip := PyText(GetOr(st, "network", "guest_turris", "ipaddr", "10.111.222.1"));
    var netmask := PyText(GetOr(st, "network", "guest_turris", "netmask", "255.255.255.0"));
    var _ := SetGuestNetwork(backend, true, Guest(ip, netmask, dhcp, None));
  }
}
