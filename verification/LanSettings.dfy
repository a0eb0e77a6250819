/** LAN settings: both modes are written as a run of store edits and read by a separate function. */
module LanSettings {
  import opened Wrappers
  import opened Texts
  import opened UciStore
  import opened UciOptions
  import opened LanClients
  import opened LanHosts
  import opened LanPruning
  import Literals
  import Ipv4

  // ---------------------------------------------------------------- settings

  datatype Dhcp = Off | On(start: nat, limit: nat, leaseTime: nat)

  datatype Mode =
    | Managed(routerIp: string, netmask: string, dhcp: Dhcp)
    | UnmanagedDhcp(hostname: Option<string>)
    | UnmanagedStatic(ip: string, netmask: string, gateway: string, dns1: Option<string>, dns2: Option<string>)
    | UnmanagedNone

  datatype Qos = NoQos | Qos(download: nat, upload: nat)

  datatype Settings = Settings(mode: Mode, redirect: Option<bool>, qos: Option<Qos>)

  /** What the schema asks of a static setup: a gateway, and servers that are IPv4 addresses. */
  predicate Accepted(m: Mode) {
    m.UnmanagedStatic? ==>
      && m.gateway != ""
      && (m.dns1.Some? ==> Ipv4.ParseIp(m.dns1.value).Some?)
      && (m.dns2.Some? ==> Ipv4.ParseIp(m.dns2.value).Some?)
  }

  function ModeName(m: Mode): string {
    if m.Managed? then "managed" else "unmanaged"
  }

  function LanType(m: Mode): string {
    match m
    case UnmanagedDhcp(_) => "dhcp"
    case UnmanagedStatic(_, _, _, _, _) => "static"
    case UnmanagedNone => "none"
    case Managed(_, _, _) => "static"
  }

  // ---------------------------------------------------------------- reading

  function ReadMode(st: Store): Value {
    GetOr(st, "network", "lan", "_turris_mode", "managed")
  }

  /** `_normalize_lease` */
  function NormalizeLease(lease: string): Option<nat> {
    if lease == "infinite" then Some(0)
    else if lease == "" then None
    else
      var (last, front) := (lease[|lease| - 1], lease[..|lease| - 1]);
      var unit := if last == 'm' then 60 else if last == 'h' then 3600 else if last == 'd' then 86400 else 1;
      match Int(if unit == 1 then lease else front)
      case None => None
      case Some(n) => Some(n * unit)
  }

  function LeaseText(leaseTime: nat): string {
    if leaseTime == 0 then "infinite" else Decimal(leaseTime)
  }

  /** The pool and lease time that the reader shows; None where it raises. */
  function ReadPool(st: Store): Option<Dhcp> {
    var start := ReadNat(st, "dhcp", "lan", "start", 100);
    var limit := ReadNat(st, "dhcp", "lan", "limit", 150);
    var lease := NormalizeLease(PyText(GetOr(st, "dhcp", "lan", "leasetime", "43200")));
    if start.None? || limit.None? || lease.None? then None
    else Some(On(start.value, limit.value, lease.value))
  }

  /** The `hostname` of the unmanaged mode, when there is one. */
  function ReadHostname(st: Store): Option<Value> {
    var v := Get(st, "network", "lan", "hostname");
    if v == Some(Text("")) then None else v
  }

  /** The servers are shown only when every one of them is an address. */
  function ReadDns(st: Store, i: nat): Option<string> {
    var v := Get(st, "network", "lan", "dns");
    if forall k | 0 <= k < |DnsList(v)| :: Ipv4.ParseIp(DnsList(v)[k]).Some? then NthDns(v, i) else None
  }

  /** upload is what the queue calls download, and the other way round. */
  function ReadQos(st: Store): Option<(bool, Qos)> {
    var enabled := ReadBool(st, "sqm", "limit_lan_turris", "enabled", false);
    var upload := ReadNat(st, "sqm", "limit_lan_turris", "download", 1024);
    var download := ReadNat(st, "sqm", "limit_lan_turris", "upload", 1024);
    if enabled.None? || upload.None? || download.None? then None
    else Some((enabled.value, Qos(download.value, upload.value)))
  }

  /** The redirect, shown only when its section exists. */
  function ReadRedirect(st: Store): Option<bool> {
    if Has(st, "firewall", "redirect_192_168_1_1")
    then ReadBool(st, "firewall", "redirect_192_168_1_1", "enabled", true)
    else None
  }

  // ---------------------------------------------------------------- reading back

  lemma LeaseReadsBack(n: nat)
    ensures NormalizeLease(LeaseText(n)) == Some(n)
  {
    if n > 0 {
      var s := Decimal(n);
      DecimalReadsBack(n);
      assert IsDigit(s[|s| - 1]);
      hide Decimal;
      assert !IsDigit("infinite"[0]) && !AllDigits("infinite");
    }
  }

  lemma DnsListed(dns1: Option<string>, dns2: Option<string>)
    requires dns1 != Some("") && dns2 != Some("")
    ensures DnsList(Listed(Dns(dns1, dns2))) == Dns(dns1, dns2)
  {
    AllShown(Dns(dns1, dns2));
  }

  lemma ServersReadBack(st: Store, dns1: Option<string>, dns2: Option<string>)
    requires Get(st, "network", "lan", "dns") == Listed(Dns(dns1, dns2))
    requires dns1.Some? ==> Ipv4.ParseIp(dns1.value).Some?
    requires dns2.Some? ==> Ipv4.ParseIp(dns2.value).Some?
    ensures ReadDns(st, 0) == if dns1.Some? then dns1 else dns2
    ensures ReadDns(st, 1) == if dns1.Some? then dns2 else None
  {
    assert Ipv4.ParseIp("").None?;
    hide Get, Ipv4.ParseIp;
    DnsListed(dns1, dns2);
    DnsReadsBack(dns1, dns2);
    hide NthDns, Listed;
  }

  // ---------------------------------------------------------------- writing

  /** Of the network config only these options of the lan section changed. */
  ghost predicate OnlyLanOptions(st: Store, st': Store, options: set<string>) {
    && ShapeOf(st') == ShapeOf(st)
    && (forall c, s, o :: !(c == "network" && s == "lan" && o in options) ==> Get(st', c, s, o) == Get(st, c, s, o))
  }

  /** `_set_lan` */
  method SetLan(backend: UciBackend, routerIp: string, netmask: string)
    requires backend.Valid() && !backend.raised && Has(backend.View(), "network", "lan")
    modifies backend
    ensures backend.InBlock() && backend.raised == Ipv4.InterfaceText(routerIp, netmask).None?
    ensures !backend.raised ==>
      && OnlyLanOptions(old(backend.View()), backend.View(), {"ipaddr", "netmask"})
      && NetworkCombo(backend.View()) == Some((routerIp, Ipv4.MaskAsRead(netmask)))
  {
    hide ConfigsIn, ShapeOf, KindIn, Get, Stored, Fingerprint, Ipv4.InterfaceText, Ipv4.MaskAsRead, Ipv4.Combo, WithItems, Listed;
    Literals.CommonOptions();
    Literals.InterfaceOptions();
    backend.DelOption("network", "lan", "ipaddr");
    backend.DelOption("network", "lan", "netmask");
    var text := Ipv4.InterfaceText(routerIp, netmask);
    if text.None? { backend.Raise(); return; }
    NewListReads([text.value]);
    backend.AddToList("network", "lan", "ipaddr", [text.value]);
    Ipv4.CidrReadsBack(routerIp, netmask, "255.255.255.0");
    FirstOfOne(text.value);
    assert Get(backend.View(), "network", "lan", "ipaddr") == Listed([text.value]);
    CombosFrom(backend.View(), text.value);
  }

  lemma CombosFrom(st: Store, text: string)
    requires text != "" && Get(st, "network", "lan", "ipaddr") == Listed([text]) && Get(st, "network", "lan", "netmask") == None
    ensures NetworkCombo(st) == Ipv4.Combo(text, "255.255.255.0")
  {
    FirstOfOne(text);
    AllShown([text]);
    hide Get, Ipv4.Combo;
  }

  /** The interface section, and the mode in it. */
  method StartLan(backend: UciBackend, mode: string)
    requires backend.Valid() && mode != ""
    modifies backend
    ensures backend.InBlock() && backend.raised == (old(backend.raised) || !HasConfig(old(backend.View()), "network"))
    ensures !backend.raised ==>
      && OtherConfigsKept(old(backend.View()), backend.View(), "network")
      && ConfigKept(old(backend.View()), backend.View(), "dhcp")
      && Has(backend.View(), "network", "lan")
      && (forall o :: o != "_turris_mode" ==> Get(backend.View(), "network", "lan", o) == Get(old(backend.View()), "network", "lan", o))
      && ReadMode(backend.View()) == Text(mode)
  {
    hide ConfigsIn, ShapeOf, OrderIn, KindIn, Get, Fingerprint;
    Literals.Configs();
    backend.AddSection("network", "interface", "lan");
    if backend.raised { return; }
    backend.SetOption("network", "lan", "_turris_mode", mode);
  }

  /** The redirect is switched, when there is one. */
  ghost predicate RedirectIs(st: Store, enabled: bool) {
    Has(st, "firewall", "redirect_192_168_1_1") ==> ReadRedirect(st) == Some(enabled)
  }

  /** `_store_lan_redirect` */
  method StoreRedirect(backend: UciBackend, enabled: bool)
    requires backend.Valid()
    modifies backend
    ensures backend.InBlock() && backend.raised == (old(backend.raised) || !HasConfig(old(backend.View()), "firewall"))
    ensures !backend.raised ==>
      && OtherConfigsKept(old(backend.View()), backend.View(), "firewall")
      && ConfigKept(old(backend.View()), backend.View(), "dhcp")
      && Has(backend.View(), "firewall", "redirect_192_168_1_1") == Has(old(backend.View()), "firewall", "redirect_192_168_1_1")
      && RedirectIs(backend.View(), enabled)
  {
    hide ConfigsIn, ShapeOf, OrderIn, KindIn, Get, Fingerprint, StoreBool, ParseBool, Stored;
    Literals.Configs();
    if backend.raised { return; }
    if !HasConfig(backend.View(), "firewall") { backend.Raise(); return; }
    if Has(backend.View(), "firewall", "redirect_192_168_1_1") {
      backend.SetOption("firewall", "redirect_192_168_1_1", "enabled", StoreBool(enabled));
      BoolReadsBack(backend.View(), "firewall", "redirect_192_168_1_1", "enabled", enabled, true);
    }
  }

  /** The dhcp config changed in its lan section alone, which is there and is no host. */
  ghost predicate DhcpLan(st: Store, st': Store) {
    && Kind(st', "dhcp", "lan") == Some("dhcp")
    && Order(st', "dhcp") == Order(st, "dhcp") + (if Has(st, "dhcp", "lan") then [] else ["lan"])
    && (forall s :: s != "lan" ==> Kind(st', "dhcp", s) == Kind(st, "dhcp", s))
    && (forall s, o :: s != "lan" ==> Get(st', "dhcp", s, o) == Get(st, "dhcp", s, o))
  }

  lemma NamesKept(st: Store, st': Store)
    requires Kind(st, "dhcp", "lan") != Some("host") && DhcpLan(st, st')
    ensures HostNames(st') == HostNames(st)
  {
    var names, more := Order(st, "dhcp"), if Has(st, "dhcp", "lan") then [] else ["lan"];
    OfKindAppends(st', "dhcp", names, more, "host");
    assert OfKind(st', "dhcp", more, "host") == [];
    LanIsNoHost(st, st', names);
    hide ConfigsIn, ShapeOf, KindIn, OrderIn, Get, OfKind;
  }

  lemma HostsKept(st: Store, st': Store)
    requires WellOrdered(st, "dhcp") && Kind(st, "dhcp", "lan") != Some("host") && DhcpLan(st, st')
    ensures WellOrdered(st', "dhcp") && HostsOf(st') == HostsOf(st)
  {
    hide ConfigsIn, ShapeOf, KindIn, OrderIn, Get, HostAt, OfKind;
    NamesKept(st, st');
    forall i | 0 <= i < |HostNames(st)| ensures HostsOf(st')[i] == HostsOf(st)[i] {
      assert HostNames(st)[i] in HostNames(st);
      SameHost(st, st', HostNames(st)[i]);
    }
  }

  lemma HostsUnmoved(st: Store, st': Store)
    requires WellOrdered(st, "dhcp") && ConfigKept(st, st', "dhcp")
    ensures WellOrdered(st', "dhcp") && HostsOf(st') == HostsOf(st)
  {
    OfKindSame(st, st', "dhcp", Order(st, "dhcp"), "host");
    hide ConfigsIn, ShapeOf, KindIn, OrderIn, Get, HostAt, OfKind;
    forall i | 0 <= i < |HostNames(st)| ensures HostsOf(st')[i] == HostsOf(st)[i] {
      SameHost(st, st', HostNames(st)[i]);
    }
  }

  /** Options of the server section are nobody's host. */
  lemma HostsSame(st: Store, st': Store)
    requires WellOrdered(st, "dhcp") && Kind(st, "dhcp", "lan") == Some("dhcp") && ShapeOf(st') == ShapeOf(st)
    requires forall s, o :: s != "lan" ==> Get(st', "dhcp", s, o) == Get(st, "dhcp", s, o)
    ensures WellOrdered(st', "dhcp") && HostsOf(st') == HostsOf(st)
  {
    hide ConfigsIn, ShapeOf, KindIn, OrderIn, Get, HostsOf;
    assert Order(st, "dhcp") + [] == Order(st, "dhcp");
    HostsKept(st, st');
  }

  lemma {:induction false} LanIsNoHost(st: Store, st': Store, names: seq<string>)
    requires Kind(st, "dhcp", "lan") != Some("host") && Kind(st', "dhcp", "lan") != Some("host")
    requires forall s :: s != "lan" ==> Kind(st', "dhcp", s) == Kind(st, "dhcp", s)
    ensures OfKind(st', "dhcp", names, "host") == OfKind(st, "dhcp", names, "host")
  {
    if names != [] { LanIsNoHost(st, st', names[1..]); }
  }

  /** The server section with its on/off switch. */
  method StartDhcp(backend: UciBackend, enabled: bool)
    requires backend.Valid() && !backend.raised
    modifies backend
    ensures backend.InBlock() && backend.raised == !HasConfig(old(backend.View()), "dhcp")
    ensures !backend.raised ==>
      && OtherConfigsKept(old(backend.View()), backend.View(), "dhcp")
      && DhcpLan(old(backend.View()), backend.View())
      && DhcpEnabled(backend.View()) == Some(enabled)
  {
    hide ConfigsIn, ShapeOf, OrderIn, KindIn, Get, Fingerprint, StoreBool, Stored;
    backend.AddSection("dhcp", "dhcp", "lan");
    if backend.raised { return; }
    backend.SetOption("dhcp", "lan", "ignore", StoreBool(!enabled));
    BoolReadsBack(backend.View(), "dhcp", "lan", "ignore", !enabled, false);
  }

  /** Only options of the server section changed, and not its switch. */
  ghost predicate OnlyDhcpOptions(st: Store, st': Store) {
    && ShapeOf(st') == ShapeOf(st)
    && (forall c, s, o :: !(c == "dhcp" && s == "lan" && o != "ignore") ==> Get(st', c, s, o) == Get(st, c, s, o))
  }

  method WritePool(backend: UciBackend, routerIp: string, dhcp: Dhcp)
    requires backend.Valid() && !backend.raised && Has(backend.View(), "dhcp", "lan") && dhcp.On?
    modifies backend
    ensures backend.InBlock() && !backend.raised
    ensures OnlyDhcpOptions(old(backend.View()), backend.View())
    ensures ReadPool(backend.View()) == Some(dhcp)
  {
    hide ConfigsIn, ShapeOf, KindIn, Get, Fingerprint, Stored, Decimal, LeaseText, Listed, NormalizeLease, PyText, ReadPool;
    Literals.CommonOptions();
    Literals.DhcpOptions();
    backend.SetOption("dhcp", "lan", "ra", "server");
    backend.SetOption("dhcp", "lan", "dhcpv6", "server");
    backend.SetOption("dhcp", "lan", "start", Decimal(dhcp.start));
    backend.SetOption("dhcp", "lan", "limit", Decimal(dhcp.limit));
    backend.SetOption("dhcp", "lan", "leasetime", LeaseText(dhcp.leaseTime));
    backend.ReplaceList("dhcp", "lan", "dhcp_option", ["6," + routerIp]);
    PoolReadsBack(backend.View(), dhcp);
  }

  lemma PoolReadsBack(st: Store, dhcp: Dhcp)
    requires dhcp.On?
    requires Get(st, "dhcp", "lan", "start") == Stored(Decimal(dhcp.start))
    requires Get(st, "dhcp", "lan", "limit") == Stored(Decimal(dhcp.limit))
    requires Get(st, "dhcp", "lan", "leasetime") == Stored(LeaseText(dhcp.leaseTime))
    ensures ReadPool(st) == Some(dhcp)
  {
    assert LeaseText(dhcp.leaseTime) != "";
    hide Get, Decimal, NormalizeLease, LeaseText;
    NatReadsBack(st, "dhcp", "lan", "start", dhcp.start, 100);
    NatReadsBack(st, "dhcp", "lan", "limit", dhcp.limit, 150);
    LeaseReadsBack(dhcp.leaseTime);
  }

  method DisableDhcp(backend: UciBackend)
    requires backend.Valid() && !backend.raised && Has(backend.View(), "dhcp", "lan")
    modifies backend
    ensures backend.InBlock() && !backend.raised
    ensures OnlyDhcpOptions(old(backend.View()), backend.View())
  {
    hide ConfigsIn, ShapeOf, KindIn, Get, Fingerprint, Stored;
    Literals.CommonOptions();
    Literals.DhcpOptions();
    backend.SetOption("dhcp", "lan", "ra", "disabled");
    backend.SetOption("dhcp", "lan", "dhcpv6", "disabled");
  }

  /** The move that the pruning of hosts is about. */
  function MoveOf(st: Store, m: Mode): Move
    requires m.Managed? && m.dhcp.On?
  {
    MoveFrom(NetworkCombo(st).GetOr(("", "")), m)
  }

  function MoveFrom(was: (string, string), m: Mode): Move
    requires m.Managed? && m.dhcp.On?
  {
    Move(was.0, was.1, m.routerIp, m.netmask, m.dhcp.start, m.dhcp.limit)
  }

  /** The address and the mask as the reader shows them. */
  ghost predicate AddressIs(st: Store, ip: string, netmask: string) {
    NetworkCombo(st) == Some((ip, Ipv4.MaskAsRead(netmask)))
  }

  /** What the readers show once the mode is written, and which hosts are left. */
  ghost predicate Written(st: Store, st': Store, m: Mode) {
    && ReadMode(st') == Text(ModeName(m))
    && Get(st', "network", "lan", "proto") == Some(Text(LanType(m)))
    && DhcpEnabled(st') == Some(m.Managed? && m.dhcp.On?)
    && WellOrdered(st', "dhcp")
    && match m
       case Managed(routerIp, netmask, Off) => AddressIs(st', routerIp, netmask) && HostsOf(st') == HostsOf(st)
       case Managed(routerIp, netmask, On(_, _, _)) =>
         && AddressIs(st', routerIp, netmask)
         && ReadPool(st') == Some(m.dhcp)
         && NetworkCombo(st).Some? && Passes(HostsOf(st), MoveOf(st, m))
         && HostsOf(st') == Survivors(HostsOf(st), MoveOf(st, m))
       case UnmanagedDhcp(hostname) =>
         && ReadHostname(st') == (if hostname.Some? then Stored(hostname.value) else ReadHostname(st))
         && HostsOf(st') == HostsOf(st)
       case UnmanagedStatic(ip, netmask, gateway, dns1, dns2) =>
         && AddressIs(st', ip, netmask)
         && GetOr(st', "network", "lan", "gateway", "192.168.1.1") == Text(gateway)
         && ReadDns(st', 0) == (if dns1.Some? then dns1 else dns2)
         && ReadDns(st', 1) == (if dns1.Some? then dns2 else None)
         && HostsOf(st') == HostsOf(st)
       case UnmanagedNone => HostsOf(st') == HostsOf(st)
  }

  lemma ManagedIsWritten(st: Store, st': Store, m: Mode)
    requires m.Managed? && AddressIs(st', m.routerIp, m.netmask)
    requires ReadMode(st') == Text("managed") && Get(st', "network", "lan", "proto") == Some(Text("static"))
    requires DhcpEnabled(st') == Some(m.dhcp.On?) && WellOrdered(st', "dhcp")
    requires m.dhcp.On? ==> ReadPool(st') == Some(m.dhcp) && NetworkCombo(st).Some?
    requires m.dhcp.On? ==>
      Passes(HostsOf(st), MoveOf(st, m)) && HostsOf(st') == Survivors(HostsOf(st), MoveOf(st, m))
    requires m.dhcp.Off? ==> HostsOf(st') == HostsOf(st)
    ensures Written(st, st', m)
  {
    hide AddressIs, ReadMode, Get, DhcpEnabled, WellOrdered, ReadPool, NetworkCombo, Passes, Survivors, HostsOf;
  }

  lemma UnmanagedIsWritten(st: Store, st': Store, m: Mode)
    requires !m.Managed? && ReadMode(st') == Text("unmanaged")
    requires Get(st', "network", "lan", "proto") == Some(Text(LanType(m)))
    requires DhcpEnabled(st') == Some(false) && WellOrdered(st', "dhcp") && HostsOf(st') == HostsOf(st)
    requires m.UnmanagedDhcp? ==>
      ReadHostname(st') == if m.hostname.Some? then Stored(m.hostname.value) else ReadHostname(st)
    requires m.UnmanagedStatic? ==> StaticWritten(st', m)
    ensures Written(st, st', m)
  {
    hide AddressIs, ReadMode, Get, DhcpEnabled, WellOrdered, ReadDns, ReadHostname, HostsOf;
  }

  /** What a mode asks of the configuration and of its own values: a dhcp config, an address that parses, and
      with DHCP on an old address that parses and no host that the pruning fails on. */
  predicate ModePossible(st: Store, m: Mode) {
    && HasConfig(st, "dhcp")
    && (m.Managed? ==> Ipv4.InterfaceText(m.routerIp, m.netmask).Some?)
    && (m.UnmanagedStatic? ==> Ipv4.InterfaceText(m.ip, m.netmask).Some?)
    && (m.Managed? && m.dhcp.On? ==> NetworkCombo(st).Some? && Passes(HostsOf(st), MoveOf(st, m)))
  }

  /** Ready for the edits of either mode. */
  ghost predicate Started(st: Store, m: Mode) {
    && Has(st, "network", "lan")
    && ReadMode(st) == Text(ModeName(m))
    && WellOrdered(st, "dhcp")
    && Kind(st, "dhcp", "lan") != Some("host")
  }

  /** The configs that neither mode touches. */
  ghost predicate OthersKept(st: Store, st': Store) {
    && (forall c, s :: c != "network" && c != "dhcp" ==> Kind(st', c, s) == Kind(st, c, s))
    && (forall c, s, o :: c != "network" && c != "dhcp" ==> Get(st', c, s, o) == Get(st, c, s, o))
  }

  lemma OthersKeptTwice(st: Store, st': Store, st'': Store)
    requires OthersKept(st, st') && OthersKept(st', st'')
    ensures OthersKept(st, st'')
  {
    hide Get, ConfigsIn, ShapeOf, KindIn;
  }

  lemma OnlyLanKeepsOthers(st: Store, st': Store, options: set<string>)
    requires OnlyLanOptions(st, st', options)
    ensures OthersKept(st, st') && ConfigKept(st, st', "dhcp")
    ensures forall o :: o !in options ==> Get(st', "network", "lan", o) == Get(st, "network", "lan", o)
  {
    hide Get, ConfigsIn, ShapeOf, KindIn, OrderIn, Fingerprint;
    Literals.Configs();
  }

  lemma DhcpKeepsOthers(st: Store, st': Store)
    requires OtherConfigsKept(st, st', "dhcp")
    ensures OthersKept(st, st') && SameOptions(st, st', "network", "lan")
    ensures Kind(st', "network", "lan") == Kind(st, "network", "lan")
  {
    hide Get, ConfigsIn, ShapeOf, KindIn, Fingerprint;
    Literals.Configs();
  }

  /** Hosts aside, the dhcp config keeps its server section. */
  lemma ServerKept(st: Store, st': Store)
    requires OnlyOldHosts(st, st') && Kind(st, "dhcp", "lan") == Some("dhcp")
    ensures Kind(st', "dhcp", "lan") == Some("dhcp") && SameOptions(st, st', "dhcp", "lan")
    ensures OthersKept(st, st') && SameOptions(st, st', "network", "lan")
  {
    hide ConfigsIn, ShapeOf, KindIn, Get, Fingerprint;
    Literals.Configs();
  }

  /** The pool and the hosts, after the server was switched on. */
  method WriteServer(backend: UciBackend, routerIp: string, dhcp: Dhcp, records: seq<Host>, mv: Move)
    requires backend.Valid() && !backend.raised && dhcp.On? && HostsOf(backend.View()) == records
    requires Kind(backend.View(), "dhcp", "lan") == Some("dhcp") && WellOrdered(backend.View(), "dhcp")
    modifies backend
    ensures backend.InBlock() && backend.raised == !Passes(records, mv)
    ensures !backend.raised ==>
      && ReadPool(backend.View()) == Some(dhcp)
      && DhcpEnabled(backend.View()) == DhcpEnabled(old(backend.View()))
      && OthersKept(old(backend.View()), backend.View())
      && SameOptions(old(backend.View()), backend.View(), "network", "lan")
      && Passes(records, mv)
      && HostsOf(backend.View()) == Survivors(records, mv)
      && WellOrdered(backend.View(), "dhcp")
  {
    hide ConfigsIn, ShapeOf, KindIn, OrderIn, Get, HostsOf, WellOrdered, Passes, Survivors, OnlyOldHosts, NormalizeLease, PyText, Fingerprint;
    Literals.Configs();
    ghost var st := backend.View();
    WritePool(backend, routerIp, dhcp);
    ghost var st1 := backend.View();
    HostsSame(st, st1);
    FilterRecords(backend, records, mv);
    if backend.raised { return; }
    ServerKept(st1, backend.View());
  }

  /** The readers look at the lan sections and at hosts only. */
  lemma CombosKept(st: Store, st': Store)
    requires Get(st', "network", "lan", "ipaddr") == Get(st, "network", "lan", "ipaddr")
    requires Get(st', "network", "lan", "netmask") == Get(st, "network", "lan", "netmask")
    ensures NetworkCombo(st') == NetworkCombo(st)
  {
    hide Get, Ipv4.Combo;
  }

  /** The managed branch of `update_settings`. */
  method WriteManaged(backend: UciBackend, m: Mode)
    requires backend.Valid() && !backend.raised && m.Managed? && Started(backend.View(), m)
    modifies backend
    ensures backend.InBlock() && backend.raised == !ModePossible(old(backend.View()), m)
    ensures !backend.raised ==>
      && Written(old(backend.View()), backend.View(), m)
      && OthersKept(old(backend.View()), backend.View())
  {
    hide ConfigsIn, ShapeOf, KindIn, OrderIn, Get, HostsOf, WellOrdered, Passes, Survivors, NetworkCombo, Ipv4.MaskAsRead, ReadPool, DhcpEnabled, Written, OthersKept, OnlyLanOptions, Ipv4.InterfaceText;
    if !HasConfig(backend.View(), "dhcp") { backend.Raise(); return; }
    var records, was := HostsOf(backend.View()), NetworkCombo(backend.View());
    ghost var st := backend.View();
    WriteAddress(backend, "static", m.routerIp, m.netmask);
    if backend.raised { return; }
    ghost var st1 := backend.View();
    OnlyLanKeepsOthers(st, st1, {"proto", "ipaddr", "netmask"});
    AddressOptions();
    HostsUnmoved(st, st1);
    WriteManagedDhcp(backend, m, records, was);
    if backend.raised { return; }
    CombosKept(st1, backend.View());
    OthersKeptTwice(st, st1, backend.View());
    ManagedIsWritten(st, backend.View(), m);
  }

  lemma AddressOptions()
    ensures "_turris_mode" !in {"proto", "ipaddr", "netmask"}
    ensures "_turris_mode" !in {"hostname", "ipaddr", "netmask", "gateway", "dns"}
    ensures "proto" !in {"hostname", "ipaddr", "netmask", "gateway", "dns"}
  {
    hide Fingerprint;
    Literals.CommonOptions();
    Literals.InterfaceOptions();
  }

  /** The protocol of the interface, and its address. */
  method WriteAddress(backend: UciBackend, proto: string, ip: string, netmask: string)
    requires backend.Valid() && !backend.raised && Has(backend.View(), "network", "lan") && proto != ""
    modifies backend
    ensures backend.InBlock() && backend.raised == Ipv4.InterfaceText(ip, netmask).None?
    ensures !backend.raised ==>
      && OnlyLanOptions(old(backend.View()), backend.View(), {"proto", "ipaddr", "netmask"})
      && Get(backend.View(), "network", "lan", "proto") == Some(Text(proto))
      && AddressIs(backend.View(), ip, netmask)
  {
    hide ConfigsIn, ShapeOf, KindIn, Get, NetworkCombo, Ipv4.MaskAsRead, Ipv4.InterfaceText, Fingerprint;
    Literals.CommonOptions();
    Literals.InterfaceOptions();
    backend.SetOption("network", "lan", "proto", proto);
    SetLan(backend, ip, netmask);
  }

  /** The server part of the managed branch. */
  method WriteManagedDhcp(backend: UciBackend, m: Mode, records: seq<Host>, was: Option<(string, string)>)
    requires backend.Valid() && !backend.raised && m.Managed?
    requires WellOrdered(backend.View(), "dhcp") && Kind(backend.View(), "dhcp", "lan") != Some("host")
    requires records == HostsOf(backend.View())
    modifies backend
    ensures backend.InBlock()
    ensures backend.raised == !(HasConfig(old(backend.View()), "dhcp") && (m.dhcp.On? ==> was.Some? && Passes(records, MoveFrom(was.value, m))))
    ensures !backend.raised ==>
      && OthersKept(old(backend.View()), backend.View())
      && SameOptions(old(backend.View()), backend.View(), "network", "lan")
      && DhcpEnabled(backend.View()) == Some(m.dhcp.On?)
      && WellOrdered(backend.View(), "dhcp")
      && (m.dhcp.On? ==> was.Some? && ReadPool(backend.View()) == Some(m.dhcp))
      && (m.dhcp.On? ==> HostsOf(backend.View()) == Survivors(records, MoveFrom(was.value, m)))
      && (m.dhcp.Off? ==> HostsOf(backend.View()) == records)
  {
    hide ConfigsIn, ShapeOf, KindIn, OrderIn, Get, HostsOf, WellOrdered, Passes, Survivors, Fingerprint, ReadPool;
    Literals.Configs();
    ghost var st := backend.View();
    StartDhcp(backend, m.dhcp.On?);
    if backend.raised { return; }
    ghost var st1 := backend.View();
    HostsKept(st, st1);
    if m.dhcp.On? {
      if was.None? { backend.Raise(); return; }
      WriteServer(backend, m.routerIp, m.dhcp, records, MoveFrom(was.value, m));
    } else {
      DisableDhcp(backend);
      HostsSame(st1, backend.View());
    }
  }

  /** The options of an unmanaged LAN. */
  method WriteUnmanagedOptions(backend: UciBackend, m: Mode)
    requires backend.Valid() && !backend.raised && !m.Managed? && Has(backend.View(), "network", "lan") && Accepted(m)
    modifies backend
    ensures backend.InBlock() && backend.raised == (m.UnmanagedStatic? && Ipv4.InterfaceText(m.ip, m.netmask).None?)
    ensures !backend.raised ==>
      && OnlyLanOptions(old(backend.View()), backend.View(), {"hostname", "ipaddr", "netmask", "gateway", "dns"})
      && (m.UnmanagedDhcp? ==>
            ReadHostname(backend.View()) ==
            (if m.hostname.Some? then Stored(m.hostname.value) else ReadHostname(old(backend.View()))))
      && (m.UnmanagedStatic? ==> StaticWritten(backend.View(), m))
  {
    hide ConfigsIn, ShapeOf, KindIn, OrderIn, Get, Fingerprint, Ipv4.ParseIp, Ipv4.Combo, Ipv4.MaskAsRead, Ipv4.InterfaceText, Listed, Dns, StaticWritten;
    Literals.CommonOptions();
    Literals.InterfaceOptions();
    match m {
      case UnmanagedDhcp(hostname) =>
        if hostname.Some? {
          backend.SetOption("network", "lan", "hostname", hostname.value);
        }
      case UnmanagedStatic(ip, netmask, gateway, dns1, dns2) =>
        SetLan(backend, ip, netmask);
        if backend.raised { return; }
        ghost var st := backend.View();
        backend.SetOption("network", "lan", "gateway", gateway);
        backend.ReplaceList("network", "lan", "dns", Dns(dns1, dns2));
        CombosKept(st, backend.View());
        StaticReadsBack(backend.View(), m);
      case UnmanagedNone =>
    }
  }

  ghost predicate StaticWritten(st: Store, m: Mode)
    requires m.UnmanagedStatic?
  {
    && AddressIs(st, m.ip, m.netmask)
    && GetOr(st, "network", "lan", "gateway", "192.168.1.1") == Text(m.gateway)
    && ReadDns(st, 0) == (if m.dns1.Some? then m.dns1 else m.dns2)
    && ReadDns(st, 1) == (if m.dns1.Some? then m.dns2 else None)
  }

  lemma StaticReadsBack(st: Store, m: Mode)
    requires m.UnmanagedStatic? && Accepted(m) && AddressIs(st, m.ip, m.netmask)
    requires Get(st, "network", "lan", "gateway") == Stored(m.gateway)
    requires Get(st, "network", "lan", "dns") == Listed(Dns(m.dns1, m.dns2))
    ensures StaticWritten(st, m)
  {
    hide Get, Listed, Dns, ReadDns, Ipv4.ParseIp;
    ServersReadBack(st, m.dns1, m.dns2);
  }

  /** The unmanaged branch of `update_settings`. */
  method WriteUnmanaged(backend: UciBackend, m: Mode)
    requires backend.Valid() && !backend.raised && !m.Managed? && Started(backend.View(), m) && Accepted(m)
    modifies backend
    ensures backend.InBlock() && backend.raised == !ModePossible(old(backend.View()), m)
    ensures !backend.raised ==>
      && Written(old(backend.View()), backend.View(), m)
      && OthersKept(old(backend.View()), backend.View())
  {
    hide ConfigsIn, ShapeOf, KindIn, OrderIn, Get, HostsOf, WellOrdered, NetworkCombo, StaticWritten, Accepted, ReadDns, Ipv4.MaskAsRead, Written, DhcpEnabled, OthersKept, OnlyLanOptions, Ipv4.InterfaceText;
    assert LanType(m) != "";
    AddressOptions();
    ghost var st := backend.View();
    StartUnmanaged(backend, LanType(m));
    if backend.raised { return; }
    ghost var st2 := backend.View();
    WriteUnmanagedOptions(backend, m);
    if backend.raised { return; }
    OnlyLanKeepsOthers(st2, backend.View(), {"hostname", "ipaddr", "netmask", "gateway", "dns"});
    OthersKeptTwice(st, st2, backend.View());
    HostsUnmoved(st2, backend.View());
    ServerUnmoved(st2, backend.View());
    UnmanagedIsWritten(st, backend.View(), m);
  }

  /** The protocol, and the server switched off. */
  method StartUnmanaged(backend: UciBackend, proto: string)
    requires backend.Valid() && !backend.raised && proto != "" && Has(backend.View(), "network", "lan")
    requires WellOrdered(backend.View(), "dhcp") && Kind(backend.View(), "dhcp", "lan") != Some("host")
    modifies backend
    ensures backend.InBlock() && backend.raised == !HasConfig(old(backend.View()), "dhcp")
    ensures !backend.raised ==>
      && OthersKept(old(backend.View()), backend.View())
      && Has(backend.View(), "network", "lan")
      && Get(backend.View(), "network", "lan", "proto") == Some(Text(proto))
      && ReadMode(backend.View()) == ReadMode(old(backend.View()))
      && ReadHostname(backend.View()) == ReadHostname(old(backend.View()))
      && WellOrdered(backend.View(), "dhcp") && HostsOf(backend.View()) == HostsOf(old(backend.View()))
      && DhcpEnabled(backend.View()) == Some(false)
  {
    hide ConfigsIn, ShapeOf, KindIn, OrderIn, Get, HostsOf, WellOrdered, DhcpEnabled, OthersKept;
    ghost var st := backend.View();
    backend.SetOption("network", "lan", "proto", proto);
    ghost var st1 := backend.View();
    ProtoOnly(st, st1, proto);
    HostsUnmoved(st, st1);
    CloseDhcp(backend);
    if backend.raised { return; }
    DhcpKeepsOthers(st1, backend.View());
    OthersKeptTwice(st, st1, backend.View());
  }

  lemma ServerUnmoved(st: Store, st': Store)
    requires ConfigKept(st, st', "dhcp")
    ensures DhcpEnabled(st') == DhcpEnabled(st)
  {
    hide Get;
  }

  lemma ProtoOnly(st: Store, st': Store, proto: string)
    requires OptionIs(st, st', "network", "lan", "proto", Stored(proto)) && proto != ""
    ensures OthersKept(st, st') && ConfigKept(st, st', "dhcp") && Get(st', "network", "lan", "proto") == Some(Text(proto))
    ensures ReadMode(st') == ReadMode(st) && ReadHostname(st') == ReadHostname(st)
  {
    hide Get, ConfigsIn, ShapeOf, KindIn, OrderIn, Fingerprint;
    Literals.Configs();
    Literals.CommonOptions();
    Literals.InterfaceOptions();
  }

  /** The server section with everything off. */
  method CloseDhcp(backend: UciBackend)
    requires backend.Valid() && !backend.raised
    requires WellOrdered(backend.View(), "dhcp") && Kind(backend.View(), "dhcp", "lan") != Some("host")
    modifies backend
    ensures backend.InBlock() && backend.raised == !HasConfig(old(backend.View()), "dhcp")
    ensures !backend.raised ==>
      && OtherConfigsKept(old(backend.View()), backend.View(), "dhcp")
      && WellOrdered(backend.View(), "dhcp") && HostsOf(backend.View()) == HostsOf(old(backend.View()))
      && Kind(backend.View(), "dhcp", "lan") == Some("dhcp") && DhcpEnabled(backend.View()) == Some(false)
  {
    hide ConfigsIn, ShapeOf, KindIn, OrderIn, Get, HostsOf, WellOrdered;
    ghost var st := backend.View();
    StartDhcp(backend, false);
    if backend.raised { return; }
    ghost var st1 := backend.View();
    HostsKept(st, st1);
    DisableDhcp(backend);
    HostsSame(st1, backend.View());
  }

  /** The queue of the LAN limit: always removed first. */
  method WriteQos(backend: UciBackend, qos: Qos)
    requires backend.Valid() && !backend.raised
    modifies backend
    ensures backend.InBlock() && backend.raised == (qos.Qos? && !HasConfig(old(backend.View()), "sqm"))
    ensures !backend.raised ==>
      && OtherConfigsKept(old(backend.View()), backend.View(), "sqm")
      && ConfigKept(old(backend.View()), backend.View(), "dhcp")
      && ReadQos(backend.View()) == Some(if qos.NoQos? then (false, Qos(1024, 1024)) else (true, qos))
  {
    hide ConfigsIn, ShapeOf, KindIn, OrderIn, Get, Fingerprint, ReadQos;
    Literals.Configs();
    NoOptions(backend.View(), "sqm", "limit_lan_turris");
    backend.DelSection("sqm", "limit_lan_turris", true);
    if qos.NoQos? {
      QueueOff(backend.View());
      return;
    }
    backend.AddSection("sqm", "queue", "limit_lan_turris");
    if backend.raised { return; }
    WriteRates(backend, qos);
  }

  /** The queue with its rates swapped. */
  method WriteRates(backend: UciBackend, qos: Qos)
    requires backend.Valid() && !backend.raised && qos.Qos? && Has(backend.View(), "sqm", "limit_lan_turris")
    modifies backend
    ensures backend.InBlock() && !backend.raised && ShapeOf(backend.View()) == ShapeOf(old(backend.View()))
    ensures forall c, s, o :: c != "sqm" ==> Get(backend.View(), c, s, o) == Get(old(backend.View()), c, s, o)
    ensures ReadQos(backend.View()) == Some((true, qos))
  {
    hide ConfigsIn, ShapeOf, KindIn, Get, Fingerprint, Stored, Decimal, StoreBool, ReadQos;
    Literals.CommonOptions();
    Literals.QueueOptions();
    backend.SetOption("sqm", "limit_lan_turris", "enabled", StoreBool(true));
    WriteQueue(backend);
    backend.SetOption("sqm", "limit_lan_turris", "upload", Decimal(qos.download));
    backend.SetOption("sqm", "limit_lan_turris", "download", Decimal(qos.upload));
    QueueReadsBack(backend.View(), qos);
  }

  /** What is the same for every queue. */
  method WriteQueue(backend: UciBackend)
    requires backend.Valid() && !backend.raised && Has(backend.View(), "sqm", "limit_lan_turris")
    modifies backend
    ensures backend.InBlock() && !backend.raised && ShapeOf(backend.View()) == ShapeOf(old(backend.View()))
    ensures forall c, s, o :: !(c == "sqm" && s == "limit_lan_turris" && o !in {"enabled", "upload", "download"}) ==>
      Get(backend.View(), c, s, o) == Get(old(backend.View()), c, s, o)
  {
    hide ConfigsIn, ShapeOf, KindIn, Get, Fingerprint, Stored;
    Literals.CommonOptions();
    Literals.QueueOptions();
    backend.SetOption("sqm", "limit_lan_turris", "interface", "br-lan");
    backend.SetOption("sqm", "limit_lan_turris", "qdisc", "fq_codel");
    backend.SetOption("sqm", "limit_lan_turris", "script", "simple.qos");
    backend.SetOption("sqm", "limit_lan_turris", "link_layer", "none");
    backend.SetOption("sqm", "limit_lan_turris", "verbosity", "5");
    backend.SetOption("sqm", "limit_lan_turris", "debug_logging", "1");
  }

  lemma QueueOff(st: Store)
    requires forall o :: Get(st, "sqm", "limit_lan_turris", o) == None
    ensures ReadQos(st) == Some((false, Qos(1024, 1024)))
  {
    hide Get;
  }

  lemma QueueReadsBack(st: Store, qos: Qos)
    requires qos.Qos? && Get(st, "sqm", "limit_lan_turris", "enabled") == Stored(StoreBool(true))
    requires Get(st, "sqm", "limit_lan_turris", "upload") == Stored(Decimal(qos.download))
    requires Get(st, "sqm", "limit_lan_turris", "download") == Stored(Decimal(qos.upload))
    ensures ReadQos(st) == Some((true, qos))
  {
    hide Get, Decimal, StoreBool, Stored;
    BoolReadsBack(st, "sqm", "limit_lan_turris", "enabled", true, false);
    NatReadsBack(st, "sqm", "limit_lan_turris", "upload", qos.download, 1024);
    NatReadsBack(st, "sqm", "limit_lan_turris", "download", qos.upload, 1024);
  }

  /** The read-back of everything but the limit survives the edits that follow it. */
  lemma WrittenKept(st: Store, st': Store, st'': Store, m: Mode)
    requires Written(st, st', m) && SameOptions(st', st'', "network", "lan") && ConfigKept(st', st'', "dhcp")
    ensures Written(st, st'', m)
  {
    hide Get, HostsOf, NetworkCombo, WellOrdered, ReadDns, ReadPool, Survivors, Passes, MoveOf, Ipv4.MaskAsRead, ConfigsIn, ShapeOf, OrderIn, KindIn;
    HostsUnmoved(st', st'');
    CombosKept(st', st'');
    PoolUnmoved(st', st'');
    DnsUnmoved(st', st'');
  }

  lemma PoolUnmoved(st: Store, st': Store)
    requires SameOptions(st, st', "dhcp", "lan")
    ensures ReadPool(st') == ReadPool(st)
  {
    hide Get, NormalizeLease, PyText, Int;
  }

  lemma DnsUnmoved(st: Store, st': Store)
    requires SameOptions(st, st', "network", "lan")
    ensures ReadDns(st', 0) == ReadDns(st, 0) && ReadDns(st', 1) == ReadDns(st, 1)
  {
    hide Get, NthDns, DnsList, Ipv4.ParseIp;
  }

  /** What was true before the first edit is as good as what is true at the start of the mode. */
  lemma WrittenSince(st: Store, st1: Store, st': Store, m: Mode)
    requires Written(st1, st', m) && HostsOf(st1) == HostsOf(st)
    requires NetworkCombo(st1) == NetworkCombo(st) && ReadHostname(st1) == ReadHostname(st)
    ensures Written(st, st', m)
  {
    hide HostsOf, NetworkCombo, ReadHostname, Get, WellOrdered, ReadDns, ReadPool, Survivors, Passes;
  }

  lemma PossibleSince(st: Store, st1: Store, m: Mode)
    requires HostsOf(st1) == HostsOf(st) && NetworkCombo(st1) == NetworkCombo(st) && Configs(st1) == Configs(st)
    ensures ModePossible(st1, m) == ModePossible(st, m)
  {
    hide HostsOf, NetworkCombo, ConfigsIn, ShapeOf, Passes, Ipv4.InterfaceText;
  }

  /** The mode and the redirect. */
  method WriteMode(backend: UciBackend, m: Mode, redirect: Option<bool>)
    requires backend.Valid() && !backend.raised && Accepted(m)
    requires WellOrdered(backend.View(), "dhcp") && Kind(backend.View(), "dhcp", "lan") != Some("host")
    modifies backend
    ensures backend.InBlock()
    ensures backend.raised == !(HasConfig(old(backend.View()), "network") && (redirect.Some? ==> HasConfig(old(backend.View()), "firewall"))
                                && ModePossible(old(backend.View()), m))
    ensures !backend.raised ==> Written(old(backend.View()), backend.View(), m)
    ensures !backend.raised && redirect.Some? ==> RedirectIs(backend.View(), redirect.value)
  {
    hide ConfigsIn, ShapeOf, KindIn, OrderIn, Get, HostsOf, WellOrdered, NetworkCombo, Written, Accepted, ReadMode, ReadHostname, RedirectIs, OthersKept, ModePossible;
    ghost var st := backend.View();
    StartLan(backend, ModeName(m));
    if backend.raised { return; }
    ghost var st1 := backend.View();
    HostsUnmoved(st, st1);
    StartKeeps(st, st1);
    if redirect.Some? {
      StoreRedirect(backend, redirect.value);
      if backend.raised { return; }
      FirewallOnly(st1, backend.View());
      HostsUnmoved(st1, backend.View());
      CombosKept(st1, backend.View());
    }
    ghost var st2 := backend.View();
    PossibleSince(st, st2, m);
    if m.Managed? {
      WriteManaged(backend, m);
    } else {
      WriteUnmanaged(backend, m);
    }
    if backend.raised { return; }
    WrittenSince(st, st2, backend.View(), m);
    if redirect.Some? { RedirectKept(st2, backend.View(), redirect.value); }
  }

  lemma RedirectKept(st: Store, st': Store, enabled: bool)
    requires RedirectIs(st, enabled) && OthersKept(st, st')
    ensures RedirectIs(st', enabled)
  {
    hide Get, ConfigsIn, ShapeOf, KindIn, Fingerprint;
    Literals.Configs();
  }

  lemma StartKeeps(st: Store, st': Store)
    requires forall o :: o != "_turris_mode" ==> Get(st', "network", "lan", o) == Get(st, "network", "lan", o)
    ensures NetworkCombo(st') == NetworkCombo(st) && ReadHostname(st') == ReadHostname(st)
  {
    hide Get, NetworkCombo, Fingerprint;
    Literals.CommonOptions();
    Literals.InterfaceOptions();
    CombosKept(st, st');
  }

  lemma FirewallOnly(st: Store, st': Store)
    requires OtherConfigsKept(st, st', "firewall")
    ensures SameOptions(st, st', "network", "lan") && Kind(st', "network", "lan") == Kind(st, "network", "lan")
    ensures ReadMode(st') == ReadMode(st) && ReadHostname(st') == ReadHostname(st)
    ensures Kind(st', "dhcp", "lan") == Kind(st, "dhcp", "lan")
  {
    hide Get, ConfigsIn, ShapeOf, KindIn, Fingerprint;
    Literals.Configs();
  }

  lemma QueueOnly(st: Store, st': Store)
    requires OtherConfigsKept(st, st', "sqm") && ConfigKept(st, st', "dhcp")
    ensures SameOptions(st, st', "network", "lan")
    ensures forall enabled :: RedirectIs(st, enabled) ==> RedirectIs(st', enabled)
  {
    hide Get, ConfigsIn, ShapeOf, KindIn, Fingerprint;
    Literals.Configs();
  }

  /** What the update asks: the configs that it edits, and what its mode asks. */
  predicate Possible(st: Store, x: Settings) {
    && HasConfig(st, "network")
    && (x.redirect.Some? ==> HasConfig(st, "firewall"))
    && (x.qos.Some? && x.qos.value.Qos? ==> HasConfig(st, "sqm"))
    && ModePossible(st, x.mode)
  }

  /** `update_settings`: it ends normally exactly when this is possible; then the readers give back what was
      written and the hosts that are left are the survivors of the move.  After an exception nothing on disk
      has changed. */
  method UpdateSettings(backend: UciBackend, x: Settings)
    requires Accepted(x.mode)
    requires WellOrdered(backend.committed, "dhcp") && Kind(backend.committed, "dhcp", "lan") != Some("host")
    modifies backend
    ensures backend.raised == !Possible(old(backend.committed), x)
    ensures backend.raised ==> backend.committed == old(backend.committed)
    ensures !backend.raised ==>
      && Written(old(backend.committed), backend.committed, x.mode)
      && (x.redirect.Some? ==> RedirectIs(backend.committed, x.redirect.value))
      && (x.qos.Some? ==>
            ReadQos(backend.committed) == Some(if x.qos.value.NoQos? then (false, Qos(1024, 1024)) else (true, x.qos.value)))
  {
    hide ConfigsIn, ShapeOf, KindIn, OrderIn, Get, WellOrdered, Written, Accepted, ReadQos, RedirectIs, OtherConfigsKept, ConfigKept, ModePossible;
    backend.Enter();
    ghost var st := backend.View();
    WriteMode(backend, x.mode, x.redirect);
    if !backend.raised && x.qos.Some? {
      ghost var st1 := backend.View();
      WriteQos(backend, x.qos.value);
      if !backend.raised {
        QueueOnly(st1, backend.View());
        WrittenKept(st, st1, backend.View(), x.mode);
      }
    }
    backend.Exit();
  }

  /** A mask as it is written for a prefix length. */
  ghost predicate Contiguous(netmask: string) {
    exists p: nat :: p <= 32 && netmask == Ipv4.PrintIp(Ipv4.MaskOf(p))
  }

  lemma MaskReadsBackExactly(ip: string, netmask: string)
    requires Ipv4.InterfaceText(ip, netmask).Some?
    ensures Ipv4.MaskAsRead(netmask) == netmask <==> Contiguous(netmask)
  {
    TwoPieces(ip, '/', netmask);
    hide Ipv4.PrintIp, Ipv4.MaskOf, Ipv4.PrefixOf, Ipv4.ParseIp, Split, Join;
    if Contiguous(netmask) {
      var p: nat :| p <= 32 && netmask == Ipv4.PrintIp(Ipv4.MaskOf(p));
      Ipv4.ContiguousMasksReadBack(p);
    }
  }

  /** A managed LAN shows the address that it was given exactly when the netmask was the text of a
      contiguous mask. */
  lemma ManagedReadsBackExactly(st: Store, st': Store, m: Mode)
    requires m.Managed? && Written(st, st', m) && ModePossible(st, m)
    ensures NetworkCombo(st') == Some((m.routerIp, m.netmask)) <==> Contiguous(m.netmask)
  {
    MaskReadsBackExactly(m.routerIp, m.netmask);
    hide NetworkCombo, Ipv4.MaskAsRead, Contiguous, ReadMode, Get, DhcpEnabled, HostsOf, WellOrdered, Passes, Survivors, ReadPool;
  }

  /** A static setup is shown as it was written exactly when its netmask was the text of a contiguous mask
      and there is no second DNS server without a first one. */
  lemma StaticReadsBackExactly(st: Store, st': Store, m: Mode)
    requires m.UnmanagedStatic? && Written(st, st', m) && ModePossible(st, m)
    ensures NetworkCombo(st') == Some((m.ip, m.netmask)) && ReadDns(st', 0) == m.dns1 && ReadDns(st', 1) == m.dns2 <==>
            Contiguous(m.netmask) && (m.dns2.Some? ==> m.dns1.Some?)
  {
    MaskReadsBackExactly(m.ip, m.netmask);
    hide NetworkCombo, Ipv4.MaskAsRead, Contiguous, ReadMode, Get, DhcpEnabled, HostsOf, WellOrdered, ReadDns;
  }

  /** An unmanaged dhcp LAN shows the hostname it was given exactly when one was given or there was
      none before: an update without a hostname keeps the old one. */
  lemma HostnameReadsBackExactly(st: Store, st': Store, hostname: Option<string>)
    requires Written(st, st', UnmanagedDhcp(hostname)) && hostname != Some("")
    ensures ReadHostname(st') == (if hostname.Some? then Some(Text(hostname.value)) else None) <==>
            hostname.Some? || ReadHostname(st) == None
  {
    hide ReadHostname, HostsOf, DhcpEnabled, ReadMode, Get;
  }

  /** A host with a real address stops the update when the pruned range leaves the address space, or when
      the host is in the way of the new pool and left behind in the old network. */
  lemma FailingHostStopsTheUpdate(st: Store, m: Mode, h: Host, n: Nets)
    requires m.Managed? && m.dhcp.On? && Reads(MoveOf(st, m), n)
    requires h in HostsOf(st) && AddressOf(h).Some?
    requires var a := AddressOf(h).value; !PoolExists(n) || (InPool(a, n) && InOld(a, n) && !InNew(a, n))
    ensures !ModePossible(st, m)
  {
    FateInNumbers(h, MoveOf(st, m), n);
    hide HostsOf, AddressOf, Reads, InPool, InOld, InNew, FateOf, MoveOf, Ipv4.InterfaceText, PoolExists, NetworkCombo, ConfigsIn, ShapeOf;
    var i :| 0 <= i < |HostsOf(st)| && HostsOf(st)[i] == h;
    assert FateOf(HostsOf(st)[i], MoveOf(st, m)) == Fails;
  }
}
