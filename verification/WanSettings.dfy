/** WAN settings: a long run of store edits on one side, a separate reader on the other. */
module WanSettings {
  import opened Wrappers
  import opened Texts
  import opened UciStore
  import opened UciOptions
  import Literals

  // ---------------------------------------------------------------- settings

  datatype Wan =
    | Dhcp(hostname: Option<string>)
    | Static(ip: string, netmask: string, gateway: string, dns1: Option<string>, dns2: Option<string>)
    | Pppoe(username: string, password: string)
    | NoWan

  datatype Dynamic = Dynamic(tunnelId: string, username: string, key: string)

  datatype Wan6 =
    | Dhcpv6(duid: string)
    | Static6(ip: string, net: string, gateway: string, dns1: Option<string>, dns2: Option<string>)
    | SixToFour(ipv4: string)
    | SixInFour(prefix: string, mtu: nat, server: string, address: string, dynamic: Option<Dynamic>)
    | NoWan6

  /** vlan None leaves the VLAN as it is; Some(None) takes it off the device. */
  datatype Settings = Settings(wan: Wan, wan6: Wan6, customMac: Option<string>, vlan: Option<Option<nat>>)

  datatype Qos = Qos(download: nat, upload: nat)

  /** What the schema asks: addresses, credentials and MACs are not empty. */
  ghost predicate Accepted(x: Settings) {
    && (x.wan.Static? ==> x.wan.ip != "" && x.wan.netmask != "" && x.wan.gateway != "")
    && (x.wan.Static? ==> x.wan.dns1 != Some("") && x.wan.dns2 != Some(""))
    && (x.wan6.Static6? ==> x.wan6.dns1 != Some("") && x.wan6.dns2 != Some(""))
    && (x.wan6.SixInFour? ==> x.wan6.server != "")
    && (x.wan6.SixInFour? && x.wan6.dynamic.Some? ==>
          x.wan6.dynamic.value.tunnelId != "" && x.wan6.dynamic.value.username != "" && x.wan6.dynamic.value.key != "")
    && x.customMac != Some("")
  }

  // ---------------------------------------------------------------- reading

  datatype Reply = Reply(wan: Wan, wan6: Wan6, customMac: Option<string>, vlan: Option<nat>)

  /** A text option with a default; None when the option is a list. */
  function TextOr(st: Store, s: string, o: string, default: string): Option<string> {
    var v := Get(st, "network", s, o);
    if v.None? then Some(default) else TextOf(v)
  }

  /** The WAN part of the reply; None where the reader raises, or where an option that should
      be plain text is a list. */
  function ReadWan(st: Store): Option<Wan> {
    match TextOf(Get(st, "network", "wan", "proto"))
    case None => None
    case Some(kind) =>
      if kind == "dhcp" then
        match TextOr(st, "wan", "hostname", "")
        case None => None
        case Some(h) => Some(Dhcp(if h == "" then None else Some(h)))
      else if kind == "static" then
        var ip := TextOf(Get(st, "network", "wan", "ipaddr"));
        var netmask := TextOf(Get(st, "network", "wan", "netmask"));
        var gateway := TextOf(Get(st, "network", "wan", "gateway"));
        var dns := Get(st, "network", "wan", "dns");
        if ip.None? || netmask.None? || gateway.None? then None
        else Some(Static(ip.value, netmask.value, gateway.value, NthDns(dns, 0), NthDns(dns, 1)))
      else if kind == "pppoe" then
        var username := TextOr(st, "wan", "username", "");
        var password := TextOr(st, "wan", "password", "");
        if username.None? || password.None? then None else Some(Pppoe(username.value, password.value))
      else if kind == "none" then Some(NoWan)
      else None
  }

  function ReadDynamic(st: Store): Option<Dynamic> {
    var id := First(Get(st, "network", "wan6", "tunnelid"));
    var username := First(Get(st, "network", "wan6", "username"));
    var key := First(Get(st, "network", "wan6", "password"));
    if id != "" && username != "" && key != "" then Some(Dynamic(id, username, key)) else None
  }

  function ReadWan6(st: Store): Option<Wan6> {
    match TextOr(st, "wan6", "proto", "dhcpv6")
    case None => None
    case Some(kind) =>
      if kind == "static" then
        var ip := TextOr(st, "wan6", "ip6addr", "");
        var gateway := TextOr(st, "wan6", "ip6gw", "");
        var dns := Get(st, "network", "wan6", "dns");
        if ip.None? || gateway.None? then None
        else Some(Static6(ip.value, First(Get(st, "network", "wan6", "ip6prefix")), gateway.value,
                          NthDns(dns, 0), NthDns(dns, 1)))
      else if kind == "dhcpv6" then
        match TextOr(st, "wan6", "clientid", "")
        case None => None
        case Some(duid) => Some(Dhcpv6(duid))
      else if kind == "6to4" then
        match TextOr(st, "wan6", "ipaddr", "")
        case None => None
        case Some(ipv4) => Some(SixToFour(ipv4))
      else if kind == "6in4" then
        var mtu := TextOr(st, "wan6", "mtu", "1480");
        var server := TextOr(st, "wan6", "peeraddr", "");
        if mtu.None? || server.None? || Int(mtu.value).None? then None
        else Some(SixInFour(First(Get(st, "network", "wan6", "ip6prefix")), Int(mtu.value).value, server.value,
                            First(Get(st, "network", "wan6", "ip6addr")), ReadDynamic(st)))
      else if kind == "none" then Some(NoWan6)
      else None
  }

  /** `_fetch_mac_address`: the device section when there is one, else the old place. */
  function ReadMac(st: Store): Option<string> {
    var mac := if Has(st, "network", "dev_wan") then Get(st, "network", "dev_wan", "macaddr")
               else Get(st, "network", "wan", "macaddr");
    if First(mac) == "" then None else Some(First(mac))
  }

  /** The VLAN part: Some(None) is "disabled", None is where `int` raises. */
  function VlanOf(device: string): Option<Option<nat>> {
    if '.' !in device then Some(None)
    else match Int(AfterLast(device, '.'))
      case None => None
      case Some(id) => Some(Some(id))
  }

  function ReadVlan(st: Store): Option<Option<nat>> {
    match TextOr(st, "wan", "device", "")
    case None => None
    case Some(device) => VlanOf(device)
  }

  /** The part of `get_settings` that comes from uci. */
  function Read(st: Store): Option<Reply> {
    if ReadWan(st).None? || ReadWan6(st).None? || ReadVlan(st).None? then None
    else Some(Reply(ReadWan(st).value, ReadWan6(st).value, ReadMac(st), ReadVlan(st).value))
  }

  // ---------------------------------------------------------------- what reads back

  /** A lone second server comes back as the first, an empty hostname as none. */
  function WanAsRead(w: Wan): Wan {
    match w
    case Dhcp(h) => Dhcp(if h == Some("") then None else h)
    case Static(ip, netmask, gateway, None, Some(d)) => Static(ip, netmask, gateway, Some(d), None)
    case _ => w
  }

  function Wan6AsRead(w: Wan6): Wan6 {
    match w
    case Static6(ip, net, gateway, None, Some(d)) => Static6(ip, net, gateway, Some(d), None)
    case _ => w
  }

  // ---------------------------------------------------------------- what was written

  function WanProto(w: Wan): string {
    match w
    case Dhcp(_) => "dhcp"
    case Static(_, _, _, _, _) => "static"
    case Pppoe(_, _) => "pppoe"
    case NoWan => "none"
  }

  function Wan6Proto(w: Wan6): string {
    match w
    case Dhcpv6(_) => "dhcpv6"
    case Static6(_, _, _, _, _) => "static"
    case SixToFour(_) => "6to4"
    case SixInFour(_, _, _, _, _) => "6in4"
    case NoWan6 => "none"
  }

  ghost predicate WanWritten(st: Store, w: Wan) {
    Get(st, "network", "wan", "proto") == Stored(WanProto(w)) && WanOptions(st, w)
  }

  ghost predicate WanOptions(st: Store, w: Wan) {
    match w
    case Dhcp(h) => Get(st, "network", "wan", "hostname") == if h.Some? then Stored(h.value) else None
    case Static(ip, netmask, gateway, dns1, dns2) =>
      && Get(st, "network", "wan", "ipaddr") == Stored(ip)
      && Get(st, "network", "wan", "netmask") == Stored(netmask)
      && Get(st, "network", "wan", "gateway") == Stored(gateway)
      && Get(st, "network", "wan", "dns") == Listed(Dns(dns1, dns2))
    case Pppoe(username, password) =>
      && Get(st, "network", "wan", "username") == Stored(username)
      && Get(st, "network", "wan", "password") == Stored(password)
    case NoWan => true
  }

  ghost predicate Wan6Written(st: Store, w: Wan6) {
    Get(st, "network", "wan6", "proto") == Stored(Wan6Proto(w)) && Wan6Options(st, w)
  }

  ghost predicate Wan6Options(st: Store, w: Wan6) {
    match w
    case Dhcpv6(duid) => Get(st, "network", "wan6", "clientid") == Stored(duid)
    case Static6(ip, net, gateway, dns1, dns2) =>
      && Get(st, "network", "wan6", "ip6addr") == Stored(ip)
      && Get(st, "network", "wan6", "ip6prefix") == Listed([net])
      && Get(st, "network", "wan6", "ip6gw") == Stored(gateway)
      && Get(st, "network", "wan6", "dns") == Listed(Dns(dns1, dns2))
    case SixToFour(ipv4) => Get(st, "network", "wan6", "ipaddr") == Stored(ipv4)
    case SixInFour(prefix, mtu, server, address, dynamic) =>
      && Get(st, "network", "wan6", "ip6prefix") == Listed([prefix])
      && Get(st, "network", "wan6", "mtu") == Stored(Decimal(mtu))
      && Get(st, "network", "wan6", "peeraddr") == Stored(server)
      && Get(st, "network", "wan6", "ip6addr") == Listed([address])
      && DynamicWritten(st, dynamic)
    case NoWan6 => true
  }

  ghost predicate DynamicWritten(st: Store, dynamic: Option<Dynamic>) {
    && Get(st, "network", "wan6", "tunnelid") == (if dynamic.Some? then Stored(dynamic.value.tunnelId) else None)
    && Get(st, "network", "wan6", "username") == (if dynamic.Some? then Stored(dynamic.value.username) else None)
    && Get(st, "network", "wan6", "password") == (if dynamic.Some? then Stored(dynamic.value.key) else None)
  }

  // ---------------------------------------------------------------- writing

  /** `_migrate_old_config`: an `ifname` becomes the device, its MAC moves to the device section. */
  method MigrateOldConfig(backend: UciBackend)
    requires backend.Valid() && !backend.raised
    modifies backend
    ensures backend.InBlock() && !backend.raised
    ensures Migrated(old(backend.View()), backend.View())
    ensures OnlySections(old(backend.View()), backend.View(), "network", {"wan", "dev_wan"})
  {
    hide ConfigsIn, ShapeOf, OrderIn, KindIn, Get, Fingerprint, OnlySections;
    Literals.CommonOptions();
    Literals.InterfaceOptions();
    var network := backend.View();
    var ifname := First(Get(network, "network", "wan", "ifname"));
    if ifname == "" {
      OnlyNothing(network, "network", {"wan", "dev_wan"});
      return;
    }
    OptionNeedsSection(network, "network", "wan", "ifname");
    MoveDevice(backend, ifname);
    ghost var moved := backend.View();
    MoveMac(backend, First(Get(network, "network", "wan", "macaddr")));
    OnlyBoth(network, moved, backend.View(), "network", {"wan", "dev_wan"}, {"wan", "dev_wan"});
    assert {"wan", "dev_wan"} + {"wan", "dev_wan"} == {"wan", "dev_wan"};
  }

  /** The legacy interface becomes the device, with a section of its own. */
  method MoveDevice(backend: UciBackend, ifname: string)
    requires backend.Valid() && !backend.raised && Has(backend.View(), "network", "wan") && ifname != ""
    modifies backend
    ensures backend.InBlock() && !backend.raised
    ensures OnlySections(old(backend.View()), backend.View(), "network", {"wan", "dev_wan"})
    ensures Has(backend.View(), "network", "wan") && Has(backend.View(), "network", "dev_wan")
    ensures Get(backend.View(), "network", "wan", "ifname") == None
    ensures Get(backend.View(), "network", "wan", "device") == Some(Text(ifname))
    ensures Get(backend.View(), "network", "dev_wan", "name") == Some(Text(ifname))
    ensures forall o :: o != "ifname" && o != "device" ==>
      Get(backend.View(), "network", "wan", o) == Get(old(backend.View()), "network", "wan", o)
    ensures Get(backend.View(), "network", "dev_wan", "macaddr") == Get(old(backend.View()), "network", "dev_wan", "macaddr")
  {
    hide ConfigsIn, ShapeOf, OrderIn, KindIn, Get, Fingerprint, OnlySections;
    Literals.Interfaces();
    Literals.CommonOptions();
    Literals.InterfaceOptions();
    ghost var st := backend.View();
    HasNeedsConfig(st, "network", "wan");
    backend.DelOption("network", "wan", "ifname");
    backend.SetOption("network", "wan", "device", ifname);
    ghost var st1 := backend.View();
    OnlyOptions(st, st1, "network", "wan");
    NameDevice(backend, ifname);
    OnlyBoth(st, st1, backend.View(), "network", {"wan"}, {"dev_wan"});
    assert {"wan"} + {"dev_wan"} == {"wan", "dev_wan"};
    OnlyOthers(st1, backend.View(), "network", {"dev_wan"}, "wan");
    OnlyOthers(st, st1, "network", {"wan"}, "dev_wan");
  }

  /** The device section with its name. */
  method NameDevice(backend: UciBackend, name: string)
    requires backend.Valid() && !backend.raised && HasConfig(backend.View(), "network")
    modifies backend
    ensures backend.InBlock() && !backend.raised
    ensures OnlySections(old(backend.View()), backend.View(), "network", {"dev_wan"})
    ensures Has(backend.View(), "network", "dev_wan")
    ensures Get(backend.View(), "network", "dev_wan", "name") == Stored(name)
    ensures Get(backend.View(), "network", "dev_wan", "macaddr") == Get(old(backend.View()), "network", "dev_wan", "macaddr")
  {
    hide ConfigsIn, ShapeOf, OrderIn, KindIn, Get, Stored, Fingerprint, OnlySections;
    Literals.CommonOptions();
    Literals.InterfaceOptions();
    ghost var st := backend.View();
    backend.AddSection("network", "device", "dev_wan");
    ghost var st1 := backend.View();
    OnlyAdded(st, st1, "network", "dev_wan", "device");
    backend.SetOption("network", "dev_wan", "name", name);
    OnlyOptions(st1, backend.View(), "network", "dev_wan");
    OnlyBoth(st, st1, backend.View(), "network", {"dev_wan"}, {"dev_wan"});
    assert {"dev_wan"} + {"dev_wan"} == {"dev_wan"};
  }

  /** The MAC goes from the interface to the device section. */
  method MoveMac(backend: UciBackend, macaddr: string)
    requires backend.Valid() && !backend.raised && Has(backend.View(), "network", "dev_wan")
    modifies backend
    ensures backend.InBlock() && !backend.raised
    ensures OnlySections(old(backend.View()), backend.View(), "network", {"wan", "dev_wan"})
    ensures forall c, s, o :: o != "macaddr" ==> Get(backend.View(), c, s, o) == Get(old(backend.View()), c, s, o)
    ensures if macaddr == "" then SameMac(old(backend.View()), backend.View())
            else Get(backend.View(), "network", "wan", "macaddr") == None
                 && Get(backend.View(), "network", "dev_wan", "macaddr") == Some(Text(macaddr))
  {
    hide ConfigsIn, ShapeOf, KindIn, Get, Fingerprint, OnlySections;
    Literals.Interfaces();
    ghost var st := backend.View();
    if macaddr != "" {
      backend.DelOption("network", "wan", "macaddr");
      backend.SetOption("network", "dev_wan", "macaddr", macaddr);
    }
    OnlyOptionsOfTwo(st, backend.View(), "network", "wan", "dev_wan");
  }

  /** A legacy interface becomes a device with its own section, which takes over the MAC; any other
      config is left alone. */
  ghost predicate Migrated(st: Store, st': Store) {
    var ifname, mac := First(Get(st, "network", "wan", "ifname")), First(Get(st, "network", "wan", "macaddr"));
    if ifname == "" then st' == st
    else
      && Get(st', "network", "wan", "ifname") == None
      && Get(st', "network", "wan", "device") == Some(Text(ifname))
      && Get(st', "network", "dev_wan", "name") == Some(Text(ifname))
      && (mac != "" ==> Get(st', "network", "wan", "macaddr") == None && Get(st', "network", "dev_wan", "macaddr") == Some(Text(mac)))
      && (mac == "" ==> SameMac(st, st'))
      && (forall o :: o != "ifname" && o != "device" && o != "macaddr" ==>
            Get(st', "network", "wan", o) == Get(st, "network", "wan", o))
  }

  ghost predicate SameMac(st: Store, st': Store) {
    && Get(st', "network", "wan", "macaddr") == Get(st, "network", "wan", "macaddr")
    && Get(st', "network", "dev_wan", "macaddr") == Get(st, "network", "dev_wan", "macaddr")
  }

  method WriteStatic(backend: UciBackend, w: Wan)
    requires backend.Valid() && !backend.raised && Has(backend.View(), "network", "wan") && w.Static?
    modifies backend
    ensures backend.InBlock() && !backend.raised
    ensures WanEdited(old(backend.View()), backend.View())
    ensures WanOptions(backend.View(), w)
    ensures Get(backend.View(), "network", "wan", "proto") == Get(old(backend.View()), "network", "wan", "proto")
  {
    hide ConfigsIn, ShapeOf, OrderIn, KindIn, Get, Stored, Listed, Fingerprint, Dns, Shown;
    Literals.CommonOptions();
    Literals.InterfaceOptions();
    backend.SetOption("network", "wan", "ipaddr", w.ip);
    backend.SetOption("network", "wan", "netmask", w.netmask);
    backend.SetOption("network", "wan", "gateway", w.gateway);
    backend.ReplaceList("network", "wan", "dns", Dns(w.dns1, w.dns2));
  }

  /** Only options of WAN changed, and not its device. */
  ghost predicate WanEdited(st: Store, st': Store) {
    && ShapeOf(st') == ShapeOf(st)
    && (forall c, s, o :: !(s == "wan" && c == "network" && o != "device") ==> Get(st', c, s, o) == Get(st, c, s, o))
  }

  method WriteWan(backend: UciBackend, w: Wan)
    requires backend.Valid()
    modifies backend
    ensures backend.InBlock() && backend.raised == (old(backend.raised) || !HasConfig(old(backend.View()), "network"))
    ensures !backend.raised ==>
      && OnlySections(old(backend.View()), backend.View(), "network", {"wan"})
      && WanWritten(backend.View(), w) && Has(backend.View(), "network", "wan")
      && Get(backend.View(), "network", "wan", "device") == Get(old(backend.View()), "network", "wan", "device")
  {
    hide ConfigsIn, ShapeOf, OrderIn, KindIn, Get, WanWritten, OnlySections;
    ghost var st := backend.View();
    backend.AddSection("network", "interface", "wan");
    if backend.raised { return; }
    ghost var st1 := backend.View();
    OnlyAdded(st, st1, "network", "wan", "interface");
    WriteWanOptions(backend, w);
    OnlyOptions(st1, backend.View(), "network", "wan");
    OnlyBoth(st, st1, backend.View(), "network", {"wan"}, {"wan"});
    assert {"wan"} + {"wan"} == {"wan"};
  }

  /** The type and the options that belong to it. */
  method WriteWanOptions(backend: UciBackend, w: Wan)
    requires backend.Valid() && !backend.raised && Has(backend.View(), "network", "wan")
    modifies backend
    ensures backend.InBlock() && !backend.raised
    ensures WanEdited(old(backend.View()), backend.View()) && WanWritten(backend.View(), w)
  {
    hide ConfigsIn, ShapeOf, OrderIn, KindIn, Get, Stored, Listed, Fingerprint, Dns, Shown;
    Literals.CommonOptions();
    Literals.InterfaceOptions();
    Literals.ProtocolOptions();
    backend.SetOption("network", "wan", "proto", WanProto(w));
    match w {
      case Dhcp(h) =>
        SetOrDelete(backend, "network", "wan", "hostname", h);
      case Static(_, _, _, _, _) =>
        WriteStatic(backend, w);
      case Pppoe(username, password) =>
        backend.SetOption("network", "wan", "username", username);
        backend.SetOption("network", "wan", "password", password);
      case NoWan =>
    }
  }

  /** What a write to the wan6 section keeps: every other interface but lan, and its own type. */
  ghost predicate Wan6Only(st: Store, st': Store) {
    && ShapeOf(st') == ShapeOf(st)
    && (forall c, s, o :: !(c == "network" && (s == "lan" || (s == "wan6" && o != "proto"))) ==>
          Get(st', c, s, o) == Get(st, c, s, o))
  }

  /** The section and its type, cleared of the prefix and of what only 6in4 uses. */
  method StartWan6(backend: UciBackend, w: Wan6)
    requires backend.Valid()
    modifies backend
    ensures backend.InBlock() && backend.raised == (old(backend.raised) || !HasConfig(old(backend.View()), "network"))
    ensures !backend.raised ==>
      && OnlySections(old(backend.View()), backend.View(), "network", {"wan6"})
      && Has(backend.View(), "network", "wan6")
      && Get(backend.View(), "network", "wan6", "proto") == Stored(Wan6Proto(w))
      && Get(backend.View(), "network", "wan6", "ip6prefix") == None
  {
    hide ConfigsIn, ShapeOf, OrderIn, KindIn, Get, Stored, Listed, Fingerprint, Wan6Proto, OnlySections;
    Literals.CommonOptions();
    Literals.ProtocolOptions();
    ghost var st := backend.View();
    backend.AddSection("network", "interface", "wan6");
    if backend.raised { return; }
    ghost var st1 := backend.View();
    OnlyAdded(st, st1, "network", "wan6", "interface");
    backend.SetOption("network", "wan6", "device", "@wan");
    backend.SetOption("network", "wan6", "proto", Wan6Proto(w));
    backend.DelOption("network", "wan6", "ip6prefix");
    if !w.SixInFour? {
      DelOptions(backend, "network", "wan6", ["tunnelid", "username", "password", "peeraddr", "mtu", "ip6addr"]);
    }
    OnlyOptions(st1, backend.View(), "network", "wan6");
    OnlyBoth(st, st1, backend.View(), "network", {"wan6"}, {"wan6"});
    assert {"wan6"} + {"wan6"} == {"wan6"};
  }

  method WriteStatic6(backend: UciBackend, w: Wan6)
    requires backend.Valid() && !backend.raised && Has(backend.View(), "network", "wan6") && w.Static6? && Get(backend.View(), "network", "wan6", "ip6prefix") == None
    modifies backend
    ensures backend.InBlock() && !backend.raised
    ensures Wan6Only(old(backend.View()), backend.View()) && Wan6Options(backend.View(), w)
  {
    hide ConfigsIn, ShapeOf, OrderIn, KindIn, Get, Stored, Listed, Fingerprint, Dns, WithItems;
    Literals.Configs();
    Literals.Interfaces();
    Literals.WanRules();
    Literals.CommonOptions();
    Literals.InterfaceOptions();
    Literals.ProtocolOptions();
    NewListReads([w.net]);
    backend.SetOption("network", "wan6", "ip6addr", w.ip);
    backend.AddToList("network", "wan6", "ip6prefix", [w.net]);
    backend.SetOption("network", "wan6", "ip6gw", w.gateway);
    backend.ReplaceList("network", "wan6", "dns", Dns(w.dns1, w.dns2));
  }

  method WriteDhcpv6(backend: UciBackend, w: Wan6)
    requires backend.Valid() && !backend.raised && Has(backend.View(), "network", "wan6") && w.Dhcpv6?
    modifies backend
    ensures backend.InBlock() && !backend.raised
    ensures Wan6Only(old(backend.View()), backend.View()) && Wan6Options(backend.View(), w)
  {
    hide ConfigsIn, ShapeOf, OrderIn, KindIn, Get, Stored, Fingerprint;
    Literals.Configs();
    Literals.Interfaces();
    Literals.WanRules();
    Literals.CommonOptions();
    Literals.InterfaceOptions();
    Literals.ProtocolOptions();
    EmptyTexts();
    SetOrDelete(backend, "network", "wan6", "clientid", if w.duid != "" then Some(w.duid) else None);
  }

  method Write6to4(backend: UciBackend, w: Wan6)
    requires backend.Valid() && !backend.raised && Has(backend.View(), "network", "wan6") && w.SixToFour?
    modifies backend
    ensures backend.InBlock() && backend.raised == !Has(old(backend.View()), "network", "lan")
    ensures !backend.raised ==> Wan6Only(old(backend.View()), backend.View()) && Wan6Options(backend.View(), w)
  {
    hide ConfigsIn, ShapeOf, OrderIn, KindIn, Get, Stored, Fingerprint;
    Literals.Interfaces();
    Literals.CommonOptions();
    Literals.InterfaceOptions();
    EmptyTexts();
    backend.SetOption("network", "lan", "ip6assign", "60");
    SetOrDelete(backend, "network", "wan6", "ipaddr", if w.ipv4 != "" then Some(w.ipv4) else None);
  }

  method WritePrefix(backend: UciBackend, prefix: string)
    requires backend.Valid() && !backend.raised && Has(backend.View(), "network", "wan6")
    requires Get(backend.View(), "network", "wan6", "ip6prefix") == None
    modifies backend
    ensures backend.InBlock() && !backend.raised
    ensures !backend.raised ==>
      OptionIs(old(backend.View()), backend.View(), "network", "wan6", "ip6prefix", Listed([prefix]))
  {
    hide ConfigsIn, ShapeOf, KindIn, Get, Listed, WithItems, Stored;
    NewListReads([prefix]);
    EmptyTexts();
    if prefix != "" {
      backend.AddToList("network", "wan6", "ip6prefix", [prefix]);
    } else {
      backend.DelOption("network", "wan6", "ip6prefix");
    }
  }

  method Write6in4(backend: UciBackend, w: Wan6)
    requires backend.Valid() && !backend.raised && Has(backend.View(), "network", "wan6") && w.SixInFour? && Get(backend.View(), "network", "wan6", "ip6prefix") == None
    modifies backend
    ensures backend.InBlock() && !backend.raised
    ensures Wan6Only(old(backend.View()), backend.View()) && Wan6Options(backend.View(), w)
  {
    hide ConfigsIn, ShapeOf, OrderIn, KindIn, Get, Stored, Listed, Fingerprint, WithItems, Decimal, DynamicWritten;
    Literals.CommonOptions();
    Literals.ProtocolOptions();
    WriteTunnel(backend, w);
    WritePrefix(backend, w.prefix);
    WriteDynamic(backend, w.dynamic);
  }

  /** The ends of the tunnel. */
  method WriteTunnel(backend: UciBackend, w: Wan6)
    requires backend.Valid() && !backend.raised && Has(backend.View(), "network", "wan6") && w.SixInFour?
    modifies backend
    ensures backend.InBlock() && !backend.raised && ShapeOf(backend.View()) == ShapeOf(old(backend.View()))
    ensures forall c, s, o :: !(c == "network" && s == "wan6" && (o == "mtu" || o == "peeraddr" || o == "ip6addr")) ==>
      Get(backend.View(), c, s, o) == Get(old(backend.View()), c, s, o)
    ensures Get(backend.View(), "network", "wan6", "mtu") == Stored(Decimal(w.mtu))
    ensures Get(backend.View(), "network", "wan6", "peeraddr") == Stored(w.server)
    ensures Get(backend.View(), "network", "wan6", "ip6addr") == Listed([w.address])
  {
    hide ConfigsIn, ShapeOf, OrderIn, KindIn, Get, Stored, Listed, Fingerprint, Decimal;
    Literals.ProtocolOptions();
    backend.SetOption("network", "wan6", "mtu", Decimal(w.mtu));
    backend.SetOption("network", "wan6", "peeraddr", w.server);
    backend.ReplaceList("network", "wan6", "ip6addr", [w.address]);
  }

  method WriteDynamic(backend: UciBackend, dynamic: Option<Dynamic>)
    requires backend.Valid() && !backend.raised && Has(backend.View(), "network", "wan6")
    modifies backend
    ensures backend.InBlock() && !backend.raised
    ensures ShapeOf(backend.View()) == ShapeOf(old(backend.View()))
    ensures DynamicWritten(backend.View(), dynamic)
    ensures forall c, s, o :: !(c == "network" && s == "wan6" && (o == "tunnelid" || o == "username" || o == "password")) ==>
      Get(backend.View(), c, s, o) == Get(old(backend.View()), c, s, o)
  {
    hide ConfigsIn, ShapeOf, OrderIn, KindIn, Get, Stored, Listed, Fingerprint;
    Literals.ProtocolOptions();
    match dynamic {
      case Some(d) =>
        backend.SetOption("network", "wan6", "tunnelid", d.tunnelId);
        backend.SetOption("network", "wan6", "username", d.username);
        backend.SetOption("network", "wan6", "password", d.key);
      case None =>
        DelOptions(backend, "network", "wan6", ["tunnelid", "username", "password"]);
    }
  }

  method WriteWan6(backend: UciBackend, w: Wan6)
    requires backend.Valid()
    modifies backend
    ensures backend.InBlock()
    ensures backend.raised == (old(backend.raised) || !HasConfig(old(backend.View()), "network")
                               || (w.SixToFour? && !Has(old(backend.View()), "network", "lan")))
    ensures !backend.raised ==>
      OnlySections(old(backend.View()), backend.View(), "network", {"wan6", "lan"}) && Wan6Written(backend.View(), w)
  {
    hide ConfigsIn, ShapeOf, OrderIn, KindIn, Get, Stored, Fingerprint, Wan6Proto, Wan6Options, OnlySections;
    Literals.Interfaces();
    ghost var st := backend.View();
    StartWan6(backend, w);
    if backend.raised { return; }
    ghost var st1 := backend.View();
    OnlyOthers(st, st1, "network", {"wan6"}, "lan");
    FinishWan6(backend, w);
    if backend.raised { return; }
    OnlyOptionsOfTwo(st1, backend.View(), "network", "wan6", "lan");
    OnlyBoth(st, st1, backend.View(), "network", {"wan6"}, {"wan6", "lan"});
    assert {"wan6"} + {"wan6", "lan"} == {"wan6", "lan"};
  }

  /** The options of the type. */
  method FinishWan6(backend: UciBackend, w: Wan6)
    requires backend.Valid() && !backend.raised && Has(backend.View(), "network", "wan6")
    requires Get(backend.View(), "network", "wan6", "ip6prefix") == None
    modifies backend
    ensures backend.InBlock() && backend.raised == (w.SixToFour? && !Has(old(backend.View()), "network", "lan"))
    ensures !backend.raised ==> Wan6Only(old(backend.View()), backend.View()) && Wan6Options(backend.View(), w)
  {
    hide ConfigsIn, ShapeOf, OrderIn, KindIn, Get, Stored, Listed, Fingerprint, Decimal, Dns;
    match w {
      case Static6(_, _, _, _, _) => WriteStatic6(backend, w);
      case Dhcpv6(_) => WriteDhcpv6(backend, w);
      case SixToFour(_) => Write6to4(backend, w);
      case SixInFour(_, _, _, _, _) => Write6in4(backend, w);
      case NoWan6 =>
        Literals.CommonOptions();
        Literals.ProtocolOptions();
        DelOptions(backend, "network", "wan6", ["ip6prefix", "ip6addr", "ip6gw"]);
    }
  }

  ghost predicate RuleIs(st: Store, rule: string, on: bool) {
    Get(st, "firewall", rule, "enabled") == Stored(StoreBool(on))
  }

  /** The zones of the firewall, the sections of the tunnel rules not counted. */
  function Zones(st: Store): seq<string> {
    Without(Without(SectionsByType(st, "firewall", "zone"), "turris_wan_6in4_rule"), "turris_wan_6to4_rule")
  }

  /** One rule is there and switched; it is no zone any more, if it ever was one. */
  ghost predicate RuleSwitched(st: Store, st': Store, rule: string, on: bool) {
    && OnlySections(st, st', "firewall", {rule})
    && RuleIs(st', rule, on)
    && SectionsByType(st', "firewall", "zone") == Without(SectionsByType(st, "firewall", "zone"), rule)
  }

  /** The rule exists and is switched on or off; the rest of it follows. */
  method SwitchRule(backend: UciBackend, rule: string, on: bool, rest: Pairs)
    requires backend.Valid() && forall j | 0 <= j < |rest| :: rest[j].0 != "enabled"
    modifies backend
    ensures backend.InBlock() && backend.raised == (old(backend.raised) || !HasConfig(old(backend.View()), "firewall"))
    ensures !backend.raised ==> RuleSwitched(old(backend.View()), backend.View(), rule, on)
  {
    hide ConfigsIn, ShapeOf, OrderIn, KindIn, Get, StoreBool, OnlySections, PairsIn, SectionsByType;
    ghost var st := backend.View();
    backend.AddSection("firewall", "rule", rule);
    if backend.raised { return; }
    ghost var st1 := backend.View();
    OnlyAdded(st, st1, "firewall", rule, "rule");
    ZonesWithout(st, st1, rule);
    var pairs := [("enabled", StoreBool(on))] + rest;
    SetOptions(backend, "firewall", rule, pairs);
    assert forall j | 0 < j < |pairs| :: pairs[j] == rest[j - 1];
    PairHolds(st1, backend.View(), "firewall", rule, pairs, 0);
    OnlyBoth(st, st1, backend.View(), "firewall", {rule}, {rule});
    assert {rule} + {rule} == {rule};
    ZonesSame(st1, backend.View());
  }

  lemma ZonesSame(st: Store, st': Store)
    requires ShapeOf(st') == ShapeOf(st)
    ensures SectionsByType(st', "firewall", "zone") == SectionsByType(st, "firewall", "zone")
  {
    OfKindSame(st, st', "firewall", Order(st, "firewall"), "zone");
  }

  lemma ZonesWithout(st: Store, st': Store, rule: string)
    requires SectionIs(st, st', "firewall", rule, "rule")
    ensures SectionsByType(st', "firewall", "zone") == Without(SectionsByType(st, "firewall", "zone"), rule)
  {
    hide ConfigsIn, ShapeOf, KindIn, OrderIn, Get;
    var names, more := Order(st, "firewall"), if Has(st, "firewall", rule) then [] else [rule];
    OfKindAppends(st', "firewall", names, more, "zone");
    assert OfKind(st', "firewall", more, "zone") == [];
    OfKindWithout(st, st', names, rule);
  }

  lemma {:induction false} OfKindWithout(st: Store, st': Store, names: seq<string>, rule: string)
    requires forall s :: Kind(st', "firewall", s) == if s == rule then Some("rule") else Kind(st, "firewall", s)
    ensures OfKind(st', "firewall", names, "zone") == Without(OfKind(st, "firewall", names, "zone"), rule)
  {
    hide Configs, Kind;
    if names != [] {
      OfKindWithout(st, st', names[1..], rule);
      var rest := OfKind(st, "firewall", names[1..], "zone");
      WithoutFirst(names[0], rest, rule);
      hide Without;
      assert [] + rest == rest && forall s: seq<string> :: [] + s == s;
      assert "rule" != "zone";
    }
  }

  /** The firewall rules of both tunnel types: each is on exactly for its own type. */
  method WriteRules(backend: UciBackend, w: Wan6)
    requires backend.Valid()
    modifies backend
    ensures backend.InBlock() && backend.raised == (old(backend.raised) || !HasConfig(old(backend.View()), "firewall"))
    ensures !backend.raised ==> RulesWritten(old(backend.View()), backend.View(), w)
  {
    hide ConfigsIn, ShapeOf, KindIn, Get, RuleSwitched, SectionsByType, Fingerprint, RulesWritten;
    Literals.CommonOptions();
    Literals.FirewallOptions();
    ghost var st := backend.View();
    if w.SixInFour? {
      SwitchRule(backend, "turris_wan_6to4_rule", false, []);
      if backend.raised { return; }
      ghost var st1 := backend.View();
      SwitchRule(backend, "turris_wan_6in4_rule", true,
        [("family", "ipv4"), ("proto", "41"), ("target", "ACCEPT"), ("src", "wan"), ("src_ip", w.server)]);
      BothSwitched(st, st1, backend.View(), w);
    } else {
      SwitchRule(backend, "turris_wan_6in4_rule", false, []);
      if backend.raised { return; }
      ghost var st1 := backend.View();
      SwitchRule(backend, "turris_wan_6to4_rule", w.SixToFour?,
        if w.SixToFour? then [("proto", "ipv6"), ("src_ip", "192.88.99.1"), ("target", "ACCEPT"), ("src", "wan")] else []);
      BothSwitched(st, st1, backend.View(), w);
    }
  }

  /** Both rules are as the type asks, and the other sections are as they were. */
  ghost predicate RulesWritten(st: Store, st': Store, w: Wan6) {
    && OnlySections(st, st', "firewall", {"turris_wan_6in4_rule", "turris_wan_6to4_rule"})
    && RuleIs(st', "turris_wan_6in4_rule", w.SixInFour?)
    && RuleIs(st', "turris_wan_6to4_rule", w.SixToFour?)
    && SectionsByType(st', "firewall", "zone") == Zones(st)
  }

  lemma BothSwitched(st: Store, st1: Store, st2: Store, w: Wan6)
    requires if w.SixInFour?
      then RuleSwitched(st, st1, "turris_wan_6to4_rule", false) && RuleSwitched(st1, st2, "turris_wan_6in4_rule", true)
      else RuleSwitched(st, st1, "turris_wan_6in4_rule", false) && RuleSwitched(st1, st2, "turris_wan_6to4_rule", w.SixToFour?)
    ensures RulesWritten(st, st2, w)
  {
    hide ConfigsIn, ShapeOf, KindIn, Get, SectionsByType, Fingerprint, OnlySections, StoreBool, Without;
    Literals.WanRules();
    var in4, to4 := "turris_wan_6in4_rule", "turris_wan_6to4_rule";
    WithoutBoth(SectionsByType(st, "firewall", "zone"), in4, to4);
    if w.SixInFour? {
      OnlyOthers(st1, st2, "firewall", {in4}, to4);
      OnlyBoth(st, st1, st2, "firewall", {to4}, {in4});
    } else {
      OnlyOthers(st1, st2, "firewall", {to4}, in4);
      OnlyBoth(st, st1, st2, "firewall", {in4}, {to4});
    }
    assert {to4} + {in4} == {in4, to4} && {in4} + {to4} == {in4, to4};
  }

  ghost predicate Ipv6Is(st: Store, on: bool) {
    && Get(st, "network", "wan", "ipv6") == Stored(StoreBool(on))
    && Get(st, "resolver", "common", "net_ipv6") == Stored(StoreBool(on))
  }

  /** IPv6 on the interface and in the resolver, on for every wan6 type but "none". */
  method WriteIpv6Switch(backend: UciBackend, on: bool)
    requires backend.Valid() && !backend.raised && Has(backend.View(), "network", "wan")
    modifies backend
    ensures backend.InBlock() && backend.raised == !Has(old(backend.View()), "resolver", "common")
    ensures !backend.raised ==>
      && ShapeOf(backend.View()) == ShapeOf(old(backend.View()))
      && (forall c, s, o :: !(c == "network" && s == "wan" && o == "ipv6") && !(c == "resolver") ==>
            Get(backend.View(), c, s, o) == Get(old(backend.View()), c, s, o))
      && Ipv6Is(backend.View(), on)
  {
    hide ConfigsIn, ShapeOf, OrderIn, KindIn, Get, Stored, Fingerprint, StoreBool;
    Literals.Configs();
    backend.SetOption("network", "wan", "ipv6", StoreBool(on));
    backend.SetOption("resolver", "common", "net_ipv6", StoreBool(on));
  }

  /** The device without its VLAN suffix, and with the new one if there is one. */
  function Tagged(device: string, id: Option<nat>): string {
    var base := BeforeFirst(device, '.');
    if id.Some? then base + "." + Decimal(id.value) else base
  }

  /** `_update_vlan_id` */
  method UpdateVlanId(backend: UciBackend, device: string, id: Option<nat>)
    requires backend.Valid() && !backend.raised
    requires Has(backend.View(), "network", "wan") && Has(backend.View(), "network", "dev_wan")
    modifies backend
    ensures backend.InBlock() && !backend.raised
    ensures ShapeOf(backend.View()) == ShapeOf(old(backend.View()))
    ensures Get(backend.View(), "network", "wan", "device") == Stored(Tagged(device, id))
    ensures forall c, s, o :: !(c == "network" && ((s == "wan" && o == "device") || (s == "dev_wan" && o == "name"))) ==>
      Get(backend.View(), c, s, o) == Get(old(backend.View()), c, s, o)
  {
    hide ConfigsIn, ShapeOf, KindIn, Get, Stored, Fingerprint, Tagged;
    Literals.Configs();
    Literals.Interfaces();
    Literals.WanRules();
    backend.SetOption("network", "wan", "device", Tagged(device, id));
    backend.SetOption("network", "dev_wan", "name", Tagged(device, id));
  }

  /** The device section: its name, the custom MAC, and the VLAN suffix of the device. */
  method WriteDevice(backend: UciBackend, customMac: Option<string>, vlan: Option<Option<nat>>)
    requires backend.Valid() && !backend.raised && Has(backend.View(), "network", "wan")
    modifies backend
    ensures backend.InBlock()
    ensures backend.raised == !DeviceFits(Get(old(backend.View()), "network", "wan", "device"), vlan.Some?)
    ensures !backend.raised ==>
      && OnlySections(old(backend.View()), backend.View(), "network", {"wan", "dev_wan"})
      && (forall c, s, o :: s != "dev_wan" && !(s == "wan" && o == "device") ==>
            Get(backend.View(), c, s, o) == Get(old(backend.View()), c, s, o))
      && Has(backend.View(), "network", "dev_wan")
      && Get(backend.View(), "network", "dev_wan", "macaddr") == (if customMac.Some? then Stored(customMac.value) else None)
      && DeviceWritten(Get(old(backend.View()), "network", "wan", "device"), backend.View(), vlan)
  {
    hide ConfigsIn, ShapeOf, OrderIn, KindIn, Get, Stored, Fingerprint, PyText, Tagged, OnlySections;
    Literals.Interfaces();
    Literals.CommonOptions();
    Literals.InterfaceOptions();
    ghost var st := backend.View();
    HasNeedsConfig(st, "network", "wan");
    var device := Get(backend.View(), "network", "wan", "device");
    if !DeviceFits(device, vlan.Some?) { backend.Raise(); return; }
    backend.AddSection("network", "device", "dev_wan");
    ghost var st1 := backend.View();
    OnlyAdded(st, st1, "network", "dev_wan", "device");
    backend.SetOption("network", "dev_wan", "name", PyText(device.value));
    SetOrDelete(backend, "network", "dev_wan", "macaddr", customMac);
    if vlan.Some? {
      UpdateVlanId(backend, device.value.text, vlan.value);
    }
    OnlyOptionsOfTwo(st1, backend.View(), "network", "wan", "dev_wan");
    OnlyBoth(st, st1, backend.View(), "network", {"dev_wan"}, {"wan", "dev_wan"});
    assert {"dev_wan"} + {"wan", "dev_wan"} == {"wan", "dev_wan"};
  }

  /** The device that the program needs: there must be one, and a VLAN goes only onto a text. */
  predicate DeviceFits(device: Option<Value>, vlan: bool) {
    device.Some? && (vlan ==> device.value.Text?)
  }

  /** The device keeps its base name and takes the asked VLAN, or stays when none was asked. */
  ghost predicate DeviceWritten(was: Option<Value>, st: Store, vlan: Option<Option<nat>>) {
    var device := Get(st, "network", "wan", "device");
    match vlan
    case None => device == was
    case Some(id) => was.Some? && was.value.Text? && device == Stored(Tagged(was.value.text, id))
  }

  lemma TaggedReadsBack(device: string, id: Option<nat>)
    ensures VlanOf(Tagged(device, id)) == Some(id)
  {
    if id.Some? {
      var base, d := BeforeFirst(device, '.'), Decimal(id.value);
      var s := base + "." + d;
      DigitsOnly(Decimal(id.value), '.');
      DecimalReadsBack(id.value);
      hide BeforeFirst, Decimal, AllDigits, AfterLast, Int;
      assert s == base + ['.'] + d;
      assert s[|base|] == '.';
      AfterLastOfTail(base, '.', d);
    }
  }

  lemma VlanReadsBack(was: Option<Value>, st: Store, id: Option<nat>)
    requires DeviceWritten(was, st, Some(id))
    ensures ReadVlan(st) == Some(id)
  {
    TaggedReadsBack(was.value.text, id);
    hide Get, ConfigsIn, ShapeOf, KindIn, Tagged, VlanOf;
    assert Tagged(was.value.text, id) == "" ==> VlanOf("") == Some(id);
  }

  /** The queue as the reader shows it: on and with its rates, or off; without the sqm config there
      is none to show. */
  ghost predicate QosIs(st: Store, qos: Option<Qos>) {
    if qos.Some? then
      HasConfig(st, "sqm") ==>
        && ReadBool(st, "sqm", "wan_limit_turris", "enabled", false) == Some(true)
        && ReadNat(st, "sqm", "wan_limit_turris", "download", 1024) == Some(qos.value.download)
        && ReadNat(st, "sqm", "wan_limit_turris", "upload", 1024) == Some(qos.value.upload)
    else ReadBool(st, "sqm", "wan_limit_turris", "enabled", false) == Some(false)
  }

  /** The queue of the WAN limit; its UciException is logged and goes no further. */
  method WriteQos(backend: UciBackend, qos: Option<Qos>)
    requires backend.Valid() && !backend.raised
    modifies backend
    ensures backend.InBlock() && !backend.raised
    ensures OnlySections(old(backend.View()), backend.View(), "sqm", {"wan_limit_turris"}) && QosIs(backend.View(), qos)
  {
    hide ConfigsIn, ShapeOf, OrderIn, KindIn, Get, Stored, StoreBool, ParseBool, OnlySections;
    ghost var st, name := backend.View(), {"wan_limit_turris"};
    NoOptions(st, "sqm", "wan_limit_turris");
    OnlyNothing(st, "sqm", name);
    var device := Get(backend.View(), "network", "wan", "device");
    if qos.Some? && HasConfig(backend.View(), "sqm") {
      backend.AddSection("sqm", "queue", "wan_limit_turris");
      ghost var st1 := backend.View();
      OnlyAdded(st, st1, "sqm", "wan_limit_turris", "queue");
      WriteQueue(backend, if device.Some? then PyText(device.value) else "", qos.value);
      OnlyBoth(st, st1, backend.View(), "sqm", name, name);
      assert name + name == name;
    } else if qos.None? && Has(backend.View(), "sqm", "wan_limit_turris") {
      backend.SetOption("sqm", "wan_limit_turris", "enabled", StoreBool(false));
      OnlyOptions(st, backend.View(), "sqm", "wan_limit_turris");
      BoolReadsBack(backend.View(), "sqm", "wan_limit_turris", "enabled", false, false);
    }
  }

  method WriteQueue(backend: UciBackend, device: string, qos: Qos)
    requires backend.Valid() && !backend.raised && Has(backend.View(), "sqm", "wan_limit_turris")
    modifies backend
    ensures backend.InBlock() && !backend.raised
    ensures OnlySections(old(backend.View()), backend.View(), "sqm", {"wan_limit_turris"})
    ensures QosIs(backend.View(), Some(qos))
  {
    hide ConfigsIn, ShapeOf, KindIn, Get, Stored, Fingerprint, StoreBool, ParseBool, Decimal, OnlySections, PairsIn;
    Literals.CommonOptions();
    Literals.QueueOptions();
    ghost var st := backend.View();
    var pairs := [("interface", device), ("download", Decimal(qos.download)), ("upload", Decimal(qos.upload)),
                  ("script", "piece_of_cake.qos"), ("enabled", StoreBool(true))];
    SetOptions(backend, "sqm", "wan_limit_turris", pairs);
    PairHolds(st, backend.View(), "sqm", "wan_limit_turris", pairs, 1);
    PairHolds(st, backend.View(), "sqm", "wan_limit_turris", pairs, 2);
    PairHolds(st, backend.View(), "sqm", "wan_limit_turris", pairs, 4);
    BoolReadsBack(backend.View(), "sqm", "wan_limit_turris", "enabled", true, false);
    NatReadsBack(backend.View(), "sqm", "wan_limit_turris", "download", qos.download, 1024);
    NatReadsBack(backend.View(), "sqm", "wan_limit_turris", "upload", qos.upload, 1024);
  }

  /** The first zone named "wan"; None when there is none, or a zone before it has no name. */
  function WanZone(st: Store, zones: seq<string>): (zone: Option<string>)
    ensures zone.Some? ==> zone.value in zones
  {
    if zones == [] then None
    else match Get(st, "firewall", zones[0], "name")
      case None => None
      case Some(name) => if name == Text("wan") then Some(zones[0]) else WanZone(st, zones[1..])
  }

  /** `set_wan_firewall_zone_interfaces`: the uplink is the wired one again. */
  method SetWanZone(backend: UciBackend)
    requires backend.Valid() && !backend.raised
    modifies backend
    ensures backend.InBlock()
    ensures var zone := WanZone(old(backend.View()), SectionsByType(old(backend.View()), "firewall", "zone"));
      && backend.raised == zone.None?
      && (!backend.raised ==>
            OptionIs(old(backend.View()), backend.View(), "firewall", zone.value, "network", Some(Items(["wan", "wan6"]))))
  {
    hide ConfigsIn, ShapeOf, OrderIn, KindIn, Get, SectionsByType, WanZone;
    AllShown(["wan", "wan6"]);
    var zone := WanZone(backend.View(), SectionsByType(backend.View(), "firewall", "zone"));
    if zone.None? { backend.Raise(); return; }
    assert Has(backend.View(), "firewall", zone.value);
    backend.ReplaceList("firewall", zone.value, "network", ["wan", "wan6"]);
  }

  lemma WanReadsBack(st: Store, w: Wan)
    requires WanWritten(st, w) && (w.Static? ==> w.ip != "" && w.netmask != "" && w.gateway != "")
    requires w.Static? ==> w.dns1 != Some("") && w.dns2 != Some("")
    ensures ReadWan(st) == Some(WanAsRead(w))
  {
    hide Get, NthDns, Listed, Dns, Fingerprint;
    Literals.Configs();
    Literals.CommonOptions();
    Literals.Protocols();
    if w.Static? { DnsReadsBack(w.dns1, w.dns2); }
  }

  lemma Wan6ReadsBack(st: Store, w: Wan6)
    requires Wan6Written(st, w)
    requires w.Static6? ==> w.dns1 != Some("") && w.dns2 != Some("")
    requires w.SixInFour? && w.dynamic.Some? ==>
      w.dynamic.value.tunnelId != "" && w.dynamic.value.username != "" && w.dynamic.value.key != ""
    ensures ReadWan6(st) == Some(Wan6AsRead(w))
  {
    hide Get, NthDns, Listed, Dns, Decimal, Int, First, Fingerprint;
    Literals.Configs();
    Literals.CommonOptions();
    Literals.Protocols();
    match w {
      case Static6(ip, net, gateway, dns1, dns2) =>
        DnsReadsBack(dns1, dns2);
        FirstOfOne(net);
      case SixInFour(prefix, mtu, server, address, dynamic) =>
        FirstOfOne(prefix);
        FirstOfOne(address);
        DecimalReadsBack(mtu);
        DynamicReadsBack(st, dynamic);
      case _ =>
    }
  }

  lemma DynamicReadsBack(st: Store, dynamic: Option<Dynamic>)
    requires DynamicWritten(st, dynamic)
    requires dynamic.Some? ==>
      dynamic.value.tunnelId != "" && dynamic.value.username != "" && dynamic.value.key != ""
    ensures ReadDynamic(st) == dynamic
  {
    hide Get;
  }

  lemma MacReadsBack(st: Store, customMac: Option<string>)
    requires Has(st, "network", "dev_wan") && customMac != Some("")
    requires Get(st, "network", "dev_wan", "macaddr") == if customMac.Some? then Stored(customMac.value) else None
    ensures ReadMac(st) == customMac
  {
    hide Get, ConfigsIn, ShapeOf, KindIn;
    var mac := Get(st, "network", "dev_wan", "macaddr");
    if customMac.Some? {
      assert customMac.value != "";
      assert First(mac) == customMac.value;
    } else {
      assert First(mac) == "";
    }
    assert ReadMac(st) == if First(mac) == "" then None else Some(First(mac));
  }

  /** All that the reader will look at, as it is once everything is written. */
  ghost predicate Written(st: Store, x: Settings, was: Option<Value>) {
    && WanWritten(st, x.wan)
    && Wan6Written(st, x.wan6)
    && RulesAre(st, x.wan6)
    && Ipv6Is(st, !x.wan6.NoWan6?)
    && Has(st, "network", "dev_wan")
    && Get(st, "network", "dev_wan", "macaddr") == (if x.customMac.Some? then Stored(x.customMac.value) else None)
    && DeviceWritten(was, st, x.vlan)
  }

  ghost predicate RulesAre(st: Store, w: Wan6) {
    RuleIs(st, "turris_wan_6in4_rule", w.SixInFour?) && RuleIs(st, "turris_wan_6to4_rule", w.SixToFour?)
  }

  lemma WanKept(st: Store, st': Store, w: Wan)
    requires WanWritten(st, w)
    requires forall o :: o != "ipv6" && o != "device" ==> Get(st', "network", "wan", o) == Get(st, "network", "wan", o)
    ensures WanWritten(st', w)
  {
    hide Get, Listed, Dns, Stored, Fingerprint;
    Literals.CommonOptions();
    Literals.InterfaceOptions();
    Literals.ProtocolOptions();
  }

  lemma Wan6Kept(st: Store, st': Store, w: Wan6)
    requires Wan6Written(st, w) && SameOptions(st, st', "network", "wan6")
    ensures Wan6Written(st', w)
  {
    hide Get, Listed, Dns, Stored, Decimal;
  }

  /** Edits of the queue or of a zone leave everything else as it was written. */
  lemma WrittenKept(st: Store, st': Store, x: Settings, was: Option<Value>)
    requires Written(st, x, was)
    requires ConfigKept(st, st', "network") && ConfigKept(st, st', "resolver")
    requires forall s :: Get(st', "firewall", s, "enabled") == Get(st, "firewall", s, "enabled")
    ensures Written(st', x, was)
  {
    hide Get, ConfigsIn, ShapeOf, KindIn, Stored, StoreBool, WanWritten, Wan6Written, Tagged;
    WanKept(st, st', x.wan);
    Wan6Kept(st, st', x.wan6);
  }

  lemma WrittenReadsBack(st: Store, x: Settings, was: Option<Value>)
    requires Accepted(x) && Written(st, x, was)
    ensures ReadWan(st) == Some(WanAsRead(x.wan)) && ReadWan6(st) == Some(Wan6AsRead(x.wan6))
    ensures ReadMac(st) == x.customMac
    ensures x.vlan.Some? ==> ReadVlan(st) == Some(x.vlan.value)
  {
    hide Get, ReadWan, ReadWan6, ReadMac, ReadVlan, WanWritten, Wan6Written, DeviceWritten, Stored, RulesAre, Ipv6Is;
    WanReadsBack(st, x.wan);
    Wan6ReadsBack(st, x.wan6);
    MacReadsBack(st, x.customMac);
    if x.vlan.Some? { VlanReadsBack(was, st, x.vlan.value); }
  }

  /** The reader gives WAN back as it was written exactly when there is no empty hostname and no second DNS
      server without a first one. */
  lemma WanReadsBackExactly(st: Store, w: Wan)
    requires WanWritten(st, w) && (w.Static? ==> w.ip != "" && w.netmask != "" && w.gateway != "")
    requires w.Static? ==> w.dns1 != Some("") && w.dns2 != Some("")
    ensures ReadWan(st) == Some(w) <==>
      !(w.Dhcp? && w.hostname == Some("")) && !(w.Static? && w.dns2.Some? && w.dns1.None?)
  {
    WanReadsBack(st, w);
    hide ReadWan, WanWritten;
  }

  /** And WAN6 exactly when there is no second DNS server without a first one. */
  lemma Wan6ReadsBackExactly(st: Store, w: Wan6)
    requires Wan6Written(st, w)
    requires w.Static6? ==> w.dns1 != Some("") && w.dns2 != Some("")
    requires w.SixInFour? && w.dynamic.Some? ==>
      w.dynamic.value.tunnelId != "" && w.dynamic.value.username != "" && w.dynamic.value.key != ""
    ensures ReadWan6(st) == Some(w) <==> !(w.Static6? && w.dns2.Some? && w.dns1.None?)
  {
    Wan6ReadsBack(st, w);
    hide ReadWan6, Wan6Written;
  }

  /** A queue that reads back does so whatever happens in other configs. */
  lemma QosKept(st: Store, st': Store, qos: Option<Qos>)
    requires QosIs(st, qos) && ConfigKept(st, st', "sqm")
    ensures QosIs(st', qos)
  {
    hide Get, ConfigsIn, ShapeOf, KindIn, ParseBool;
  }

  // ---------------------------------------------------------------- when the update ends normally

  /** The device that WAN has after the migration. */
  function DeviceFound(st: Store): Option<Value> {
    var ifname := First(Get(st, "network", "wan", "ifname"));
    if ifname != "" then Some(Text(ifname)) else Get(st, "network", "wan", "device")
  }

  /** What the program asks of the configuration: the configs and sections that it edits but does not
      make, a WAN device, and a firewall zone of WAN with no nameless zone in front of it. */
  predicate Possible(st: Store, x: Settings) {
    && InterfacesPossible(st, x.wan6)
    && DeviceFits(DeviceFound(st), x.vlan.Some?)
    && WanZone(st, Zones(st)).Some?
  }

  predicate InterfacesPossible(st: Store, w: Wan6) {
    && HasConfig(st, "network") && HasConfig(st, "firewall")
    && Has(st, "resolver", "common")
    && (w.SixToFour? ==> Has(st, "network", "lan"))
  }

  /** The zones are those of the old firewall config, under their old names. */
  ghost predicate ZonesKept(st: Store, st': Store) {
    && SectionsByType(st', "firewall", "zone") == Zones(st)
    && forall s | s in Zones(st) :: Get(st', "firewall", s, "name") == Get(st, "firewall", s, "name")
  }

  lemma ZonesOfKept(st: Store, st': Store)
    requires ConfigKept(st, st', "firewall")
    ensures SectionsByType(st', "firewall", "zone") == SectionsByType(st, "firewall", "zone")
  {
    OfKindSame(st, st', "firewall", Order(st, "firewall"), "zone");
  }

  /** Only the tunnel rules are written into the firewall config before the zone is looked for. */
  lemma ZonesAfterRules(st: Store, st1: Store, st2: Store, st3: Store, w: Wan6)
    requires ConfigKept(st, st1, "firewall") && RulesWritten(st1, st2, w) && ConfigKept(st2, st3, "firewall")
    ensures ZonesKept(st, st3)
  {
    hide Get, ConfigsIn, ShapeOf, KindIn, OrderIn, SectionsByType, WellOrdered;
    ZonesOfKept(st, st1);
    ZonesOfKept(st2, st3);
  }

  lemma {:induction false} ZoneSame(st: Store, st': Store, zones: seq<string>)
    requires forall s | s in zones :: Get(st', "firewall", s, "name") == Get(st, "firewall", s, "name")
    ensures WanZone(st', zones) == WanZone(st, zones)
  {
    hide Get;
    if zones != [] { ZoneSame(st, st', zones[1..]); }
  }

  // ---------------------------------------------------------------- the update

  /** The part of the result that the first half of the update writes. */
  ghost predicate InterfacesAre(st: Store, x: Settings) {
    && Has(st, "network", "wan")
    && WanWritten(st, x.wan)
    && Wan6Written(st, x.wan6)
    && RulesAre(st, x.wan6)
  }

  lemma InterfacesWritten(st: Store, st1: Store, st2: Store, st3: Store, x: Settings)
    requires OnlySections(st, st1, "network", {"wan"}) && WanWritten(st1, x.wan) && Has(st1, "network", "wan")
    requires OnlySections(st1, st2, "network", {"wan6", "lan"}) && Wan6Written(st2, x.wan6)
    requires RulesWritten(st2, st3, x.wan6)
    ensures InterfacesAre(st3, x)
    ensures ConfigKept(st, st2, "firewall") && Has(st3, "resolver", "common") == Has(st, "resolver", "common")
    ensures Get(st3, "network", "wan", "device") == Get(st1, "network", "wan", "device")
  {
    hide Get, ConfigsIn, ShapeOf, KindIn, OrderIn, WanWritten, Wan6Written, ConfigKept, Fingerprint, SectionsByType, StoreBool, WellOrdered;
    Literals.Configs();
    Literals.Interfaces();
    KeptTwice(st, st1, st2, "firewall");
    KeptTwice(st, st1, st2, "resolver");
    KeptTwice(st, st2, st3, "resolver");
    OnlyOthers(st1, st2, "network", {"wan6", "lan"}, "wan");
    WanThroughKept(st1, st2, x.wan);
    NetworkThroughKept(st2, st3, x);
    CommonThroughKept(st, st3);
  }

  lemma WanThroughKept(st: Store, st': Store, w: Wan)
    requires WanWritten(st, w) && SameOptions(st, st', "network", "wan")
    ensures WanWritten(st', w)
  {
    hide Get, WanWritten;
    WanKept(st, st', w);
  }

  lemma NetworkThroughKept(st: Store, st': Store, x: Settings)
    requires ConfigKept(st, st', "network")
    ensures WanWritten(st, x.wan) ==> WanWritten(st', x.wan)
    ensures Wan6Written(st, x.wan6) ==> Wan6Written(st', x.wan6)
    ensures Has(st', "network", "wan") == Has(st, "network", "wan")
    ensures Get(st', "network", "wan", "device") == Get(st, "network", "wan", "device")
  {
    hide Get, ConfigsIn, ShapeOf, KindIn, WanWritten, Wan6Written;
    if WanWritten(st, x.wan) { WanKept(st, st', x.wan); }
    if Wan6Written(st, x.wan6) { Wan6Kept(st, st', x.wan6); }
  }

  lemma CommonThroughKept(st: Store, st': Store)
    requires ConfigKept(st, st', "resolver")
    ensures Has(st', "resolver", "common") == Has(st, "resolver", "common")
  {
    hide Get, ConfigsIn, ShapeOf, KindIn;
  }

  lemma SwitchKeeps(st: Store, st': Store, x: Settings)
    requires InterfacesAre(st, x) && ShapeOf(st') == ShapeOf(st)
    requires forall c, s, o :: !(c == "network" && s == "wan" && o == "ipv6") && !(c == "resolver") ==>
      Get(st', c, s, o) == Get(st, c, s, o)
    ensures InterfacesAre(st', x) && ConfigKept(st, st', "firewall")
    ensures Get(st', "network", "wan", "device") == Get(st, "network", "wan", "device")
  {
    hide Get, ConfigsIn, ShapeOf, KindIn, OrderIn, WanWritten, Wan6Written, Fingerprint, StoreBool;
    Literals.Configs();
    Literals.Interfaces();
    Literals.CommonOptions();
    Literals.ProtocolOptions();
    WanKept(st, st', x.wan);
    Wan6Kept(st, st', x.wan6);
  }

  /** The interfaces, the tunnel rules and the IPv6 switch. */
  method WriteInterfaces(backend: UciBackend, x: Settings)
    requires backend.Valid() && !backend.raised
    modifies backend
    ensures backend.InBlock() && backend.raised == !InterfacesPossible(old(backend.View()), x.wan6)
    ensures !backend.raised ==>
      && InterfacesAre(backend.View(), x) && Ipv6Is(backend.View(), !x.wan6.NoWan6?)
      && Get(backend.View(), "network", "wan", "device") == Get(old(backend.View()), "network", "wan", "device")
      && ZonesKept(old(backend.View()), backend.View())
  {
    hide ConfigsIn, ShapeOf, OrderIn, KindIn, Get, WanWritten, Wan6Written, RulesWritten, ConfigKept, OnlySections, ZonesKept, RulesAre, Ipv6Is, Fingerprint;
    Literals.Interfaces();
    ghost var st := backend.View();
    WriteWan(backend, x.wan);
    if backend.raised { return; }
    ghost var st1 := backend.View();
    OnlyOthers(st, st1, "network", {"wan"}, "lan");
    WriteWan6(backend, x.wan6);
    if backend.raised { return; }
    ghost var st2 := backend.View();
    WriteRules(backend, x.wan6);
    if backend.raised { return; }
    ghost var st3 := backend.View();
    InterfacesWritten(st, st1, st2, st3, x);
    WriteIpv6Switch(backend, !x.wan6.NoWan6?);
    if backend.raised { return; }
    SwitchKeeps(st3, backend.View(), x);
    ZonesAfterRules(st, st2, st3, backend.View(), x.wan6);
  }

  lemma DeviceIsWritten(st: Store, st': Store, x: Settings)
    requires InterfacesAre(st, x) && Ipv6Is(st, !x.wan6.NoWan6?)
    requires OnlySections(st, st', "network", {"wan", "dev_wan"}) && Has(st', "network", "dev_wan")
    requires forall c, s, o :: s != "dev_wan" && !(s == "wan" && o == "device") ==> Get(st', c, s, o) == Get(st, c, s, o)
    requires Get(st', "network", "dev_wan", "macaddr") == if x.customMac.Some? then Stored(x.customMac.value) else None
    requires DeviceWritten(Get(st, "network", "wan", "device"), st', x.vlan)
    ensures Written(st', x, Get(st, "network", "wan", "device")) && ConfigKept(st, st', "firewall")
  {
    hide Get, ConfigsIn, ShapeOf, KindIn, OrderIn, WanWritten, Wan6Written, Fingerprint, StoreBool, Stored, DeviceWritten, WellOrdered, RulesAre, Ipv6Is, ConfigKept;
    Literals.Configs();
    Literals.Interfaces();
    KeptBesideDevice(st, st', x.wan6);
    WanKept(st, st', x.wan);
    Wan6Kept(st, st', x.wan6);
  }

  lemma KeptBesideDevice(st: Store, st': Store, w: Wan6)
    requires RulesAre(st, w) && Ipv6Is(st, !w.NoWan6?)
    requires forall c, s, o :: s != "dev_wan" && !(s == "wan" && o == "device") ==> Get(st', c, s, o) == Get(st, c, s, o)
    ensures RulesAre(st', w) && Ipv6Is(st', !w.NoWan6?)
  {
    hide Get, Fingerprint, StoreBool, Stored;
    Literals.Interfaces();
    Literals.WanRules();
    Literals.CommonOptions();
    Literals.ProtocolOptions();
  }

  /** The device, the limit and the firewall zone. */
  method FinishUpdate(backend: UciBackend, x: Settings, qos: Option<Option<Qos>>)
    requires backend.Valid() && !backend.raised
    requires InterfacesAre(backend.View(), x) && Ipv6Is(backend.View(), !x.wan6.NoWan6?)
    modifies backend
    ensures backend.InBlock()
    ensures var (st, was) := (old(backend.View()), Get(old(backend.View()), "network", "wan", "device"));
      && backend.raised == !(DeviceFits(was, x.vlan.Some?) && WanZone(st, SectionsByType(st, "firewall", "zone")).Some?)
      && (!backend.raised ==> Written(backend.View(), x, was) && (qos.Some? ==> QosIs(backend.View(), qos.value)))
  {
    hide ConfigsIn, ShapeOf, OrderIn, KindIn, Get, Stored, OnlySections, Written, SectionsByType, QosIs, ConfigKept, Ipv6Is, WanZone, DeviceWritten, DeviceFits;
    ghost var st, was := backend.View(), Get(backend.View(), "network", "wan", "device");
    WriteDevice(backend, x.customMac, x.vlan);
    if backend.raised { return; }
    ghost var st1 := backend.View();
    DeviceIsWritten(st, st1, x);
    OnlyNothing(st1, "sqm", {"wan_limit_turris"});
    if qos.Some? { WriteQos(backend, qos.value); }
    ghost var st2 := backend.View();
    QueueKeeps(st, st1, st2, x, was);
    SetWanZone(backend);
    if backend.raised { return; }
    ZoneKeeps(st2, backend.View(), WanZone(st2, SectionsByType(st2, "firewall", "zone")).value, x, was);
    if qos.Some? { QosKept(st2, backend.View(), qos.value); }
  }

  lemma QueueKeeps(st: Store, st1: Store, st2: Store, x: Settings, was: Option<Value>)
    requires Written(st1, x, was) && OnlySections(st1, st2, "sqm", {"wan_limit_turris"}) && ConfigKept(st, st1, "firewall")
    ensures Written(st2, x, was)
    ensures SectionsByType(st2, "firewall", "zone") == SectionsByType(st, "firewall", "zone")
    ensures WanZone(st2, SectionsByType(st, "firewall", "zone")) == WanZone(st, SectionsByType(st, "firewall", "zone"))
  {
    hide ConfigsIn, ShapeOf, OrderIn, KindIn, Get, Written, SectionsByType, WanZone, Fingerprint, WellOrdered;
    Literals.Configs();
    assert ConfigKept(st1, st2, "firewall") && ConfigKept(st1, st2, "network") && ConfigKept(st1, st2, "resolver");
    WrittenKept(st1, st2, x, was);
    ZonesOfKept(st, st1);
    ZonesOfKept(st1, st2);
    ZoneSame(st, st2, SectionsByType(st, "firewall", "zone"));
  }

  lemma ZoneKeeps(st: Store, st': Store, zone: string, x: Settings, was: Option<Value>)
    requires Written(st, x, was) && OptionIs(st, st', "firewall", zone, "network", Some(Items(["wan", "wan6"])))
    ensures Written(st', x, was) && ConfigKept(st, st', "sqm")
  {
    hide ConfigsIn, ShapeOf, OrderIn, KindIn, Get, Written, Fingerprint;
    Literals.Configs();
    Literals.CommonOptions();
    WrittenKept(st, st', x, was);
  }

  /** The migration changes nothing that decides whether the update can end normally. */
  lemma MigrationKeeps(st: Store, st': Store, w: Wan6)
    requires Migrated(st, st') && OnlySections(st, st', "network", {"wan", "dev_wan"}) && Configs(st') == Configs(st)
    ensures InterfacesPossible(st', w) == InterfacesPossible(st, w)
    ensures Get(st', "network", "wan", "device") == DeviceFound(st)
    ensures Zones(st') == Zones(st) && WanZone(st', Zones(st)) == WanZone(st, Zones(st))
  {
    hide ConfigsIn, ShapeOf, OrderIn, KindIn, Get, SectionsByType, WanZone, Fingerprint, WellOrdered, First;
    Literals.Configs();
    Literals.Interfaces();
    assert ConfigKept(st, st', "firewall") && ConfigKept(st, st', "resolver");
    OnlyOthers(st, st', "network", {"wan", "dev_wan"}, "lan");
    ZonesOfKept(st, st');
    ZoneSame(st, st', Zones(st));
  }

  /** `update_settings`: it ends normally exactly when the configuration has what the update needs; then
      the reader gives back what was written, whatever the configuration held before.  After an
      exception nothing on disk has changed. */
  method UpdateSettings(backend: UciBackend, x: Settings, qos: Option<Option<Qos>>)
    requires Accepted(x)
    modifies backend
    ensures backend.raised == !Possible(old(backend.committed), x)
    ensures backend.raised ==> backend.committed == old(backend.committed)
    ensures !backend.raised ==>
      && ReadWan(backend.committed) == Some(WanAsRead(x.wan))
      && ReadWan6(backend.committed) == Some(Wan6AsRead(x.wan6))
      && ReadMac(backend.committed) == x.customMac
      && (x.vlan.Some? ==> ReadVlan(backend.committed) == Some(x.vlan.value))
      && RulesAre(backend.committed, x.wan6)
      && Ipv6Is(backend.committed, !x.wan6.NoWan6?)
      && (qos.Some? ==> QosIs(backend.committed, qos.value))
  {
    hide ConfigsIn, ShapeOf, OrderIn, KindIn, Get, WanWritten, Wan6Written, DeviceWritten, StoreBool, Stored, OnlySections;
    hide ReadWan, ReadWan6, ReadMac, ReadVlan, Accepted, WanZone, SectionsByType, QosIs, Ipv6Is, Migrated, RulesAre, InterfacesAre, InterfacesPossible, DeviceFits, DeviceFound, Without;
    backend.Enter();
    ghost var st := backend.View();
    MigrateOldConfig(backend);
    ghost var st1 := backend.View();
    MigrationKeeps(st, st1, x.wan6);
    WriteInterfaces(backend, x);
    if !backend.raised {
      ghost var st2 := backend.View();
      ZoneSame(st1, st2, Zones(st1));
      FinishUpdate(backend, x, qos);
      if !backend.raised { WrittenReadsBack(backend.View(), x, DeviceFound(st)); }
    }
    backend.Exit();
  }
}
