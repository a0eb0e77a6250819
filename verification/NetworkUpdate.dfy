/** Which port belongs to which network: the writer's side, from any mix of legacy options, anonymous
    bridges, named bridges and bare devices, proved against the reader. */
module NetworkUpdate {
  import opened Wrappers
  import opened Texts
  import opened UciStore
  import opened UciOptions
  import opened NaturalOrder
  import opened Networks
  import Literals
  import Guest = GuestNetwork

  // ---------------------------------------------------------------- requests

  datatype Wanted = Wanted(wan: seq<string>, lan: seq<string>, guest: seq<string>, none: seq<string>)

  datatype Firewall = Firewall(ssh: bool, http: bool, https: bool)

  /** A detected wired interface; a modem is shown but not configurable. */
  datatype Iface = Iface(id: string, modem: bool)

  function Ids(ifaces: seq<Iface>): seq<string> {
    seq(|ifaces|, i requires 0 <= i < |ifaces| => ifaces[i].id)
  }

  function Configurable(ifaces: seq<Iface>): set<string> {
    set e | e in ifaces && !e.modem :: e.id
  }

  function Listed4(w: Wanted): set<string> {
    set p | p in w.wan + w.lan + w.guest + w.none
  }

  // ---------------------------------------------------------------- names

  function Bridge(net: string): string {
    "br_" + net
  }

  function BridgeDevice(net: string): string {
    "br-" + net
  }

  // ---------------------------------------------------------------- the steps

  /** The network runs over the bridge of its own name. */
  predicate OverBridge(data: Store, net: string) {
    GetOr(data, "network", net, "device", "") == Text(BridgeDevice(net))
  }

  /** The anonymous bridge sections that the update of this network removes. */
  ghost function Dropped(data: Store, net: string): set<string> {
    if OverBridge(data, net)
    then set s | s in Devices(data) && AnonymousBridge(data, s, net)
    else {}
  }

  /** The MAC address of the network's bridge device: the last one that has its name counts. */
  function LastMac(data: Store, devices: seq<string>, net: string, mac: Option<Value>): Option<Value> {
    if devices == [] then mac
    else LastMac(data, devices[1..], net,
                 if Get(data, "network", devices[0], "name") == Some(Text(BridgeDevice(net)))
                 then Get(data, "network", devices[0], "macaddr") else mac)
  }

  function BridgeMac(data: Store, net: string): Option<Value> {
    if OverBridge(data, net) then LastMac(data, Devices(data), net, None) else None
  }

  /** A legacy network loses its `ifname`, and its type when that is the bridge. */
  method DropLegacy(backend: UciBackend, data: Store, net: string)
    requires backend.Valid() && !backend.raised
    modifies backend
    ensures backend.InBlock() && !backend.raised
    ensures OnlySections(old(backend.View()), backend.View(), "network", {net})
    ensures ShapeOf(backend.View()) == ShapeOf(old(backend.View()))
    ensures forall o :: o != "type" && o != "ifname" ==>
      Get(backend.View(), "network", net, o) == Get(old(backend.View()), "network", net, o)
    ensures Get(backend.View(), "network", net, "ifname") ==
      if GetOr(data, "network", net, "ifname", "") != Text("") then None
      else Get(old(backend.View()), "network", net, "ifname")
  {
    hide ConfigsIn, ShapeOf, KindIn, Get, OrderIn, OnlySections, Fingerprint;
    Literals.CommonOptions();
    Literals.InterfaceOptions();
    ghost var st := backend.View();
    OnlyNothing(st, "network", {net});
    if GetOr(data, "network", net, "ifname", "") != Text("") {
      backend.DelOption("network", net, "ifname");
      if GetOr(data, "network", net, "type", "") == Text("bridge") {
        backend.DelOption("network", net, "type");
      }
      OnlyOptions(st, backend.View(), "network", net);
    }
  }

  /** Walks over the device sections for the network's bridge: its MAC is remembered, anonymous
      sections go. */
  method DropAnonymous(backend: UciBackend, data: Store, net: string) returns (mac: Option<Value>)
    requires backend.Valid() && !backend.raised
    modifies backend
    ensures backend.InBlock()
    ensures Distinct(Devices(data)) && AllThere(old(backend.View()), Dropped(data, net)) ==> !backend.raised
    ensures !backend.raised ==>
      && mac == BridgeMac(data, net)
      && OnlySections(old(backend.View()), backend.View(), "network", Dropped(data, net))
      && AllGone(backend.View(), Dropped(data, net))
  {
    hide ConfigsIn, ShapeOf, KindIn, Get, OrderIn, OnlySections, SectionsByType, AnonymousBridge, AllGone, AllThere;
    mac := None;
    ghost var st := backend.View();
    OnlyNothing(st, "network", {});
    NoneGone(st);
    if !OverBridge(data, net) { return; }
    var devices := Devices(data);
    var i := 0;
    assert devices[0..] == devices && DroppedIn(data, devices[..0], net) == {};
    while i < |devices|
      invariant 0 <= i <= |devices|
      invariant backend.InBlock() && !backend.raised
      invariant LastMac(data, devices[i..], net, mac) == LastMac(data, devices, net, None)
      invariant OnlySections(st, backend.View(), "network", DroppedIn(data, devices[..i], net))
      invariant AllGone(backend.View(), DroppedIn(data, devices[..i], net))
      invariant Distinct(devices) && AllThere(st, Dropped(data, net)) ==> AllThere(backend.View(), DroppedIn(data, devices[i..], net))
    {
      hide Distinct;
      ghost var before := backend.View();
      assert devices[i..][1..] == devices[i + 1..];
      assert devices[i] in devices;
      mac := DropOne(backend, data, devices[i], net, mac);
      if Distinct(devices) && AllThere(st, Dropped(data, net)) { OneLessThere(before, data, devices, i, net); }
      if backend.raised { return; }
      OneMoreDropped(data, devices, i, net);
      if AnonymousBridge(data, devices[i], net) {
        OnlyGone(before, backend.View(), "network", devices[i]);
        OnlyBoth(st, before, backend.View(), "network", DroppedIn(data, devices[..i], net), {devices[i]});
        OneMoreGone(before, backend.View(), DroppedIn(data, devices[..i], net), devices[i]);
        if Distinct(devices) && AllThere(st, Dropped(data, net)) {
          OthersThere(before, backend.View(), DroppedIn(data, devices[i + 1..], net), devices[i]);
        }
      }
      i := i + 1;
    }
    assert devices[..i] == devices;
    assert DroppedIn(data, devices, net) == Dropped(data, net);
  }

  /** The device sections, in file order. */
  function Devices(st: Store): seq<string> {
    SectionsByType(st, "network", "device")
  }

  ghost predicate AllThere(st: Store, names: set<string>) {
    forall s | s in names :: Has(st, "network", s)
  }

  /** The device at hand is still there, and none that follows is the same. */
  lemma OneLessThere(st: Store, data: Store, devices: seq<string>, i: nat, net: string)
    requires i < |devices| && Distinct(devices) && AllThere(st, DroppedIn(data, devices[i..], net))
    ensures AllThere(st, DroppedIn(data, devices[i + 1..], net))
    ensures devices[i] !in DroppedIn(data, devices[i + 1..], net)
    ensures AnonymousBridge(data, devices[i], net) ==> Has(st, "network", devices[i])
  {
    hide AnonymousBridge, ConfigsIn, ShapeOf, KindIn;
    assert devices[i] in devices[i..];
    forall j | i < j < |devices| ensures devices[j] in devices[i..] { assert devices[j] == devices[i..][j - i]; }
  }

  lemma OthersThere(st: Store, st': Store, names: set<string>, s: string)
    requires AllThere(st, names) && s !in names && SectionGone(st, st', "network", s)
    ensures AllThere(st', names)
  {
    hide ConfigsIn, ShapeOf, KindIn, Get, OrderIn;
  }

  ghost predicate AllGone(st: Store, names: set<string>) {
    forall s | s in names :: Kind(st, "network", s) == None
  }

  lemma NoneGone(st: Store)
    ensures AllGone(st, {})
  {
  }

  lemma OneMoreGone(st: Store, st': Store, names: set<string>, s: string)
    requires AllGone(st, names) && SectionGone(st, st', "network", s)
    ensures AllGone(st', names + {s})
  {
    hide ConfigsIn, ShapeOf, KindIn, Get, OrderIn;
  }

  /** One device section of the walk. */
  method DropOne(backend: UciBackend, data: Store, dev: string, net: string, mac: Option<Value>) returns (mac': Option<Value>)
    requires backend.Valid() && !backend.raised && Kind(data, "network", dev) == Some("device")
    modifies backend
    ensures backend.InBlock()
    ensures backend.raised == (AnonymousBridge(data, dev, net) && !Has(old(backend.View()), "network", dev))
    ensures mac' == if Get(data, "network", dev, "name") == Some(Text(BridgeDevice(net)))
                    then Get(data, "network", dev, "macaddr") else mac
    ensures !backend.raised ==>
      if AnonymousBridge(data, dev, net) then SectionGone(old(backend.View()), backend.View(), "network", dev)
      else backend.View() == old(backend.View())
  {
    hide ConfigsIn, ShapeOf, KindIn, Get, OrderIn;
    mac' := mac;
    if Get(data, "network", dev, "name") == Some(Text(BridgeDevice(net))) {
      mac' := Get(data, "network", dev, "macaddr");
      if "cfg" <= dev {
        backend.DelSection("network", dev, false);
      }
    }
  }

  ghost function DroppedIn(data: Store, devices: seq<string>, net: string): set<string> {
    set s | s in devices && AnonymousBridge(data, s, net)
  }

  lemma OneMoreDropped(data: Store, devices: seq<string>, i: nat, net: string)
    requires i < |devices|
    ensures DroppedIn(data, devices[..i + 1], net) ==
      if AnonymousBridge(data, devices[i], net) then DroppedIn(data, devices[..i], net) + {devices[i]}
      else DroppedIn(data, devices[..i], net)
  {
    hide AnonymousBridge;
    assert devices[..i + 1] == devices[..i] + [devices[i]];
  }

  /** `_set_bridge_ports` */
  method SetBridgePorts(backend: UciBackend, net: string, ifs: seq<string>)
    requires backend.Valid() && !backend.raised
    modifies backend
    ensures backend.InBlock() && backend.raised == (ifs != [] && !Has(old(backend.View()), "network", Bridge(net)))
    ensures !backend.raised ==>
      OptionIs(old(backend.View()), backend.View(), "network", Bridge(net), "ports", Listed(ifs))
  {
    backend.ReplaceList("network", Bridge(net), "ports", ifs);
  }

  /** A bridge with these ports, and the network on it. */
  ghost predicate Bridged(st: Store, net: string, ifs: seq<string>) {
    && Get(st, "network", Bridge(net), "ports") == Listed(ifs)
    && Get(st, "network", net, "device") == Some(Text(BridgeDevice(net)))
  }

  /** `_create_bridge`: a MAC of the bridge it replaces is kept. */
  method CreateBridge(backend: UciBackend, net: string, ifs: seq<string>, mac: Option<Value>)
    requires backend.Valid() && !backend.raised && net != Bridge(net)
    modifies backend
    ensures backend.InBlock() && backend.raised == !Has(old(backend.View()), "network", net)
    ensures !backend.raised ==>
      && OnlySections(old(backend.View()), backend.View(), "network", {net, Bridge(net)})
      && Bridged(backend.View(), net, ifs)
      && Get(backend.View(), "network", net, "ifname") == Get(old(backend.View()), "network", net, "ifname")
      && (Truthy(mac) ==> Get(backend.View(), "network", Bridge(net), "macaddr") == Stored(PyText(mac.value)))
  {
    hide ConfigsIn, ShapeOf, KindIn, Get, OrderIn, OnlySections, Fingerprint, Listed, Stored, PyText, Bridge;
    Literals.CommonOptions();
    Literals.InterfaceOptions();
    DeviceNamed(net);
    ghost var st, name := backend.View(), {Bridge(net)};
    if Has(st, "network", net) { HasNeedsConfig(st, "network", net); }
    AddBridge(backend, net, ifs);
    if backend.raised { return; }
    ghost var st2 := backend.View();
    OnlyOthers(st, st2, "network", name, net);
    JoinBridge(backend, net);
    if backend.raised { return; }
    ghost var st3 := backend.View();
    OnlyOptions(st2, st3, "network", net);
    OnlyBoth(st, st2, st3, "network", name, {net});
    assert name + {net} == {net, Bridge(net)};
    if Truthy(mac) {
      backend.SetOption("network", Bridge(net), "macaddr", PyText(mac.value));
      OnlyOptions(st3, backend.View(), "network", Bridge(net));
      OnlyBoth(st, st3, backend.View(), "network", {net, Bridge(net)}, name);
      assert {net, Bridge(net)} + name == {net, Bridge(net)};
    }
  }

  /** The bridge device with its ports. */
  method AddBridge(backend: UciBackend, net: string, ifs: seq<string>)
    requires backend.Valid() && !backend.raised
    modifies backend
    ensures backend.InBlock() && backend.raised == !HasConfig(old(backend.View()), "network")
    ensures !backend.raised ==>
      && OnlySections(old(backend.View()), backend.View(), "network", {Bridge(net)})
      && Has(backend.View(), "network", Bridge(net))
      && Get(backend.View(), "network", Bridge(net), "ports") == Listed(ifs)
  {
    hide ConfigsIn, ShapeOf, KindIn, Get, OrderIn, OnlySections, Listed, Stored, Bridge;
    ghost var st, name := backend.View(), {Bridge(net)};
    backend.AddSection("network", "device", Bridge(net));
    if backend.raised { return; }
    ghost var st1 := backend.View();
    OnlyAdded(st, st1, "network", Bridge(net), "device");
    backend.SetOption("network", Bridge(net), "name", BridgeDevice(net));
    backend.SetOption("network", Bridge(net), "type", "bridge");
    backend.ReplaceList("network", Bridge(net), "ports", ifs);
    OnlyOptions(st1, backend.View(), "network", Bridge(net));
    OnlyBoth(st, st1, backend.View(), "network", name, name);
    assert name + name == name;
  }

  lemma DeviceNamed(net: string)
    ensures Stored(BridgeDevice(net)) == Some(Text(BridgeDevice(net)))
  {
  }

  /** The network on its bridge. */
  method JoinBridge(backend: UciBackend, net: string)
    requires backend.Valid() && !backend.raised
    modifies backend
    ensures backend.InBlock() && backend.raised == !Has(old(backend.View()), "network", net)
    ensures !backend.raised ==>
      && ShapeOf(backend.View()) == ShapeOf(old(backend.View()))
      && (forall c, s, o :: !(c == "network" && s == net) ==> Get(backend.View(), c, s, o) == Get(old(backend.View()), c, s, o))
      && Get(backend.View(), "network", net, "device") == Some(Text(BridgeDevice(net)))
      && Get(backend.View(), "network", net, "ifname") == Get(old(backend.View()), "network", net, "ifname")
  {
    hide ConfigsIn, ShapeOf, KindIn, Get, Fingerprint;
    Literals.CommonOptions();
    Literals.InterfaceOptions();
    DeviceNamed(net);
    backend.SetOption("network", net, "device", BridgeDevice(net));
    backend.DelOption("network", net, "bridge_empty");
  }

  /** The network directly on its port, or on an empty bridge. */
  method SetDevice(backend: UciBackend, net: string, devices: seq<string>, mac: Option<Value>)
    requires backend.Valid() && !backend.raised
    modifies backend
    ensures backend.InBlock() && backend.raised == !Has(old(backend.View()), "network", net)
    ensures !backend.raised ==>
      && ShapeOf(backend.View()) == ShapeOf(old(backend.View()))
      && (forall c, s, o :: !(c == "network" && s == net) ==> Get(backend.View(), c, s, o) == Get(old(backend.View()), c, s, o))
      && Get(backend.View(), "network", net, "device") == (if devices != [] then Stored(devices[0]) else None)
      && Get(backend.View(), "network", net, "ifname") == Get(old(backend.View()), "network", net, "ifname")
      && Get(backend.View(), "network", net, "macaddr") ==
           (if devices != [] && Truthy(mac) then Stored(PyText(mac.value)) else Get(old(backend.View()), "network", net, "macaddr"))
  {
    hide ConfigsIn, ShapeOf, KindIn, Get, Fingerprint, Stored, PyText, StoreBool;
    Literals.CommonOptions();
    Literals.InterfaceOptions();
    if devices != [] {
      backend.SetOption("network", net, "device", devices[0]);
      if Truthy(mac) {
        backend.SetOption("network", net, "macaddr", PyText(mac.value));
      }
    } else {
      backend.DelOption("network", net, "device");
      backend.SetOption("network", net, "bridge_empty", StoreBool(true));
    }
  }

  /** `_del_bridge`: no bridge, and the network directly on its port, with the bridge's MAC. */
  method DelBridge(backend: UciBackend, data: Store, net: string, devices: seq<string>)
    requires backend.Valid() && !backend.raised && net != Bridge(net)
    requires Has(data, "network", Bridge(net)) ==> Has(backend.View(), "network", Bridge(net))
    modifies backend
    ensures backend.InBlock() && backend.raised == !Has(old(backend.View()), "network", net)
    ensures !backend.raised ==>
      && OnlySections(old(backend.View()), backend.View(), "network", {net, Bridge(net)})
      && Get(backend.View(), "network", net, "device") == (if devices != [] then Stored(devices[0]) else None)
      && Get(backend.View(), "network", net, "ifname") == Get(old(backend.View()), "network", net, "ifname")
      && Get(backend.View(), "network", net, "macaddr") ==
           (if devices != [] && Truthy(Get(data, "network", Bridge(net), "macaddr"))
            then Stored(PyText(Get(data, "network", Bridge(net), "macaddr").value))
            else Get(old(backend.View()), "network", net, "macaddr"))
  {
    hide ConfigsIn, ShapeOf, KindIn, Get, OrderIn, OnlySections, Fingerprint, Stored, PyText, Bridge, StoreBool;
    Literals.CommonOptions();
    Literals.InterfaceOptions();
    ghost var st, name := backend.View(), {Bridge(net)};
    var mac := Get(data, "network", Bridge(net), "macaddr");
    if Has(data, "network", Bridge(net)) {
      backend.DelSection("network", Bridge(net), false);
      OnlyGone(st, backend.View(), "network", Bridge(net));
    } else {
      OnlyNothing(st, "network", name);
    }
    ghost var st1 := backend.View();
    OnlyOthers(st, st1, "network", name, net);
    SetDevice(backend, net, devices, mac);
    if backend.raised { return; }
    OnlyOptions(st1, backend.View(), "network", net);
    OnlyBoth(st, st1, backend.View(), "network", name, {net});
    assert name + {net} == {net, Bridge(net)};
  }

  /** What one network looks like once it is written. */
  ghost predicate NetWritten(data: Store, st: Store, net: string, ifs: seq<string>) {
    && Get(st, "network", net, "ifname") ==
         (if Get(data, "network", net, "ifname") == Some(Text("")) then Some(Text("")) else None)
    && AllGone(st, Dropped(data, net))
    && Placed(data, st, net, ifs)
  }

  /** Several ports, and all of LAN's, are on the bridge; a single WAN port is the device itself. */
  ghost predicate Placed(data: Store, st: Store, net: string, ifs: seq<string>) {
    if |ifs| > 1 || net == "lan" then
      && Get(st, "network", Bridge(net), "ports") == Listed(ifs)
      && Get(st, "network", net, "device") ==
           (if Has(data, "network", Bridge(net)) then Get(data, "network", net, "device")
            else Some(Text(BridgeDevice(net))))
    else
      Get(st, "network", net, "device") == if ifs != [] then Stored(ifs[0]) else None
  }

  /** A bridge that is replaced hands its MAC on: an anonymous one to the named bridge, a named one to the
      single port.  An anonymous bridge that gives way to a single port does not: the port keeps the MAC
      that the interface had. */
  ghost predicate MacKept(data: Store, st: Store, net: string, ifs: seq<string>) {
    if |ifs| > 1 || net == "lan" then
      !Has(data, "network", Bridge(net)) && Truthy(BridgeMac(data, net)) ==>
        Get(st, "network", Bridge(net), "macaddr") == Stored(PyText(BridgeMac(data, net).value))
    else
      Get(st, "network", net, "macaddr") ==
        if ifs != [] && Truthy(Get(data, "network", Bridge(net), "macaddr"))
        then Stored(PyText(Get(data, "network", Bridge(net), "macaddr").value))
        else Get(data, "network", net, "macaddr")
  }

  /** The sections that the update of one network may change. */
  ghost function Touched(data: Store, net: string): set<string> {
    {net, Bridge(net)} + Dropped(data, net)
  }

  lemma NamesApart(data: Store, net: string)
    requires net == "wan" || net == "lan"
    ensures net != Bridge(net) && net !in Dropped(data, net) && Bridge(net) !in Dropped(data, net)
  {
    hide Get, ConfigsIn, ShapeOf, KindIn, SectionsByType;
    assert net[0] != 'c' && Bridge(net)[0] != 'c';
  }

  /** The sections that the turn of one network needs: the interface itself, or for several ports, and for
      LAN, its named bridge. */
  predicate NetReady(st: Store, net: string, ifs: seq<string>) {
    Has(st, "network", net) || ((|ifs| > 1 || net == "lan") && Has(st, "network", Bridge(net)))
  }

  /** What the turn is about is in the config as it was when the loop started. */
  ghost predicate Current(data: Store, st: Store, net: string) {
    && Has(st, "network", net) == Has(data, "network", net)
    && Has(st, "network", Bridge(net)) == Has(data, "network", Bridge(net))
    && SameOptions(data, st, "network", net)
  }

  /** One turn of the loop in `update_settings`. */
  method UpdateNet(backend: UciBackend, data: Store, net: string, ifs: seq<string>)
    requires backend.Valid() && !backend.raised && (net == "wan" || net == "lan")
    requires Current(data, backend.View(), net)
    modifies backend
    ensures backend.InBlock()
    ensures Distinct(Devices(data)) && AllThere(old(backend.View()), Dropped(data, net)) ==>
      backend.raised == !NetReady(data, net, ifs)
    ensures !backend.raised ==>
      && OnlySections(old(backend.View()), backend.View(), "network", Touched(data, net))
      && NetWritten(data, backend.View(), net, ifs)
      && MacKept(data, backend.View(), net, ifs)
  {
    hide ConfigsIn, ShapeOf, KindIn, Get, OrderIn, OnlySections, Listed, Stored, Bridge, Dropped, BridgeMac, PyText, Placed, MacKept, AllThere, Distinct, Devices, AllGone, NetReady;
    NamesApart(data, net);
    ghost var st := backend.View();
    var mac := DropOldForms(backend, data, net);
    if backend.raised { return; }
    ghost var st2 := backend.View();
    PlacePorts(backend, data, net, ifs, mac);
    if backend.raised { return; }
    OnlyBoth(st, st2, backend.View(), "network", {net} + Dropped(data, net), {net, Bridge(net)});
    assert {net} + Dropped(data, net) + {net, Bridge(net)} == Touched(data, net);
    StillGone(data, st2, backend.View(), net);
  }

  /** The legacy options and the anonymous bridges go; what else the interface has stays. */
  method DropOldForms(backend: UciBackend, data: Store, net: string) returns (mac: Option<Value>)
    requires backend.Valid() && !backend.raised && (net == "wan" || net == "lan")
    requires Current(data, backend.View(), net)
    modifies backend
    ensures backend.InBlock()
    ensures Distinct(Devices(data)) && AllThere(old(backend.View()), Dropped(data, net)) ==> !backend.raised
    ensures !backend.raised ==>
      && mac == BridgeMac(data, net)
      && OnlySections(old(backend.View()), backend.View(), "network", {net} + Dropped(data, net))
      && AllGone(backend.View(), Dropped(data, net))
      && Get(backend.View(), "network", net, "ifname") ==
           (if Get(data, "network", net, "ifname") == Some(Text("")) then Some(Text("")) else None)
      && Get(backend.View(), "network", net, "device") == Get(data, "network", net, "device")
      && Get(backend.View(), "network", net, "macaddr") == Get(data, "network", net, "macaddr")
      && Has(backend.View(), "network", net) == Has(data, "network", net)
      && Has(backend.View(), "network", Bridge(net)) == Has(data, "network", Bridge(net))
  {
    hide ConfigsIn, ShapeOf, KindIn, Get, OrderIn, OnlySections, Bridge, Dropped, BridgeMac, AllThere, Distinct, Devices, AllGone, Fingerprint;
    Literals.CommonOptions();
    Literals.InterfaceOptions();
    NamesApart(data, net);
    ghost var st := backend.View();
    DropLegacy(backend, data, net);
    ghost var st1 := backend.View();
    if AllThere(st, Dropped(data, net)) { StillThere(st, st1, Dropped(data, net)); }
    mac := DropAnonymous(backend, data, net);
    if backend.raised { return; }
    ghost var st2 := backend.View();
    OnlyOthers(st1, st2, "network", Dropped(data, net), net);
    OnlyOthers(st1, st2, "network", Dropped(data, net), Bridge(net));
    OnlyBoth(st, st1, st2, "network", {net}, Dropped(data, net));
  }

  lemma StillThere(st: Store, st': Store, names: set<string>)
    requires ShapeOf(st') == ShapeOf(st) && AllThere(st, names)
    ensures AllThere(st', names)
  {
    hide ShapeOf, KindIn;
  }

  /** The new configuration of one network. */
  method PlacePorts(backend: UciBackend, data: Store, net: string, ifs: seq<string>, mac: Option<Value>)
    requires backend.Valid() && !backend.raised && net != Bridge(net) && mac == BridgeMac(data, net)
    requires Get(backend.View(), "network", net, "device") == Get(data, "network", net, "device")
    requires Get(backend.View(), "network", net, "macaddr") == Get(data, "network", net, "macaddr")
    requires Has(backend.View(), "network", net) == Has(data, "network", net)
    requires Has(backend.View(), "network", Bridge(net)) == Has(data, "network", Bridge(net))
    modifies backend
    ensures backend.InBlock() && backend.raised == !NetReady(data, net, ifs)
    ensures !backend.raised ==>
      && OnlySections(old(backend.View()), backend.View(), "network", {net, Bridge(net)})
      && Get(backend.View(), "network", net, "ifname") == Get(old(backend.View()), "network", net, "ifname")
      && Placed(data, backend.View(), net, ifs)
      && MacKept(data, backend.View(), net, ifs)
  {
    hide ConfigsIn, ShapeOf, KindIn, Get, OrderIn, OnlySections, Listed, Stored, Bridge, BridgeMac, PyText;
    ghost var st := backend.View();
    if |ifs| > 1 || net == "lan" {
      if Has(data, "network", Bridge(net)) {
        SetBridgePorts(backend, net, ifs);
        if backend.raised { return; }
        OnlyOptions(st, backend.View(), "network", Bridge(net));
        OnlyMore(st, backend.View(), "network", {Bridge(net)}, {net, Bridge(net)});
      } else {
        CreateBridge(backend, net, ifs, mac);
      }
    } else {
      DelBridge(backend, data, net, ifs);
    }
  }

  lemma StillGone(data: Store, st: Store, st': Store, net: string)
    requires net == "wan" || net == "lan"
    requires OnlySections(st, st', "network", {net, Bridge(net)})
    requires AllGone(st, Dropped(data, net))
    ensures AllGone(st', Dropped(data, net))
  {
    NamesApart(data, net);
    hide Get, ConfigsIn, ShapeOf, KindIn, WellOrdered, Dropped, Bridge;
  }

  // ---------------------------------------------------------------- firewall

  /** The rule of one service is on or off. */
  ghost predicate RuleIs(st: Store, rule: string, enabled: bool) {
    ReadBool(st, "firewall", rule, "enabled", false) == Some(enabled)
  }

  /** `set_firewall_rule` */
  method SetFirewallRule(backend: UciBackend, rule: string, enabled: bool, port: nat)
    requires backend.Valid() && !backend.raised
    modifies backend
    ensures backend.InBlock() && backend.raised == !HasConfig(old(backend.View()), "firewall")
    ensures !backend.raised ==>
      && OnlySections(old(backend.View()), backend.View(), "firewall", {rule})
      && RuleIs(backend.View(), rule, enabled)
  {
    hide ConfigsIn, ShapeOf, KindIn, Get, OrderIn, OnlySections, Fingerprint, StoreBool, Decimal, PairsIn, ParseBool, ReadBool;
    Literals.CommonOptions();
    Literals.FirewallOptions();
    ghost var st := backend.View();
    var pairs := [("name", rule), ("enabled", StoreBool(enabled)), ("target", "ACCEPT"), ("dest_port", Decimal(port)),
                  ("proto", "tcp"), ("src", "wan")];
    WriteSection(backend, "firewall", "rule", rule, pairs);
    if backend.raised { return; }
    PairHolds(st, backend.View(), "firewall", rule, pairs, 1);
    BoolReadsBack(backend.View(), "firewall", rule, "enabled", enabled, false);
  }

  lemma RuleKept(st: Store, st': Store, rule: string, enabled: bool, other: string)
    requires RuleIs(st, rule, enabled) && OnlySections(st, st', "firewall", {other}) && rule != other
    ensures RuleIs(st', rule, enabled)
  {
    hide Get, ParseBool;
  }

  ghost predicate RulesAre(st: Store, f: Firewall) {
    && RuleIs(st, "wan_ssh_turris_rule", f.ssh)
    && RuleIs(st, "wan_http_turris_rule", f.http)
    && RuleIs(st, "wan_https_turris_rule", f.https)
  }

  method SetFirewall(backend: UciBackend, f: Firewall)
    requires backend.Valid() && !backend.raised
    modifies backend
    ensures backend.InBlock() && backend.raised == !HasConfig(old(backend.View()), "firewall")
    ensures !backend.raised ==> ConfigKept(old(backend.View()), backend.View(), "network") && RulesAre(backend.View(), f)
  {
    hide ConfigsIn, ShapeOf, KindIn, Get, OrderIn, OnlySections, Fingerprint, RuleIs, ConfigKept;
    Literals.WanRules();
    ghost var st := backend.View();
    SetFirewallRule(backend, "wan_ssh_turris_rule", f.ssh, 22);
    if backend.raised { return; }
    ghost var st1 := backend.View();
    SetFirewallRule(backend, "wan_http_turris_rule", f.http, 80);
    if backend.raised { return; }
    ghost var st2 := backend.View();
    RuleKept(st1, st2, "wan_ssh_turris_rule", f.ssh, "wan_http_turris_rule");
    SetFirewallRule(backend, "wan_https_turris_rule", f.https, 443);
    if backend.raised { return; }
    RuleKept(st2, backend.View(), "wan_ssh_turris_rule", f.ssh, "wan_https_turris_rule");
    RuleKept(st2, backend.View(), "wan_http_turris_rule", f.http, "wan_https_turris_rule");
    FirewallKeepsNetwork(st, st1, st2, backend.View());
  }

  lemma FirewallKeepsNetwork(st: Store, st1: Store, st2: Store, st3: Store)
    requires OnlySections(st, st1, "firewall", {"wan_ssh_turris_rule"})
    requires OnlySections(st1, st2, "firewall", {"wan_http_turris_rule"})
    requires OnlySections(st2, st3, "firewall", {"wan_https_turris_rule"})
    ensures ConfigKept(st, st3, "network")
  {
    hide ConfigKept, Fingerprint, WellOrdered, Get, ConfigsIn, ShapeOf, KindIn;
    Literals.Configs();
    assert ConfigKept(st, st1, "network") && ConfigKept(st1, st2, "network") && ConfigKept(st2, st3, "network");
    KeptTwice(st, st1, st2, "network");
    KeptTwice(st, st2, st3, "network");
  }

  // ---------------------------------------------------------------- from the steps to the result

  /** A config the update is made for: the guest network has no legacy form, a LAN bridge, named or
      anonymous, is the one that LAN uses, and no bridge passes for hardware. */
  ghost predicate WellFormed(st: Store, detected: seq<string>) {
    && WellOrdered(st, "network") && Distinct(detected)
    && Get(st, "network", "guest_turris", "ifname") == None
    && (forall s :: !AnonymousBridge(st, s, "guest_turris"))
    && (forall s :: AnonymousBridge(st, s, "lan") ==> OverBridge(st, "lan"))
    && (Has(st, "network", Bridge("lan")) ==> OverBridge(st, "lan"))
    && Get(st, "network", "wan", "ifname") != Some(Text(""))
    && Get(st, "network", "lan", "ifname") != Some(Text(""))
    && BridgeDevice("lan") !in detected && "br-guest-turris" !in detected
  }

  /** A WAN bridge is the one that WAN uses, and none is detected. */
  ghost predicate WanBridgeInUse(st: Store, detected: seq<string>) {
    (Has(st, "network", Bridge("wan")) ==> OverBridge(st, "wan")) && BridgeDevice("wan") !in detected
  }

  /** Several WAN ports end up on the WAN bridge. */
  ghost predicate WanBridged(st: Store, w: Wanted) {
    |w.wan| > 1 ==> Get(st, "network", "wan", "device") == Some(Text(BridgeDevice("wan")))
  }

  /** What the reader finds of the LAN and the guest network, and of WAN. */
  ghost predicate Assigned(st: Store, w: Wanted) {
    && Get(st, "network", "wan", "ifname") == None
    && (|w.wan| <= 1 ==>
          Get(st, "network", "wan", "device") == if w.wan != [] then Stored(w.wan[0]) else None)
    && Get(st, "network", "lan", "ifname") == None
    && Bridged(st, "lan", w.lan)
    && (forall s :: !AnonymousBridge(st, s, "lan"))
    && Get(st, "network", "guest_turris", "ifname") == None
    && Get(st, "network", "guest_turris", "device") == Some(Text("br-guest-turris"))
    && Get(st, "network", "br_guest_turris", "ports") == Listed(w.guest)
    && (forall s :: !AnonymousBridge(st, s, "guest_turris"))
  }

  /** Neither the guest step nor the guest ports concern the sections of WAN and LAN. */
  ghost predicate SameNets(st: Store, st': Store) {
    && (forall s :: s != "guest_turris" && s != "br_guest_turris" ==> Kind(st', "network", s) == Kind(st, "network", s))
    && (forall s, o :: s != "guest_turris" && s != "br_guest_turris" ==>
          Get(st', "network", s, o) == Get(st, "network", s, o))
  }

  lemma AnonymousSame(st: Store, st': Store, s: string, section: string)
    requires SameNets(st, st')
    ensures AnonymousBridge(st', s, section) == AnonymousBridge(st, s, section)
  {
    hide Get, ConfigsIn, ShapeOf, KindIn;
    assert "cfg" <= s ==> s[0] == 'c';
    assert "guest_turris"[0] != 'c' && "br_guest_turris"[0] != 'c';
  }

  lemma AnonymousDropped(data: Store, s: string, net: string)
    requires WellOrdered(data, "network") && AnonymousBridge(data, s, net) && OverBridge(data, net)
    ensures s in Dropped(data, net)
  {
    assert s in Order(data, "network");
    OfKindComplete(data, "network", Order(data, "network"), "device", s);
    hide OfKind, Get;
  }

  /** After both networks are written, no anonymous bridge is left that was not there to stay. */
  lemma NoAnonymousLeft(data: Store, st1: Store, st2: Store, st3: Store, s: string, section: string)
    requires AnonymousBridge(data, s, section) ==> s in Dropped(data, "lan")
    requires SameNets(data, st1)
    requires OnlySections(st1, st2, "network", Touched(data, "wan"))
    requires AllGone(st2, Dropped(data, "wan"))
    requires OnlySections(st2, st3, "network", Touched(data, "lan"))
    requires AllGone(st3, Dropped(data, "lan"))
    ensures !AnonymousBridge(st3, s, section)
  {
    hide Dropped, OverBridge, WellOrdered;
    if AnonymousBridge(st3, s, section) && s !in Dropped(data, "lan") {
      NotAnInterface(s);
      AnonymousMoved(st2, st3, s, Touched(data, "lan"), section);
      if s !in Dropped(data, "wan") {
        AnonymousMoved(st1, st2, s, Touched(data, "wan"), section);
        AnonymousSame(data, st1, s, section);
      }
    }
  }

  lemma NotAnInterface(s: string)
    requires "cfg" <= s
    ensures s !in {"wan", Bridge("wan"), "lan", Bridge("lan"), "guest_turris", "br_guest_turris"}
  {
    assert s[0] == 'c' && Bridge("wan")[0] == 'b' && Bridge("lan")[0] == 'b';
  }

  lemma AnonymousMoved(st: Store, st': Store, s: string, names: set<string>, section: string)
    requires OnlySections(st, st', "network", names) && s !in names
    ensures AnonymousBridge(st', s, section) == AnonymousBridge(st, s, section)
  {
    hide Get, ConfigsIn, ShapeOf, KindIn, WellOrdered;
  }

  lemma GuestKeepsNets(st: Store, data: Store)
    requires Guest.GuestSet(st, data, true)
    ensures SameNets(st, data) && (WellOrdered(st, "network") ==> WellOrdered(data, "network"))
    ensures Get(data, "network", "guest_turris", "ifname") == Get(st, "network", "guest_turris", "ifname")
    ensures Get(data, "network", "guest_turris", "device") == Some(Text("br-guest-turris"))
  {
    hide Get, ConfigsIn, ShapeOf, KindIn, WellOrdered, Guest.FlagIs, Guest.FlagsAre, Guest.Elsewhere;
  }

  lemma PortsKeepNets(data: Store, st1: Store, guest: seq<string>)
    requires OptionIs(data, st1, "network", Bridge("guest_turris"), "ports", Listed(guest))
    ensures SameNets(data, st1)
    ensures Get(st1, "network", "br_guest_turris", "ports") == Listed(guest)
    ensures SameOptions(data, st1, "network", "guest_turris")
  {
    hide Get, ConfigsIn, ShapeOf, KindIn, Listed, Fingerprint;
    assert Bridge("guest_turris") == "br_guest_turris";
    Literals.Interfaces();
  }

  /** Well-formedness carries over to the config that the loop looks at. */
  lemma WellFormedData(st: Store, data: Store, detected: seq<string>)
    requires WellFormed(st, detected) && SameNets(st, data) && WellOrdered(data, "network")
    ensures forall s :: AnonymousBridge(data, s, "lan") ==> s in Dropped(data, "lan")
    ensures forall s :: !AnonymousBridge(data, s, "guest_turris")
    ensures Has(data, "network", Bridge("lan")) ==> OverBridge(data, "lan")
    ensures Get(data, "network", "wan", "ifname") != Some(Text("")) && Get(data, "network", "lan", "ifname") != Some(Text(""))
  {
    hide Get, ConfigsIn, ShapeOf, KindIn, OrderIn, Dropped, Fingerprint, WellOrdered, BridgeDevice;
    assert Bridge("wan") == "br_wan" && Bridge("lan") == "br_lan";
    Literals.Interfaces();
    forall s ensures AnonymousBridge(data, s, "lan") ==> s in Dropped(data, "lan") {
      AnonymousSame(st, data, s, "lan");
      if AnonymousBridge(data, s, "lan") { AnonymousDropped(data, s, "lan"); }
    }
    forall s ensures !AnonymousBridge(data, s, "guest_turris") { AnonymousSame(st, data, s, "guest_turris"); }
  }

  /** LAN is on its bridge whether that was there or not. */
  lemma LanBridged(data: Store, st: Store, ifs: seq<string>)
    requires NetWritten(data, st, "lan", ifs)
    requires Has(data, "network", Bridge("lan")) ==> OverBridge(data, "lan")
    ensures Bridged(st, "lan", ifs)
  {
    hide Get, ConfigsIn, ShapeOf, KindIn, Listed;
    assert BridgeDevice("lan") != "";
  }

  lemma WanAssigned(data: Store, st: Store, w: Wanted)
    requires NetWritten(data, st, "wan", w.wan)
    ensures |w.wan| <= 1 ==> Get(st, "network", "wan", "device") == if w.wan != [] then Stored(w.wan[0]) else None
    ensures (Has(data, "network", Bridge("wan")) ==> OverBridge(data, "wan")) ==> WanBridged(st, w)
  {
    hide Get, ConfigsIn, ShapeOf, KindIn, Listed;
    assert BridgeDevice("wan") != "";
  }

  /** What one update leaves alone of the sections that the others wrote. */
  lemma Untouched(data: Store)
    ensures "wan" !in Touched(data, "lan")
    ensures "guest_turris" !in Touched(data, "wan") && "br_guest_turris" !in Touched(data, "wan")
    ensures "guest_turris" !in Touched(data, "lan") && "br_guest_turris" !in Touched(data, "lan")
    ensures "lan" !in Touched(data, "wan") && Bridge("lan") !in Touched(data, "wan")
  {
    hide Dropped, Fingerprint;
    NotDropped(data, "lan", "wan");
    NotDropped(data, "wan", "lan");
    NotDropped(data, "wan", "br_lan");
    NotDropped(data, "wan", "guest_turris");
    NotDropped(data, "wan", "br_guest_turris");
    NotDropped(data, "lan", "guest_turris");
    NotDropped(data, "lan", "br_guest_turris");
    assert Bridge("wan") == "br_wan" && Bridge("lan") == "br_lan";
    Literals.Interfaces();
  }

  /** Dropped sections are anonymous, and these have names that start with "cfg". */
  lemma NotDropped(data: Store, net: string, s: string)
    requires s != "" && s[0] != 'c'
    ensures s !in Dropped(data, net)
  {
    hide Get, ConfigsIn, ShapeOf, KindIn, OverBridge, OfKind;
  }

  /** The steps together make the assignment. */
  lemma StepsAssign(st: Store, data: Store, st1: Store, st2: Store, st3: Store, w: Wanted, detected: seq<string>)
    requires WellFormed(st, detected) && Guest.GuestSet(st, data, true)
    requires OptionIs(data, st1, "network", Bridge("guest_turris"), "ports", Listed(w.guest))
    requires OnlySections(st1, st2, "network", Touched(data, "wan")) && NetWritten(data, st2, "wan", w.wan)
    requires OnlySections(st2, st3, "network", Touched(data, "lan")) && NetWritten(data, st3, "lan", w.lan)
    ensures Assigned(st3, w)
  {
    hide Get, ConfigsIn, ShapeOf, KindIn, Listed, WellOrdered, Guest.GuestSet, Touched, Dropped, AnonymousBridge, OnlySections, OverBridge, Bridge, SameNets, OptionIs;
    GuestKeepsNets(st, data);
    PortsKeepNets(data, st1, w.guest);
    WellFormedData(st, data, detected);
    Untouched(data);
    LanBridged(data, st3, w.lan);
    WanAssigned(data, st2, w);
    OnlyOthers(st2, st3, "network", Touched(data, "lan"), "wan");
    OnlyOthers(st1, st2, "network", Touched(data, "wan"), "guest_turris");
    OnlyOthers(st2, st3, "network", Touched(data, "lan"), "guest_turris");
    OnlyOthers(st1, st2, "network", Touched(data, "wan"), "br_guest_turris");
    OnlyOthers(st2, st3, "network", Touched(data, "lan"), "br_guest_turris");
    forall s ensures !AnonymousBridge(st3, s, "lan") && !AnonymousBridge(st3, s, "guest_turris") {
      NoAnonymousLeft(data, st1, st2, st3, s, "lan");
      NoAnonymousLeft(data, st1, st2, st3, s, "guest_turris");
    }
  }

  // ---------------------------------------------------------------- reading back

  /** Named ports in no more than one of the three networks, all of them detected. */
  ghost predicate Sensible(w: Wanted, detected: seq<string>) {
    && (forall p | p in w.wan + w.lan + w.guest :: p != "" && p in detected)
    && (forall p :: !(p in w.wan && p in w.lan) && !(p in w.wan && p in w.guest) && !(p in w.lan && p in w.guest))
  }

  /** The same ports in every network, the rest in none. */
  ghost predicate Shows(n: Display, w: Wanted, detected: seq<string>) {
    && (forall p :: p in n.wan <==> p in w.wan)
    && (forall p :: p in n.lan <==> p in w.lan)
    && (forall p :: p in n.guest <==> p in w.guest)
    && (forall p :: p in n.none <==> p in detected && p !in w.wan && p !in w.lan && p !in w.guest)
  }

  lemma SameElements(items: seq<string>)
    ensures forall p :: p in Sorted(items) <==> p in items
  {
    SortedIsSound(items);
    hide Sorted;
    forall p ensures p in Sorted(items) <==> p in items {
      assert p in multiset(Sorted(items)) <==> p in multiset(items);
    }
  }

  lemma NothingSorted()
    ensures Sorted([]) == []
  {
  }

  lemma {:induction false} NoAnonymousPorts(st: Store, devices: seq<string>, section: string)
    requires forall s :: !AnonymousBridge(st, s, section)
    ensures AnonymousPorts(st, devices, section) == []
  {
    hide AnonymousBridge;
    if devices != [] { NoAnonymousPorts(st, devices[1..], section); }
  }

  /** A network on a bridge shows the ports of that bridge that are still in the map. */
  lemma BridgeShows(st: Store, section: string, device: string, ifs: seq<string>, left: seq<string>)
    requires Get(st, "network", section, "device") == Some(Text(device)) && device !in left
    requires Get(st, "network", Underscored(device), "ports") == Listed(ifs) && "" !in ifs
    requires Get(st, "network", section, "ifname") == None
    requires (forall s :: !AnonymousBridge(st, s, section)) && Distinct(left)
    ensures var r := PrepareNetwork(st, section, left);
      && r.Some? && Distinct(r.value.left)
      && (forall p :: p in r.value.taken <==> p in ifs && p in left)
      && (forall p :: p in r.value.left <==> p in left && p !in ifs)
  {
    AllShown(ifs);
    NoAnonymousPorts(st, SectionsByType(st, "network", "device"), section);
    SameElements(ifs);
    hide Get, Sorted, AnonymousBridge, AnonymousPorts, SectionsByType, Underscored;
    assert BridgePorts(st, section, device) == ifs;
    var ports := if ifs != [] then Sorted(ifs) else [device];
    PopSplits(ports, left);
    NothingSorted();
    var first := Pop(ports, left);
    assert Pop([], first.left) == Ports([], first.left);
    assert first.taken + [] == first.taken;
    hide Pop;
  }

  lemma WanShows(st: Store, w: Wanted, detected: seq<string>)
    requires Assigned(st, w) && |w.wan| <= 1 && Distinct(detected)
    requires forall p | p in w.wan :: p != "" && p in detected
    ensures var r := PrepareWan(st, detected);
      && r.Some? && Distinct(r.value.left)
      && (forall p :: p in r.value.taken <==> p in w.wan)
      && (forall p :: p in r.value.left <==> p in detected && p !in w.wan)
  {
    hide Get, AnonymousBridge, Bridged, Listed, Without;
    if w.wan != [] {
      assert w.wan == [w.wan[0]] && w.wan[0] in w.wan;
      WithoutDistinct(detected, w.wan[0]);
    }
  }

  lemma BridgesUnderscored()
    ensures Underscored(BridgeDevice("lan")) == Bridge("lan") && Underscored("br-guest-turris") == "br_guest_turris"
  {
  }

  lemma InThree(a: seq<string>, b: seq<string>, c: seq<string>)
    ensures forall p :: p in a + b + c <==> p in a || p in b || p in c
  {
  }

  /** The update reads back. */
  lemma AssignedReadsBack(st: Store, w: Wanted, detected: seq<string>)
    requires Assigned(st, w) && Sensible(w, detected) && |w.wan| <= 1 && Distinct(detected)
    requires BridgeDevice("lan") !in detected && "br-guest-turris" !in detected
    ensures ReadNetworks(st, detected).Some? && Shows(ReadNetworks(st, detected).value, w, detected)
  {
    hide Get, AnonymousBridge, Listed, PrepareWan, PrepareNetwork, Underscored, Bridge, BridgeDevice;
    BridgesUnderscored();
    InThree(w.wan, w.lan, w.guest);
    WanShows(st, w, detected);
    var left := PrepareWan(st, detected).value.left;
    BridgeShows(st, "lan", BridgeDevice("lan"), w.lan, left);
    BridgeShows(st, "guest_turris", "br-guest-turris", w.guest, PrepareNetwork(st, "lan", left).value.left);
  }

  /** Two WAN ports make a bridge, and the reader looks for the bridge among the ports. */
  lemma TwoWanPortsDoNotReadBack(st: Store, w: Wanted, detected: seq<string>)
    requires WanBridged(st, w) && |w.wan| > 1 && BridgeDevice("wan") !in detected
    ensures ReadNetworks(st, detected) == None
  {
    hide Get, PrepareNetwork;
    assert BridgeDevice("wan") != "";
  }

  /** WAN's part of the steps, whatever the rest of the config is like. */
  lemma StepsBridgeWan(st: Store, data: Store, st1: Store, st2: Store, st3: Store, w: Wanted, detected: seq<string>)
    requires WanBridgeInUse(st, detected) && Guest.GuestSet(st, data, true)
    requires NetWritten(data, st2, "wan", w.wan) && OnlySections(st2, st3, "network", Touched(data, "lan"))
    ensures WanBridged(st3, w)
  {
    hide Get, ConfigsIn, ShapeOf, KindIn, WellOrdered, Guest.GuestSet, Touched, NetWritten, OnlySections, BridgeDevice, Fingerprint;
    GuestKeepsNets(st, data);
    assert Bridge("wan") == "br_wan";
    Literals.Interfaces();
    WanAssigned(data, st2, w);
    Untouched(data);
    OnlyOthers(st2, st3, "network", Touched(data, "lan"), "wan");
  }

  // ---------------------------------------------------------------- the update

  /** What the update asks of the configuration. */
  predicate Possible(st: Store, w: Wanted) {
    Guest.EnablingPossible(st) && NetReady(st, "wan", w.wan) && NetReady(st, "lan", w.lan)
  }

  /** `update_settings`: refuses lists that are not the configurable ports (as sets).  Otherwise it ends
      normally exactly when the configuration has what it needs; then, from any well-formed config, the
      reader shows what was asked exactly when at most one port is WAN's.  After an exception nothing on disk
      has changed. */
  method UpdateSettings(backend: UciBackend, osVersion: nat, ifaces: seq<Iface>, firewall: Firewall, w: Wanted)
    returns (ok: bool)
    modifies backend
    ensures ok == (osVersion >= 4 && Configurable(ifaces) == Listed4(w))
    ensures ok && WellOrdered(old(backend.committed), "network") ==>
      backend.raised == !Possible(old(backend.committed), w)
    ensures !ok || backend.raised ==> backend.committed == old(backend.committed)
    ensures ok && !backend.raised ==>
      && RulesAre(backend.committed, firewall)
      && Guest.FlagIs(backend.committed, "network", "guest_turris", true)
      && Answered(old(backend.committed), backend.committed, w, Ids(ifaces))
  {
    hide Get, ConfigsIn, ShapeOf, KindIn, OrderIn, WellOrdered, Guest.GuestSet, Laid, Answered, RuleIs, Guest.ReadGuestEnabled, ConfigKept, Configurable, Listed4, Guest.FlagIs, NetReady, Guest.ReadServing, Guest.ReadPool;
    ok := osVersion >= 4 && Configurable(ifaces) == Listed4(w);
    if !ok { return; }
    backend.Enter();
    ghost var st := backend.View();
    Guest.EnableGuestNetwork(backend);
    if !backend.raised {
      AssignPorts(backend, w, st, Ids(ifaces));
      if !backend.raised {
        ghost var st3 := backend.View();
        SetFirewall(backend, firewall);
        if !backend.raised {
          LaidKept(st, st3, backend.View(), w, Ids(ifaces));
          GuestFlagKept(st3, backend.View());
          LaidAnswers(st, backend.View(), w, Ids(ifaces));
        }
      }
    }
    backend.Exit();
  }

  /** The reader ends normally and shows what was asked. */
  ghost predicate ShownAsAsked(st: Store, w: Wanted, detected: seq<string>) {
    ReadNetworks(st, detected).Some? && Shows(ReadNetworks(st, detected).value, w, detected)
  }

  /** From a well-formed config the reader shows what was asked exactly when at most one port is WAN's;
      with more of them on the bridge that WAN uses it raises, that bridge being no detected port. */
  ghost predicate Answered(was: Store, st: Store, w: Wanted, detected: seq<string>) {
    && (WellFormed(was, detected) && Sensible(w, detected) && Distinct(w.wan) ==>
          (ShownAsAsked(st, w, detected) <==> |w.wan| <= 1))
    && (WanBridgeInUse(was, detected) && |w.wan| > 1 ==> ReadNetworks(st, detected) == None)
  }

  /** No config shows two ports of WAN. */
  lemma TwoWanPortsAreNeverShown(st: Store, w: Wanted, detected: seq<string>)
    requires |w.wan| > 1 && Distinct(w.wan)
    ensures !ShownAsAsked(st, w, detected)
  {
    hide ReadNetworks;
    if ShownAsAsked(st, w, detected) {
      assert w.wan[0] in w.wan && w.wan[1] in w.wan;
      TwoElements(ReadNetworks(st, detected).value.wan, w.wan[0], w.wan[1]);
      OneWanPortIsShown(st, detected);
    }
  }

  lemma OneWanPortIsShown(st: Store, detected: seq<string>)
    requires ReadNetworks(st, detected).Some?
    ensures |ReadNetworks(st, detected).value.wan| <= 1
  {
    hide Get, PrepareNetwork, ActiveWan;
  }

  lemma TwoElements(items: seq<string>, a: string, b: string)
    requires a in items && b in items && a != b
    ensures |items| > 1
  {
  }

  /** What the edits come to. */
  ghost predicate Laid(was: Store, st: Store, w: Wanted, detected: seq<string>) {
    (WellFormed(was, detected) ==> Assigned(st, w)) && (WanBridgeInUse(was, detected) ==> WanBridged(st, w))
  }

  lemma LaidKept(was: Store, st: Store, st': Store, w: Wanted, detected: seq<string>)
    requires Laid(was, st, w, detected) && ConfigKept(st, st', "network")
    ensures Laid(was, st', w, detected)
  {
    hide Get, ConfigsIn, ShapeOf, KindIn, Listed, WellFormed, WanBridgeInUse;
    forall s, section ensures AnonymousBridge(st', s, section) == AnonymousBridge(st, s, section) { }
    hide AnonymousBridge;
  }

  lemma GuestFlagKept(st: Store, st': Store)
    requires Guest.FlagIs(st, "network", "guest_turris", true) && ConfigKept(st, st', "network")
    ensures Guest.FlagIs(st', "network", "guest_turris", true)
  {
    hide Get, ConfigsIn, ShapeOf, KindIn, StoreBool;
  }

  lemma LaidAnswers(was: Store, st: Store, w: Wanted, detected: seq<string>)
    requires Laid(was, st, w, detected)
    ensures Answered(was, st, w, detected)
  {
    hide Get, ConfigsIn, ShapeOf, KindIn, Assigned, ReadNetworks, Sensible, Shows, AnonymousBridge, OverBridge, WellOrdered, BridgeDevice, WanBridged;
    if WellFormed(was, detected) && Sensible(w, detected) && Distinct(w.wan) {
      if |w.wan| <= 1 {
        AssignedReadsBack(st, w, detected);
      } else {
        TwoWanPortsAreNeverShown(st, w, detected);
      }
    }
    if WanBridgeInUse(was, detected) && |w.wan| > 1 {
      TwoWanPortsDoNotReadBack(st, w, detected);
    }
  }

  /** The loop over WAN and LAN, after the guest step. */
  method AssignPorts(backend: UciBackend, w: Wanted, ghost st: Store, ghost detected: seq<string>)
    requires backend.Valid() && !backend.raised && Guest.GuestSet(st, backend.View(), true)
    modifies backend
    ensures backend.InBlock()
    ensures WellOrdered(st, "network") ==>
      backend.raised == !(NetReady(st, "wan", w.wan) && NetReady(st, "lan", w.lan))
    ensures !backend.raised ==>
      Laid(st, backend.View(), w, detected) && Guest.FlagIs(backend.View(), "network", "guest_turris", true)
  {
    hide Get, ConfigsIn, ShapeOf, KindIn, OrderIn, WellOrdered, Guest.GuestSet, Touched, NetWritten, MacKept, OnlySections, OptionIs, Laid, Guest.FlagIs, Bridge, NetReady, AllThere, Distinct, Devices, Current, Dropped;
    var data := backend.View();
    GuestLeavesReady(st, data, w);
    SetBridgePorts(backend, "guest_turris", w.guest);
    ghost var st1 := backend.View();
    ReadyForLoop(st, data, st1, w.guest);
    BothThere(data, st1, w.guest);
    UpdateNet(backend, data, "wan", w.wan);
    if backend.raised { return; }
    ghost var st2 := backend.View();
    StillCurrent(data, st1, st2);
    UpdateNet(backend, data, "lan", w.lan);
    if backend.raised { return; }
    StepsLay(st, data, st1, st2, backend.View(), w, detected);
  }

  lemma BothThere(data: Store, st1: Store, guest: seq<string>)
    requires OptionIs(data, st1, "network", Bridge("guest_turris"), "ports", Listed(guest))
    ensures AllThere(st1, Dropped(data, "wan")) && AllThere(st1, Dropped(data, "lan"))
  {
    hide Get, ShapeOf, Dropped, Listed, AllThere, Bridge;
    DroppedThere(data, "wan");
    DroppedThere(data, "lan");
    StillThere(data, st1, Dropped(data, "wan"));
    StillThere(data, st1, Dropped(data, "lan"));
  }

  lemma StepsLay(st: Store, data: Store, st1: Store, st2: Store, st3: Store, w: Wanted, detected: seq<string>)
    requires Guest.GuestSet(st, data, true) && Guest.FlagIs(st1, "network", "guest_turris", true)
    requires OptionIs(data, st1, "network", Bridge("guest_turris"), "ports", Listed(w.guest))
    requires OnlySections(st1, st2, "network", Touched(data, "wan")) && NetWritten(data, st2, "wan", w.wan)
    requires OnlySections(st2, st3, "network", Touched(data, "lan")) && NetWritten(data, st3, "lan", w.lan)
    ensures Laid(st, st3, w, detected) && Guest.FlagIs(st3, "network", "guest_turris", true)
  {
    hide Get, ConfigsIn, ShapeOf, KindIn, Touched, NetWritten, OnlySections, OptionIs, Assigned, WanBridged, WanBridgeInUse, WellFormed, Guest.GuestSet, Guest.FlagIs, Listed, Bridge;
    Untouched(data);
    OnlyOthers(st1, st2, "network", Touched(data, "wan"), "guest_turris");
    OnlyOthers(st2, st3, "network", Touched(data, "lan"), "guest_turris");
    FlagSame(st1, st2);
    FlagSame(st2, st3);
    if WellFormed(st, detected) { StepsAssign(st, data, st1, st2, st3, w, detected); }
    if WanBridgeInUse(st, detected) { StepsBridgeWan(st, data, st1, st2, st3, w, detected); }
  }

  lemma ReadyForLoop(st: Store, data: Store, st1: Store, guest: seq<string>)
    requires Guest.GuestSet(st, data, true)
    requires OptionIs(data, st1, "network", Bridge("guest_turris"), "ports", Listed(guest))
    ensures Current(data, st1, "wan") && Current(data, st1, "lan")
    ensures Guest.FlagIs(st1, "network", "guest_turris", true)
  {
    hide Get, ShapeOf, Listed, StoreBool, Guest.GuestBridge, Guest.FlagsAre, Guest.Elsewhere, Bridge, KindIn, WellOrdered, OptionIs;
    SectionsApartFromBridge(data, st1, Listed(guest));
    FlagSame(data, st1);
  }

  /** The ports of the guest bridge are no option of these interfaces. */
  lemma SectionsApartFromBridge(data: Store, st1: Store, v: Option<Value>)
    requires OptionIs(data, st1, "network", Bridge("guest_turris"), "ports", v)
    ensures ShapeOf(st1) == ShapeOf(data)
    ensures SameOptions(data, st1, "network", "wan") && SameOptions(data, st1, "network", "lan")
    ensures SameOptions(data, st1, "network", "guest_turris")
  {
    hide Get, ShapeOf, Fingerprint, Bridge;
    BridgeNames();
    Literals.Interfaces();
  }

  lemma BridgeNames()
    ensures Bridge("wan") == "br_wan" && Bridge("lan") == "br_lan" && Bridge("guest_turris") == "br_guest_turris"
  {
  }

  /** The guest step has made the guest bridge and left the sections of WAN and LAN alone. */
  lemma GuestLeavesReady(st: Store, data: Store, w: Wanted)
    requires Guest.GuestSet(st, data, true)
    ensures Has(data, "network", Bridge("guest_turris"))
    ensures NetReady(data, "wan", w.wan) == NetReady(st, "wan", w.wan) && NetReady(data, "lan", w.lan) == NetReady(st, "lan", w.lan)
    ensures WellOrdered(st, "network") ==> Distinct(Devices(data))
  {
    hide Get, ConfigsIn, ShapeOf, KindIn, OrderIn, Fingerprint, OfKind, Guest.FlagIs, Guest.FlagsAre, Guest.Elsewhere;
    assert Bridge("wan") == "br_wan" && Bridge("lan") == "br_lan" && Bridge("guest_turris") == "br_guest_turris";
    Literals.Interfaces();
    if WellOrdered(st, "network") { OfKindDistinct(data, "network", Order(data, "network"), "device"); }
  }

  lemma DroppedThere(data: Store, net: string)
    ensures AllThere(data, Dropped(data, net))
  {
    hide Get, ConfigsIn, ShapeOf, KindIn, OrderIn, OfKind;
  }

  /** The turn of WAN leaves the sections that LAN's is about. */
  lemma StillCurrent(data: Store, st1: Store, st2: Store)
    requires Current(data, st1, "lan") && AllThere(st1, Dropped(data, "lan"))
    requires OnlySections(st1, st2, "network", Touched(data, "wan"))
    ensures Current(data, st2, "lan") && AllThere(st2, Dropped(data, "lan"))
  {
    hide Get, ConfigsIn, ShapeOf, KindIn, OrderIn, Fingerprint, WellOrdered, Dropped, Bridge, OverBridge;
    Untouched(data);
    forall s | s in Dropped(data, "lan") ensures Has(st2, "network", s) { NotDroppedTwice(data, s); }
  }

  lemma NotDroppedTwice(data: Store, s: string)
    requires s in Dropped(data, "lan")
    ensures s !in Touched(data, "wan")
  {
    hide Get, ConfigsIn, ShapeOf, KindIn, OrderIn, OfKind, OverBridge;
    NotAnInterface(s);
    assert ("br-" + "lan")[3] == 'l' && ("br-" + "wan")[3] == 'w';
  }

  lemma FlagSame(st: Store, st': Store)
    requires Guest.FlagIs(st, "network", "guest_turris", true) && SameOptions(st, st', "network", "guest_turris")
    ensures Guest.FlagIs(st', "network", "guest_turris", true)
  {
    hide Get, StoreBool;
  }

  /** The port check compares sets, so it lets a port be asked for twice. */
  lemma OverlapIsAccepted(p: string)
    ensures Configurable([Iface(p, false)]) == Listed4(Wanted([p], [p], [], []))
  {
    assert Configurable([Iface(p, false)]) == {p};
    assert [p] + [p] + [] + [] == [p, p];
  }

  /** What is asked for twice cannot be shown: every display keeps the networks apart. */
  lemma OverlapsAreNeverShown(st: Store, w: Wanted, detected: seq<string>)
    requires Distinct(detected) && ReadNetworks(st, detected).Some?
    requires Shows(ReadNetworks(st, detected).value, w, detected)
    ensures forall p :: !(p in w.wan && p in w.lan) && !(p in w.wan && p in w.guest) && !(p in w.lan && p in w.guest)
  {
    var n := ReadNetworks(st, detected).value;
    ShownNetworksPartitionTheHardware(st, detected);
    hide ReadNetworks;
    forall p ensures !(p in w.wan && p in w.lan) && !(p in w.wan && p in w.guest) && !(p in w.lan && p in w.guest) {
      OnceIn(detected, p);
      assert multiset(detected)[p] == multiset(n.wan)[p] + multiset(n.lan)[p] + multiset(n.guest)[p] + multiset(n.none)[p];
      assert (p in n.wan <==> p in multiset(n.wan)) && (p in n.lan <==> p in multiset(n.lan)) && (p in n.guest <==> p in multiset(n.guest));
    }
  }

  lemma {:induction false} OnceIn(items: seq<string>, p: string)
    requires Distinct(items)
    ensures multiset(items)[p] <= 1
  {
    if items != [] {
      DistinctFirst(items);
      OnceIn(items[1..], p);
      assert items == [items[0]] + items[1..];
      assert p in multiset(items[1..]) <==> p in items[1..];
    }
  }
}
