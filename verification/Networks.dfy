/** Which port belongs to which network: the reader's side.  All four networks are filled from one
    map of detected ports, each reader removing what it shows. */
module Networks {
  import opened Wrappers
  import opened Texts
  import opened UciStore
  import opened UciOptions
  import opened NaturalOrder

  // ---------------------------------------------------------------- taking ports from the map

  /** What was taken and what is left. */
  datatype Ports = Ports(taken: seq<string>, left: seq<string>)

  /** `if port in ports_map: res.append(ports_map.pop(port))`, for one port after the other */
  function Pop(ports: seq<string>, left: seq<string>): Ports
    decreases |ports|
  {
    if ports == [] then Ports([], left)
    else if ports[0] in left then
      var rest := Pop(ports[1..], Without(left, ports[0]));
      Ports([ports[0]] + rest.taken, rest.left)
    else Pop(ports[1..], left)
  }

  /** The ports still to be shown, shared by the readers of the networks. */
  class PortsMap {
    var left: seq<string>

    constructor (detected: seq<string>)
      ensures left == detected
    {
      left := detected;
    }

    method TakePort(port: string) returns (found: bool)
      modifies this
      ensures found == (port in old(left))
      ensures left == if found then Without(old(left), port) else old(left)
    {
      found := port in left;
      if found { left := Without(left, port); }
    }

    method TakePorts(ports: seq<string>) returns (taken: seq<string>)
      modifies this
      ensures Ports(taken, left) == Pop(ports, old(left))
    {
      hide Pop, Without;
      taken := [];
      var i := 0;
      assert ports[0..] == ports;
      StartPop(Pop(ports, left));
      while i < |ports|
        invariant 0 <= i <= |ports|
        invariant var rest := Pop(ports[i..], left); Ports(taken + rest.taken, rest.left) == Pop(ports, old(left))
      {
        PopOne(ports, i, left, taken);
        var found := TakePort(ports[i]);
        if found {
          taken := taken + [ports[i]];
        }
        i := i + 1;
      }
      assert ports[i..] == [];
      EndPop(left, taken);
    }
  }

  lemma StartPop(p: Ports)
    ensures Ports([] + p.taken, p.left) == p
  {
  }

  lemma EndPop(left: seq<string>, taken: seq<string>)
    ensures Pop([], left) == Ports([], left) && taken + [] == taken
  {
  }

  /** One turn of the loop. */
  lemma PopOne(ports: seq<string>, i: nat, left: seq<string>, taken: seq<string>)
    requires i < |ports|
    ensures var rest := Pop(ports[i..], left);
      Ports(taken + rest.taken, rest.left) ==
        if ports[i] in left then
          var more := Pop(ports[i + 1..], Without(left, ports[i])); Ports(taken + [ports[i]] + more.taken, more.left)
        else
          var more := Pop(ports[i + 1..], left); Ports(taken + more.taken, more.left)
  {
    assert ports[i..] == [ports[i]] + ports[i + 1..];
    CutFirst(ports[i], ports[i + 1..]);
    hide Without;
    if ports[i] in left {
      var more := Pop(ports[i + 1..], Without(left, ports[i]));
      assert taken + ([ports[i]] + more.taken) == taken + [ports[i]] + more.taken;
    }
  }

  lemma {:induction false} PopSplits(ports: seq<string>, left: seq<string>)
    requires Distinct(left)
    ensures var r := Pop(ports, left);
      && multiset(r.taken) + multiset(r.left) == multiset(left)
      && Distinct(r.left)
      && (forall p :: p in r.taken <==> p in ports && p in left)
      && (forall p :: p in r.left <==> p in left && p !in ports)
    decreases |ports|
  {
    if ports != [] {
      var p := ports[0];
      assert forall q :: q in ports <==> q == p || q in ports[1..];
      if p in left {
        WithoutDistinct(left, p);
        WithoutTakesOne(left, p);
        PopSplits(ports[1..], Without(left, p));
      } else {
        PopSplits(ports[1..], left);
      }
    }
  }

  lemma {:induction false} WithoutTakesOne(left: seq<string>, p: string)
    requires Distinct(left) && p in left
    ensures multiset([p]) + multiset(Without(left, p)) == multiset(left)
  {
    DistinctFirst(left);
    assert left == [left[0]] + left[1..];
    if left[0] == p {
      WithoutAbsent(left[1..], p);
    } else {
      WithoutTakesOne(left[1..], p);
    }
  }

  lemma {:induction false} WithoutAbsent(left: seq<string>, p: string)
    requires p !in left
    ensures Without(left, p) == left
  {
    if left != [] { WithoutAbsent(left[1..], p); }
  }

  // ---------------------------------------------------------------- reading

  /** Iterating over an option: a list gives its items, a text its characters. */
  function Elements(v: Option<Value>): seq<string> {
    match v
    case None => []
    case Some(Items(items)) => items
    case Some(Text(t)) => seq(|t|, i requires 0 <= i < |t| => [t[i]])
  }

  /** The legacy `ifname` option */
  function Interfaces(v: Option<Value>): seq<string> {
    match v
    case None => []
    case Some(Items(items)) => items
    case Some(Text(t)) => Split(t, ' ')
  }

  /** `device.replace("-", "_")` */
  function Underscored(s: string): string {
    seq(|s|, i requires 0 <= i < |s| => if s[i] == '-' then '_' else s[i])
  }

  /** An anonymous device section that is the bridge of this network. */
  predicate AnonymousBridge(st: Store, s: string, section: string) {
    && "cfg" <= s
    && Kind(st, "network", s) == Some("device")
    && Get(st, "network", s, "name") == Some(Text("br-" + section))
  }

  /** `_get_anonymous_bridge_ports`: the ports of the first one. */
  function AnonymousPorts(st: Store, devices: seq<string>, section: string): seq<string> {
    if devices == [] then []
    else if AnonymousBridge(st, devices[0], section) then Elements(Get(st, "network", devices[0], "ports"))
    else AnonymousPorts(st, devices[1..], section)
  }

  /** The ports of the network's bridge, wherever the config keeps them. */
  function BridgePorts(st: Store, section: string, device: string): seq<string> {
    var ports := Elements(Get(st, "network", Underscored(device), "ports"));
    if section in ["lan", "guest_turris"] && ports == [] && Interfaces(Get(st, "network", section, "ifname")) == []
    then AnonymousPorts(st, SectionsByType(st, "network", "device"), section)
    else ports
  }

  /** `_prepare_network`; None where `device` is a list and `replace` raises. */
  function PrepareNetwork(st: Store, section: string, left: seq<string>): Option<Ports> {
    match GetOr(st, "network", section, "device", "")
    case Items(_) => None
    case Text(device) =>
      var ports := BridgePorts(st, section, device);
      var first := Pop(if ports != [] then Sorted(ports) else [device], left);
      var second := Pop(Sorted(Interfaces(Get(st, "network", section, "ifname"))), first.left);
      Some(Ports(first.taken + second.taken, second.left))
  }

  predicate Truthy(v: Option<Value>) {
    v.Some? && v.value != Text("") && v.value != Items([])
  }

  /** `fetch_active_wan_device` in the wired mode */
  function ActiveWan(st: Store): Option<Value> {
    if Truthy(Get(st, "network", "wan", "device")) then Get(st, "network", "wan", "device")
    else if Truthy(Get(st, "network", "wan", "ifname")) then Get(st, "network", "wan", "ifname")
    else None
  }

  /** `_prepare_wan_network`; None where the active device is not in the map. */
  function PrepareWan(st: Store, left: seq<string>): Option<Ports> {
    match ActiveWan(st)
    case None => Some(Ports([], left))
    case Some(Text(d)) => if d in left then Some(Ports([d], Without(left, d))) else None
    case Some(Items(_)) => None
  }

  datatype Display = Display(wan: seq<string>, lan: seq<string>, guest: seq<string>, none: seq<string>)

  /** The wired part of `get_settings`; None where it raises. */
  function ReadNetworks(st: Store, detected: seq<string>): Option<Display> {
    match PrepareWan(st, detected)
    case None => None
    case Some(wan) =>
      match PrepareNetwork(st, "lan", wan.left)
      case None => None
      case Some(lan) =>
        match PrepareNetwork(st, "guest_turris", lan.left)
        case None => None
        case Some(guest) => Some(Display(wan.taken, lan.taken, guest.taken, guest.left))
  }

  /** `_prepare_network` on the shared map */
  method ShowNetwork(st: Store, section: string, map_: PortsMap) returns (res: Option<seq<string>>)
    modifies map_
    ensures PrepareNetwork(st, section, old(map_.left)) ==
      if res.Some? then Some(Ports(res.value, map_.left)) else None
  {
    hide Sorted, Pop, AnonymousPorts, SectionsByType, Get;
    var device := GetOr(st, "network", section, "device", "");
    if device.Items? { return None; }
    var interfaces := Interfaces(Get(st, "network", section, "ifname"));
    var ports := Elements(Get(st, "network", Underscored(device.text), "ports"));
    if section in ["lan", "guest_turris"] && ports == [] && interfaces == [] {
      ports := AnonymousPorts(st, SectionsByType(st, "network", "device"), section);
    }
    var first := map_.TakePorts(if ports != [] then Sorted(ports) else [device.text]);
    var second := map_.TakePorts(Sorted(interfaces));
    return Some(first + second);
  }

  /** `_prepare_wan_network` on the shared map */
  method ShowWan(st: Store, map_: PortsMap) returns (res: Option<seq<string>>)
    modifies map_
    ensures PrepareWan(st, old(map_.left)) == if res.Some? then Some(Ports(res.value, map_.left)) else None
  {
    hide Get;
    var active := ActiveWan(st);
    if active.None? { return Some([]); }
    if active.value.Items? { return None; }
    var found := map_.TakePort(active.value.text);
    return if found then Some([active.value.text]) else None;
  }

  /** The wired part of `get_settings`. */
  method ShowNetworks(st: Store, detected: seq<string>) returns (shown: Option<Display>)
    ensures shown == ReadNetworks(st, detected)
  {
    hide PrepareWan, PrepareNetwork;
    var map_ := new PortsMap(detected);
    var wan := ShowWan(st, map_);
    if wan.None? { return None; }
    var lan := ShowNetwork(st, "lan", map_);
    if lan.None? { return None; }
    var guest := ShowNetwork(st, "guest_turris", map_);
    if guest.None? { return None; }
    return Some(Display(wan.value, lan.value, guest.value, map_.left));
  }

  // ---------------------------------------------------------------- the networks share the hardware

  lemma NetworkSplits(st: Store, section: string, left: seq<string>)
    requires Distinct(left) && PrepareNetwork(st, section, left).Some?
    ensures var r := PrepareNetwork(st, section, left).value;
      multiset(r.taken) + multiset(r.left) == multiset(left) && Distinct(r.left)
  {
    hide Pop, Sorted, BridgePorts, Get;
    var device := GetOr(st, "network", section, "device", "").text;
    var ports := BridgePorts(st, section, device);
    var first := Pop(if ports != [] then Sorted(ports) else [device], left);
    PopSplits(if ports != [] then Sorted(ports) else [device], left);
    PopSplits(Sorted(Interfaces(Get(st, "network", section, "ifname"))), first.left);
  }

  lemma WanSplits(st: Store, left: seq<string>)
    requires Distinct(left) && PrepareWan(st, left).Some?
    ensures var r := PrepareWan(st, left).value;
      multiset(r.taken) + multiset(r.left) == multiset(left) && Distinct(r.left)
  {
    hide Get;
    if ActiveWan(st).Some? {
      WithoutTakesOne(left, ActiveWan(st).value.text);
      WithoutDistinct(left, ActiveWan(st).value.text);
    }
  }

  /** For every config, even one that lists a port in several places, the four networks partition
      the detected ports. */
  lemma ShownNetworksPartitionTheHardware(st: Store, detected: seq<string>)
    requires Distinct(detected) && ReadNetworks(st, detected).Some?
    ensures var n := ReadNetworks(st, detected).value;
      multiset(n.wan) + multiset(n.lan) + multiset(n.guest) + multiset(n.none) == multiset(detected)
  {
    hide PrepareWan, PrepareNetwork;
    WanSplits(st, detected);
    var wan := PrepareWan(st, detected).value;
    NetworkSplits(st, "lan", wan.left);
    NetworkSplits(st, "guest_turris", PrepareNetwork(st, "lan", wan.left).value.left);
  }

  /** The reader ends normally exactly when the active WAN device is absent or detected and no
      device option is a list. */
  lemma ShownExactly(st: Store, detected: seq<string>)
    ensures ReadNetworks(st, detected).Some? <==>
      && (ActiveWan(st).None? || (ActiveWan(st).value.Text? && ActiveWan(st).value.text in detected))
      && GetOr(st, "network", "lan", "device", "").Text?
      && GetOr(st, "network", "guest_turris", "device", "").Text?
  {
    hide Get, ActiveWan, BridgePorts, Pop, Sorted, Interfaces;
  }
}
