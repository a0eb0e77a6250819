/** Static DHCP hosts: three operations that keep MACs, addresses and hostnames unique. */
module LanHosts {
  import opened Wrappers
  import opened Texts
  import opened UciStore
  import Ipv4

  // ---------------------------------------------------------------- hosts

  /** A `host` section of the dhcp config: its name and the three options that matter here. */
  datatype Host = Host(section: string, mac: Option<Value>, ip: Option<Value>, name: Option<Value>)

  function UpperChar(c: char): char {
    if 'a' <= c <= 'z' then c - ' ' else c
  }

  /** `upper` on ASCII text */
  function Upper(s: string): (r: string)
    ensures |r| == |s| && forall i | 0 <= i < |s| :: r[i] == UpperChar(s[i])
  {
    seq(|s|, i requires 0 <= i < |s| => UpperChar(s[i]))
  }

  predicate IsBlank(c: char) {
    c == ' ' || '\t' <= c <= '\r'
  }

  /** `strip` on ASCII text */
  function Trim(s: string): string {
    if s == "" then ""
    else if IsBlank(s[0]) then Trim(s[1..])
    else if IsBlank(s[|s| - 1]) then Trim(s[..|s| - 1])
    else s
  }

  function Cleaned(pieces: seq<string>): seq<string> {
    seq(|pieces|, i requires 0 <= i < |pieces| => Upper(Trim(pieces[i])))
  }

  /** `_process_uci_mac_addresses` */
  function Macs(v: Value): seq<string> {
    match v
    case Text(t) => Cleaned(Split(t, ' '))
    case Items(items) => Cleaned(items)
  }

  /** The section carries this (upper-case) MAC. */
  predicate Carries(h: Host, mac: string) {
    h.mac.Some? && mac in Macs(h.mac.value)
  }

  /** `_minimal_valid_host_section` */
  predicate Minimal(h: Host) {
    h.mac.Some? && h.ip.Some?
  }

  /** `_get_host_record_section`: where the first section with this MAC is. */
  function FirstWith(hosts: seq<Host>, mac: string): (r: Option<nat>)
    ensures r.Some? ==> r.value < |hosts| && Carries(hosts[r.value], mac)
    ensures r.None? ==> forall i | 0 <= i < |hosts| :: !Carries(hosts[i], mac)
  {
    if hosts == [] then None
    else if Carries(hosts[0], mac) then Some(0)
    else match FirstWith(hosts[1..], mac)
      case None =>
        NoneBehind(hosts, mac);
        None
      case Some(i) =>
        assert hosts[i + 1] == hosts[1..][i];
        Some(i + 1)
  }

  lemma NoneBehind(hosts: seq<Host>, mac: string)
    requires hosts != [] && forall i | 0 <= i < |hosts[1..]| :: !Carries(hosts[1..][i], mac)
    ensures forall i | 0 < i < |hosts| :: !Carries(hosts[i], mac)
  {
    hide Carries;
    forall i | 0 < i < |hosts| ensures !Carries(hosts[i], mac) { assert hosts[i] == hosts[1..][i - 1]; }
  }

  predicate IpFree(hosts: seq<Host>, ip: string) {
    forall i | 0 <= i < |hosts| && Minimal(hosts[i]) :: hosts[i].ip != Some(Text(ip))
  }

  predicate NameFree(hosts: seq<Host>, name: string) {
    forall i | 0 <= i < |hosts| && Minimal(hosts[i]) :: hosts[i].name != Some(Text(name))
  }

  // ---------------------------------------------------------------- operations

  /** What the checks read from elsewhere: router address and netmask (None when the stored
      address does not parse), the mode, and whether DHCP is on (None when the flag is no boolean). */
  datatype Lan = Lan(combo: Option<(string, string)>, managed: bool, enabled: Option<bool>)

  datatype Verdict = Fine | Refuse(reason: string) | Crash

  /** `_validate_dhcp_host_ip` */
  function CheckIp(hosts: seq<Host>, lan: Lan, ip: string): Verdict
    requires lan.combo.Some?
  {
    if ip == "ignore" then Fine
    else match Ipv4.InNetwork(ip, lan.combo.value.0, lan.combo.value.1)
      case None => Crash
      case Some(false) => Refuse("out-of-network")
      case Some(true) =>
        if !lan.managed then Refuse("disabled")
        else match lan.enabled
          case None => Crash
          case Some(false) => Refuse("disabled")
          case Some(true) => if IpFree(hosts, ip) then Fine else Refuse("ip-exists")
  }

  /** An operation's reply with the hosts it leaves behind. */
  datatype Outcome = Done(hosts: seq<Host>) | Refused(reason: string) | Raised

  function After(hosts: seq<Host>, o: Outcome): seq<Host> {
    if o.Done? then o.hosts else hosts
  }

  /** `set_dhcp_client`; section is the name uci invents. */
  function SetHost(hosts: seq<Host>, lan: Lan, section: string, ip: string, mac: string, name: string): Outcome {
    if lan.combo.None? then Raised
    else if FirstWith(hosts, Upper(mac)).Some? then Refused("mac-exists")
    else match CheckIp(hosts, lan, ip)
      case Crash => Raised
      case Refuse(reason) => Refused(reason)
      case Fine =>
        if !NameFree(hosts, name) then Refused("hostname-exists")
        else Done(hosts + [Host(section, Stored(Upper(mac)), Stored(ip), Stored(name))])
  }

  /** The edit at the end of `update_dhcp_client`: a record of several MACs is replaced. */
  function Rewritten(hosts: seq<Host>, i: nat, section: string, ip: string, mac: string, name: string): seq<Host>
    requires i < |hosts| && hosts[i].mac.Some?
  {
    var h := Host(section, Stored(mac), Stored(ip), Stored(name));
    if |Macs(hosts[i].mac.value)| > 1 then hosts[..i] + hosts[i + 1..] + [h]
    else hosts[i := h.(section := hosts[i].section)]
  }

  /** `update_dhcp_client`; a found section without an address or a hostname is a KeyError. */
  function UpdateHost(hosts: seq<Host>, lan: Lan, section: string,
                      ip: string, oldMac: string, mac: string, name: string): Outcome {
    if lan.combo.None? then Raised
    else match FirstWith(hosts, Upper(oldMac))
    case None => Refused("mac-not-exists")
    case Some(i) =>
      var h, newMac := hosts[i], Upper(mac);
      if h.ip.None? || h.name.None? then Raised
      else if h.name == Some(Text(name)) && h.ip == Some(Text(ip)) && Carries(h, newMac) then Done(hosts)
      else
        var verdict := CheckIp(hosts, lan, ip);
        if verdict.Crash? then Raised
        else if verdict.Refuse? && !(verdict.reason == "ip-exists" && h.ip == Some(Text(ip))) then Refused(verdict.reason)
        else if !NameFree(hosts, name) && h.name != Some(Text(name)) then Refused("hostname-exists")
        else if FirstWith(hosts, newMac).Some? && !Carries(h, newMac) then Refused("mac-exists")
        else Done(Rewritten(hosts, i, section, ip, newMac, name))
  }

  function Others(macs: seq<string>, mac: string): (r: seq<string>)
    ensures forall m :: m in r <==> m in macs && m != mac
    ensures |r| <= |macs|
  {
    if macs == [] then [] else (if macs[0] == mac then [] else [macs[0]]) + Others(macs[1..], mac)
  }

  /** `delete_dhcp_client` */
  function DeleteHost(hosts: seq<Host>, mac: string): Outcome {
    match FirstWith(hosts, Upper(mac))
    case None => Refused("mac-not-exists")
    case Some(i) =>
      var macs := Macs(hosts[i].mac.value);
      if |macs| == 1 then Done(hosts[..i] + hosts[i + 1..])
      else Done(hosts[i := hosts[i].(mac := Stored(Join(Others(macs, Upper(mac)), ' ')))])
  }

  // ---------------------------------------------------------------- consistency

  predicate IsMac(m: string) {
    m != "" && Upper(m) == m && forall i | 0 <= i < |m| :: !IsBlank(m[i])
  }

  predicate GoodMacs(v: Value) {
    var macs := Macs(v);
    && macs != []
    && (forall i | 0 <= i < |macs| :: IsMac(macs[i]))
    && Distinct(macs)
  }

  /** Two sections that can stand in one config: no MAC in common and, when both have an
      address, different addresses (`ignore` aside) and different hostnames. */
  ghost predicate Compatible(g: Host, h: Host) {
    && (forall m :: !(Carries(g, m) && Carries(h, m)))
    && (Minimal(g) && Minimal(h) ==>
          && (g.ip == h.ip ==> g.ip == Some(Text("ignore")))
          && (g.name == h.name ==> g.name == None))
  }

  ghost predicate Consistent(hosts: seq<Host>) {
    && (forall i | 0 <= i < |hosts| && hosts[i].mac.Some? :: GoodMacs(hosts[i].mac.value))
    && (forall i, j | 0 <= i < j < |hosts| :: Compatible(hosts[i], hosts[j]))
  }

  /** A request the schema lets through. */
  predicate Asked(ip: string, mac: string) {
    ip != "" && IsMac(Upper(mac))
  }

  lemma {:induction false} TrimKeeps(m: string)
    requires forall i | 0 <= i < |m| :: !IsBlank(m[i])
    ensures Trim(m) == m
  {
  }

  lemma CleanedMacs(macs: seq<string>)
    requires forall i | 0 <= i < |macs| :: IsMac(macs[i])
    ensures Cleaned(macs) == macs
  {
    forall i | 0 <= i < |macs| ensures Cleaned(macs)[i] == macs[i] { TrimKeeps(macs[i]); }
  }

  /** MACs joined by blanks come apart again. */
  lemma JoinedMacs(macs: seq<string>)
    requires macs != [] && forall i | 0 <= i < |macs| :: IsMac(macs[i])
    ensures Macs(Text(Join(macs, ' '))) == macs && Join(macs, ' ') != ""
  {
    forall m | m in macs ensures ' ' !in m {
      forall i | 0 <= i < |m| ensures m[i] != ' ' { assert !IsBlank(m[i]); }
    }
    SplitUndoesJoin(macs, ' ');
    CleanedMacs(macs);
    assert macs[0] != "";
  }

  lemma OneMac(m: string)
    requires IsMac(m)
    ensures Macs(Text(m)) == [m] && Stored(m) == Some(Text(m)) && GoodMacs(Text(m))
  {
    JoinedMacs([m]);
    assert Join([m], ' ') == m;
  }

  lemma CompatibleSwaps(g: Host, h: Host)
    requires Compatible(g, h)
    ensures Compatible(h, g)
  {
  }

  // ---------------------------------------------------------------- editing a consistent list

  lemma Pair(hosts: seq<Host>, i: nat, j: nat)
    requires Consistent(hosts) && i < |hosts| && j < |hosts| && i != j
    ensures Compatible(hosts[i], hosts[j])
  {
    if j < i { CompatibleSwaps(hosts[j], hosts[i]); }
  }

  lemma AppendKeeps(hosts: seq<Host>, h: Host)
    requires Consistent(hosts) && (h.mac.Some? ==> GoodMacs(h.mac.value))
    requires forall j | 0 <= j < |hosts| :: Compatible(hosts[j], h)
    ensures Consistent(hosts + [h])
  {
    hide Compatible, GoodMacs;
  }

  lemma DropKeeps(hosts: seq<Host>, i: nat)
    requires Consistent(hosts) && i < |hosts|
    ensures Consistent(hosts[..i] + hosts[i + 1..])
  {
    hide Compatible, GoodMacs;
    var left := hosts[..i] + hosts[i + 1..];
    assert forall j | 0 <= j < |left| :: left[j] == if j < i then hosts[j] else hosts[j + 1];
  }

  lemma ReplaceKeeps(hosts: seq<Host>, i: nat, h: Host)
    requires Consistent(hosts) && i < |hosts| && (h.mac.Some? ==> GoodMacs(h.mac.value))
    requires forall j | 0 <= j < |hosts| && j != i :: Compatible(hosts[j], h)
    ensures Consistent(hosts[i := h])
  {
    hide Compatible, GoodMacs;
    forall j | i < j < |hosts| ensures Compatible(h, hosts[j]) { CompatibleSwaps(hosts[j], h); }
  }

  /** A host with a free MAC, a free or ignored address and a free hostname fits in. */
  lemma NewHostFits(hosts: seq<Host>, section: string, ip: string, mac: string, name: string)
    requires ip != "" && IsMac(mac)
    requires forall j | 0 <= j < |hosts| :: !Carries(hosts[j], mac)
    requires (ip == "ignore" || IpFree(hosts, ip)) && NameFree(hosts, name)
    ensures var h := Host(section, Stored(mac), Stored(ip), Stored(name));
      GoodMacs(h.mac.value) && forall j | 0 <= j < |hosts| :: Compatible(hosts[j], h)
  {
    OneMac(mac);
    hide Macs, GoodMacs;
  }

  lemma SetKeeps(hosts: seq<Host>, lan: Lan, section: string, ip: string, mac: string, name: string)
    requires Consistent(hosts) && Asked(ip, mac)
    ensures Consistent(After(hosts, SetHost(hosts, lan, section, ip, mac, name)))
  {
    hide Compatible, GoodMacs, Consistent, Carries;
    if SetHost(hosts, lan, section, ip, mac, name).Done? {
      NewHostFits(hosts, section, ip, Upper(mac), name);
      AppendKeeps(hosts, Host(section, Stored(Upper(mac)), Stored(ip), Stored(name)));
    }
  }

  /** What a rewritten record may share: only what the old record already had to itself. */
  lemma RewrittenFits(hosts: seq<Host>, i: nat, section: string, ip: string, mac: string, name: string)
    requires Consistent(hosts) && i < |hosts| && Minimal(hosts[i]) && ip != "" && IsMac(mac)
    requires Carries(hosts[i], mac) || forall j | 0 <= j < |hosts| :: !Carries(hosts[j], mac)
    requires ip == "ignore" || IpFree(hosts, ip) || hosts[i].ip == Some(Text(ip))
    requires NameFree(hosts, name) || hosts[i].name == Some(Text(name))
    ensures var h := Host(section, Stored(mac), Stored(ip), Stored(name));
      GoodMacs(h.mac.value) && forall j | 0 <= j < |hosts| && j != i :: Compatible(hosts[j], h)
  {
    OneMac(mac);
    hide Macs, GoodMacs, Consistent;
    forall j | 0 <= j < |hosts| && j != i
      ensures Compatible(hosts[j], Host(section, Stored(mac), Stored(ip), Stored(name)))
    {
      Pair(hosts, i, j);
    }
  }

  lemma UpdateKeeps(hosts: seq<Host>, lan: Lan, section: string, ip: string, oldMac: string, mac: string, name: string)
    requires Consistent(hosts) && Asked(ip, mac)
    ensures Consistent(After(hosts, UpdateHost(hosts, lan, section, ip, oldMac, mac, name)))
  {
    hide Compatible, GoodMacs, Consistent, Carries, Macs;
    var o := UpdateHost(hosts, lan, section, ip, oldMac, mac, name);
    if o.Done? && o.hosts != hosts {
      var i := FirstWith(hosts, Upper(oldMac)).value;
      var h := Host(section, Stored(Upper(mac)), Stored(ip), Stored(name));
      CarriesAMac(hosts[i], Upper(oldMac));
      RewrittenFits(hosts, i, section, ip, Upper(mac), name);
      if |Macs(hosts[i].mac.value)| > 1 {
        DropKeeps(hosts, i);
        var left := hosts[..i] + hosts[i + 1..];
        assert forall j | 0 <= j < |left| :: left[j] == if j < i then hosts[j] else hosts[j + 1];
        AppendKeeps(left, h);
      } else {
        RewrittenFits(hosts, i, hosts[i].section, ip, Upper(mac), name);
        ReplaceKeeps(hosts, i, h.(section := hosts[i].section));
      }
    }
  }

  lemma CarriesAMac(h: Host, mac: string)
    requires Carries(h, mac)
    ensures h.mac.Some?
  {
  }

  lemma {:induction false} OthersDistinct(macs: seq<string>, mac: string)
    requires Distinct(macs)
    ensures Distinct(Others(macs, mac))
  {
    if macs != [] {
      DistinctFirst(macs);
      OthersDistinct(macs[1..], mac);
      if macs[0] != mac {
        DistinctFirst(Others(macs, mac));
        assert Others(macs, mac)[1..] == Others(macs[1..], mac);
      }
    }
  }

  /** A record that loses one of its MACs keeps exactly the others. */
  lemma LeftMacs(v: Value, mac: string)
    requires GoodMacs(v) && |Macs(v)| > 1
    ensures var w := Stored(Join(Others(Macs(v), mac), ' '));
      w.Some? && Macs(w.value) == Others(Macs(v), mac) && GoodMacs(w.value)
  {
    var macs := Macs(v);
    var left := Others(macs, mac);
    OthersDistinct(macs, mac);
    assert left != [] by {
      var k := if macs[0] == mac then 1 else 0;
      assert macs[k] in macs && macs[k] != mac;
    }
    forall i | 0 <= i < |left| ensures IsMac(left[i]) {
      assert left[i] in left;
    }
    hide IsMac, Macs;
    JoinedMacs(left);
  }

  lemma SomeMac(v: Value)
    requires GoodMacs(v)
    ensures Macs(v) != []
  {
  }

  lemma DeleteKeeps(hosts: seq<Host>, mac: string)
    requires Consistent(hosts)
    ensures Consistent(After(hosts, DeleteHost(hosts, mac)))
  {
    hide GoodMacs, Macs;
    var found := FirstWith(hosts, Upper(mac));
    if found.Some? {
      var i := found.value;
      var macs := Macs(hosts[i].mac.value);
      if |macs| == 1 {
        DropKeeps(hosts, i);
      } else {
        SomeMac(hosts[i].mac.value);
        LeftMacs(hosts[i].mac.value, Upper(mac));
        var h := hosts[i].(mac := Stored(Join(Others(macs, Upper(mac)), ' ')));
        forall j | 0 <= j < |hosts| && j != i ensures Compatible(hosts[j], h) {
          Pair(hosts, j, i);
          forall m ensures Carries(h, m) ==> Carries(hosts[i], m) { }
        }
        ReplaceKeeps(hosts, i, h);
      }
    }
  }

  // ---------------------------------------------------------------- what one operation changes

  /** The address and the hostname that this MAC is given. */
  function Record(hosts: seq<Host>, mac: string): Option<(Option<Value>, Option<Value>)> {
    match FirstWith(hosts, mac)
    case None => None
    case Some(i) => Some((hosts[i].ip, hosts[i].name))
  }

  lemma OnlyOne(hosts: seq<Host>, i: nat, mac: string)
    requires Consistent(hosts) && i < |hosts| && Carries(hosts[i], mac)
    ensures forall j | 0 <= j < |hosts| && j != i :: !Carries(hosts[j], mac)
  {
    forall j | 0 <= j < |hosts| && j != i ensures !Carries(hosts[j], mac) { Pair(hosts, i, j); }
  }

  lemma RecordIs(hosts: seq<Host>, i: nat, mac: string)
    requires Consistent(hosts) && i < |hosts| && Carries(hosts[i], mac)
    ensures Record(hosts, mac) == Some((hosts[i].ip, hosts[i].name))
  {
    OnlyOne(hosts, i, mac);
    hide Consistent, Carries;
  }

  lemma AppendRecord(hosts: seq<Host>, h: Host, mac: string)
    requires Consistent(hosts) && Consistent(hosts + [h])
    ensures Record(hosts + [h], mac) == if Carries(h, mac) then Some((h.ip, h.name)) else Record(hosts, mac)
  {
    hide Consistent, Carries;
    var longer := hosts + [h];
    if Carries(h, mac) {
      RecordIs(longer, |hosts|, mac);
    } else if FirstWith(hosts, mac).Some? {
      RecordIs(longer, FirstWith(hosts, mac).value, mac);
    } else {
      assert forall j | 0 <= j < |hosts| :: longer[j] == hosts[j];
    }
  }

  lemma DropRecord(hosts: seq<Host>, i: nat, mac: string)
    requires Consistent(hosts) && i < |hosts|
    ensures Record(hosts[..i] + hosts[i + 1..], mac) == if Carries(hosts[i], mac) then None else Record(hosts, mac)
  {
    hide Consistent, Carries, FirstWith;
    DropKeeps(hosts, i);
    var left := hosts[..i] + hosts[i + 1..];
    assert forall j | 0 <= j < |left| :: left[j] == if j < i then hosts[j] else hosts[j + 1];
    if Carries(hosts[i], mac) {
      OnlyOne(hosts, i, mac);
    } else if FirstWith(hosts, mac).Some? {
      var j := FirstWith(hosts, mac).value;
      RecordIs(left, if j < i then j else j - 1, mac);
    }
  }

  lemma ReplaceRecord(hosts: seq<Host>, i: nat, h: Host, mac: string)
    requires Consistent(hosts) && i < |hosts| && Consistent(hosts[i := h])
    ensures Record(hosts[i := h], mac) ==
      if Carries(h, mac) then Some((h.ip, h.name)) else if Carries(hosts[i], mac) then None else Record(hosts, mac)
  {
    hide Consistent, Carries, FirstWith;
    var changed := hosts[i := h];
    if Carries(h, mac) {
      RecordIs(changed, i, mac);
    } else if Carries(hosts[i], mac) {
      OnlyOne(hosts, i, mac);
    } else if FirstWith(hosts, mac).Some? {
      RecordIs(changed, FirstWith(hosts, mac).value, mac);
    } else {
      assert forall j | 0 <= j < |hosts| && j != i :: changed[j] == hosts[j];
    }
  }

  /** A client is added exactly when its MAC and hostname are free and its address is `ignore`, or
      is a free address of a managed LAN that runs DHCP. */
  lemma SetSucceedsExactly(hosts: seq<Host>, lan: Lan, section: string, ip: string, mac: string, name: string)
    ensures SetHost(hosts, lan, section, ip, mac, name).Done? <==>
      && lan.combo.Some?
      && Record(hosts, Upper(mac)) == None
      && NameFree(hosts, name)
      && (ip == "ignore"
          || (&& Ipv4.InNetwork(ip, lan.combo.value.0, lan.combo.value.1) == Some(true)
              && lan.managed && lan.enabled == Some(true)
              && IpFree(hosts, ip)))
  {
    hide Upper, Ipv4.InNetwork, IpFree, NameFree;
  }

  /** A set client gets what was asked for it, and every other MAC keeps what it had. */
  lemma SetAddsExactly(hosts: seq<Host>, lan: Lan, section: string, ip: string, mac: string, name: string, m: string)
    requires Consistent(hosts) && Asked(ip, mac) && SetHost(hosts, lan, section, ip, mac, name).Done?
    ensures Record(After(hosts, SetHost(hosts, lan, section, ip, mac, name)), m) ==
      if m == Upper(mac) then Some((Some(Text(ip)), Stored(name))) else Record(hosts, m)
  {
    SetKeeps(hosts, lan, section, ip, mac, name);
    OneMac(Upper(mac));
    hide Consistent, Macs, Record, FirstWith, CheckIp, Upper;
    AppendRecord(hosts, Host(section, Stored(Upper(mac)), Stored(ip), Stored(name)), m);
  }

  /** Deleting removes exactly that MAC: every other one keeps its address and hostname. */
  lemma DeleteRemovesExactly(hosts: seq<Host>, mac: string, m: string)
    requires Consistent(hosts)
    ensures DeleteHost(hosts, mac).Done? <==> Record(hosts, Upper(mac)).Some?
    ensures Record(After(hosts, DeleteHost(hosts, mac)), m) == if m == Upper(mac) then None else Record(hosts, m)
  {
    DeleteKeeps(hosts, mac);
    if FirstWith(hosts, Upper(mac)).Some? {
      var i := FirstWith(hosts, Upper(mac)).value;
      var macs := Macs(hosts[i].mac.value);
      assert GoodMacs(hosts[i].mac.value);
      hide Consistent, Macs, FirstWith, Record, Upper;
      if |macs| == 1 {
        DropRecord(hosts, i, m);
      } else {
        LeftMacs(hosts[i].mac.value, Upper(mac));
        ReplaceRecord(hosts, i, hosts[i].(mac := Stored(Join(Others(macs, Upper(mac)), ' '))), m);
        if m in macs { RecordIs(hosts, i, m); }
      }
    }
  }

  /** The update would change nothing. */
  predicate UpToDate(hosts: seq<Host>, ip: string, oldMac: string, mac: string, name: string) {
    var found := FirstWith(hosts, Upper(oldMac));
    found.Some? && hosts[found.value].ip == Some(Text(ip)) && hosts[found.value].name == Some(Text(name))
      && Carries(hosts[found.value], Upper(mac))
  }

  /** An update gives the new MAC what was asked, takes away the other MACs of the old record, and
      leaves every other MAC alone. */
  lemma UpdateMovesExactly(hosts: seq<Host>, lan: Lan, section: string,
                           ip: string, oldMac: string, mac: string, name: string, m: string)
    requires Consistent(hosts) && Asked(ip, mac)
    requires UpdateHost(hosts, lan, section, ip, oldMac, mac, name).Done?
    ensures var found := FirstWith(hosts, Upper(oldMac));
      found.Some? &&
      Record(UpdateHost(hosts, lan, section, ip, oldMac, mac, name).hosts, m) ==
        if UpToDate(hosts, ip, oldMac, mac, name) then Record(hosts, m)
        else if m == Upper(mac) then Some((Some(Text(ip)), Stored(name)))
        else if Carries(hosts[found.value], m) then None
        else Record(hosts, m)
  {
    hide Consistent, Carries, Macs, Record, FirstWith, CheckIp, Upper, IpFree, NameFree, Rewritten, Stored;
    UpdateKeeps(hosts, lan, section, ip, oldMac, mac, name);
    if !UpToDate(hosts, ip, oldMac, mac, name) {
      var i := FirstWith(hosts, Upper(oldMac)).value;
      CarriesAMac(hosts[i], Upper(oldMac));
      RewrittenRecord(hosts, i, section, ip, Upper(mac), name, m);
    }
  }

  lemma RewrittenRecord(hosts: seq<Host>, i: nat, section: string, ip: string, mac: string, name: string, m: string)
    requires Consistent(hosts) && i < |hosts| && hosts[i].mac.Some? && ip != "" && IsMac(mac)
    requires Consistent(Rewritten(hosts, i, section, ip, mac, name))
    ensures Record(Rewritten(hosts, i, section, ip, mac, name), m) ==
      if m == mac then Some((Some(Text(ip)), Stored(name)))
      else if Carries(hosts[i], m) then None
      else Record(hosts, m)
  {
    var h := Host(section, Stored(mac), Stored(ip), Stored(name));
    var h' := h.(section := hosts[i].section);
    OneMac(mac);
    assert (Carries(h, m) <==> m == mac) && (Carries(h', m) <==> m == mac);
    hide Consistent, Carries, Macs, Record, IsMac;
    if |Macs(hosts[i].mac.value)| > 1 {
      DropKeeps(hosts, i);
      DropRecord(hosts, i, m);
      AppendRecord(hosts[..i] + hosts[i + 1..], h, m);
    } else {
      ReplaceRecord(hosts, i, h', m);
    }
  }

  /** The client is there, but its record lacks the address or the hostname. */
  predicate Stuck(hosts: seq<Host>, mac: string) {
    var r := Record(hosts, Upper(mac));
    r.Some? && (r.value.0 == None || r.value.1 == None)
  }

  /** When an update ends in an exception: the LAN address does not parse, the record lacks an option that
      the update reads, or there is something to change and the address check raises. */
  lemma UpdateRaisesExactly(hosts: seq<Host>, lan: Lan, section: string, ip: string, oldMac: string, mac: string, name: string)
    ensures UpdateHost(hosts, lan, section, ip, oldMac, mac, name) == Raised <==>
      || lan.combo.None?
      || Stuck(hosts, oldMac)
      || (&& Record(hosts, Upper(oldMac)).Some? && !UpToDate(hosts, ip, oldMac, mac, name)
          && CheckIp(hosts, lan, ip).Crash?)
  {
    hide CheckIp, Carries, Upper, NameFree, Rewritten;
  }

  /** A new client is stuck exactly when it was set without a hostname. */
  lemma SetClientsStuckExactly(hosts: seq<Host>, lan: Lan, section: string, ip: string, mac: string, name: string)
    requires Consistent(hosts) && Asked(ip, mac) && SetHost(hosts, lan, section, ip, mac, name).Done?
    ensures Stuck(SetHost(hosts, lan, section, ip, mac, name).hosts, mac) <==> name == ""
  {
    SetAddsExactly(hosts, lan, section, ip, mac, name, Upper(mac));
    hide SetHost, Consistent, Upper, Record;
  }

  /** An updated client is stuck exactly when there was something to change and the new hostname is empty. */
  lemma UpdatedClientsStuckExactly(hosts: seq<Host>, lan: Lan, section: string, ip: string, oldMac: string, mac: string, name: string)
    requires Consistent(hosts) && Asked(ip, mac) && UpdateHost(hosts, lan, section, ip, oldMac, mac, name).Done?
    ensures Stuck(UpdateHost(hosts, lan, section, ip, oldMac, mac, name).hosts, mac) <==>
            !UpToDate(hosts, ip, oldMac, mac, name) && name == ""
  {
    UpdateMovesExactly(hosts, lan, section, ip, oldMac, mac, name, Upper(mac));
    if UpToDate(hosts, ip, oldMac, mac, name) {
      RecordIs(hosts, FirstWith(hosts, Upper(oldMac)).value, Upper(mac));
    }
    hide UpdateHost, Consistent, Upper, Record, Carries, FirstWith;
  }

  /** No update moves a stuck client, whatever it asks and under any settings; it can be deleted. */
  lemma StuckClientsOnlyGo(hosts: seq<Host>, mac: string, lan: Lan, section: string, ip: string, newMac: string, name: string)
    requires Consistent(hosts) && Stuck(hosts, mac)
    ensures UpdateHost(hosts, lan, section, ip, mac, newMac, name) == Raised
    ensures DeleteHost(hosts, mac).Done?
  {
    UpdateRaisesExactly(hosts, lan, section, ip, mac, newMac, name);
    DeleteRemovesExactly(hosts, mac, mac);
    hide UpdateHost, DeleteHost, Consistent, Upper, Record;
  }

  // ---------------------------------------------------------------- whole runs

  datatype Request =
    | SetClient(section: string, ip: string, mac: string, name: string)
    | UpdateClient(section: string, ip: string, oldMac: string, mac: string, name: string)
    | DeleteClient(mac: string)

  predicate AskedIn(r: Request) {
    !r.DeleteClient? ==> Asked(r.ip, r.mac)
  }

  function Serve(hosts: seq<Host>, lan: Lan, r: Request): Outcome {
    match r
    case SetClient(section, ip, mac, name) => SetHost(hosts, lan, section, ip, mac, name)
    case UpdateClient(section, ip, oldMac, mac, name) => UpdateHost(hosts, lan, section, ip, oldMac, mac, name)
    case DeleteClient(mac) => DeleteHost(hosts, mac)
  }

  /** A run: the network settings may be others at every request. */
  function ServeAll(hosts: seq<Host>, run: seq<(Lan, Request)>): seq<Host>
    decreases |run|
  {
    if run == [] then hosts else ServeAll(After(hosts, Serve(hosts, run[0].0, run[0].1)), run[1..])
  }

  /** The three uniqueness rules hold after every run of requests. */
  lemma {:induction false} EveryRunKeepsHostsConsistent(hosts: seq<Host>, run: seq<(Lan, Request)>)
    requires Consistent(hosts) && forall k | 0 <= k < |run| :: AskedIn(run[k].1)
    ensures Consistent(ServeAll(hosts, run))
    decreases |run|
  {
    if run != [] {
      var (lan, r) := run[0];
      match r {
        case SetClient(section, ip, mac, name) => SetKeeps(hosts, lan, section, ip, mac, name);
        case UpdateClient(section, ip, oldMac, mac, name) => UpdateKeeps(hosts, lan, section, ip, oldMac, mac, name);
        case DeleteClient(mac) => DeleteKeeps(hosts, mac);
      }
      EveryRunKeepsHostsConsistent(After(hosts, Serve(hosts, lan, r)), run[1..]);
    }
  }
}
