/** Static DHCP clients in the store: the three operations run against the dhcp config, each proved
    to do what the rules of LanHosts say. */
module LanClients {
  import opened Wrappers
  import opened Texts
  import opened UciStore
  import opened UciOptions
  import opened LanHosts
  import Literals
  import Ipv4

  // ---------------------------------------------------------------- reading

  function HostNames(st: Store): seq<string> {
    SectionsByType(st, "dhcp", "host")
  }

  function HostAt(st: Store, n: string): Host {
    Host(n, Get(st, "dhcp", n, "mac"), Get(st, "dhcp", n, "ip"), Get(st, "dhcp", n, "name"))
  }

  function HostsAt(st: Store, names: seq<string>): seq<Host> {
    seq(|names|, i requires 0 <= i < |names| => HostAt(st, names[i]))
  }

  function HostsOf(st: Store): seq<Host> {
    HostsAt(st, HostNames(st))
  }

  /** `get_network_combo` without the gateway */
  function NetworkCombo(st: Store): Option<(string, string)> {
    Ipv4.Combo(First(Some(GetOr(st, "network", "lan", "ipaddr", "192.168.1.1"))),
               PyText(GetOr(st, "network", "lan", "netmask", "255.255.255.0")))
  }

  /** Whether DHCP runs on the LAN; None where the flag is no boolean. */
  function DhcpEnabled(st: Store): Option<bool> {
    match ReadBool(st, "dhcp", "lan", "ignore", false)
    case None => None
    case Some(ignore) => Some(!ignore)
  }

  function LanOf(st: Store): Lan {
    Lan(NetworkCombo(st), GetOr(st, "network", "lan", "_turris_mode", "managed") == Text("managed"), DhcpEnabled(st))
  }

  // ---------------------------------------------------------------- what an edit does to the hosts

  /** A host section at the end of the config; every other section as it was. */
  ghost predicate HostAdded(st: Store, st': Store, h: Host) {
    && Order(st', "dhcp") == Order(st, "dhcp") + [h.section]
    && (forall s :: Kind(st', "dhcp", s) == if s == h.section then Some("host") else Kind(st, "dhcp", s))
    && (forall s, o :: s != h.section ==> Get(st', "dhcp", s, o) == Get(st, "dhcp", s, o))
    && HostAt(st', h.section) == h
  }

  /** One section now holds this host; every other section as it was. */
  ghost predicate HostChanged(st: Store, st': Store, h: Host) {
    && ShapeOf(st') == ShapeOf(st)
    && (forall s, o :: s != h.section ==> Get(st', "dhcp", s, o) == Get(st, "dhcp", s, o))
    && HostAt(st', h.section) == h
  }

  lemma NamesAdded(st: Store, st': Store, h: Host)
    requires WellOrdered(st, "dhcp") && !Has(st, "dhcp", h.section) && HostAdded(st, st', h)
    ensures HostNames(st') == HostNames(st) + [h.section]
  {
    hide ConfigsIn, ShapeOf, KindIn, OrderIn, Get, HostAt;
    var names := Order(st, "dhcp");
    OfKindAppends(st', "dhcp", names, [h.section], "host");
    OfKindSame(st, st', "dhcp", names, "host");
    assert OfKind(st', "dhcp", [h.section], "host") == [h.section];
  }

  lemma HostsAdded(st: Store, st': Store, h: Host)
    requires WellOrdered(st, "dhcp") && !Has(st, "dhcp", h.section) && HostAdded(st, st', h)
    ensures WellOrdered(st', "dhcp") && HostsOf(st') == HostsOf(st) + [h]
  {
    hide ConfigsIn, ShapeOf, KindIn, OrderIn, Get, HostAt, OfKind;
    NamesAdded(st, st', h);
    forall i | 0 <= i < |HostNames(st)| ensures HostsOf(st')[i] == HostsOf(st)[i] {
      assert HostNames(st)[i] in HostNames(st);
      SameHost(st, st', HostNames(st)[i]);
    }
  }

  lemma SameHost(st: Store, st': Store, n: string)
    requires SameOptions(st, st', "dhcp", n)
    ensures HostAt(st', n) == HostAt(st, n)
  {
    hide Get;
  }

  lemma HostsChanged(st: Store, st': Store, i: nat, h: Host)
    requires WellOrdered(st, "dhcp") && i < |HostNames(st)| && h.section == HostNames(st)[i] && HostChanged(st, st', h)
    ensures WellOrdered(st', "dhcp") && HostsOf(st') == HostsOf(st)[i := h]
  {
    OfKindDistinct(st, "dhcp", Order(st, "dhcp"), "host");
    OfKindSame(st, st', "dhcp", Order(st, "dhcp"), "host");
    hide ConfigsIn, ShapeOf, KindIn, OrderIn, Get, HostAt;
    forall j | 0 <= j < |HostNames(st)| && j != i ensures HostsOf(st')[j] == HostsOf(st)[j] {
      SameHost(st, st', HostNames(st)[j]);
    }
  }

  lemma OfKindFirst(st: Store, c: string, s: string, rest: seq<string>, kind: string)
    ensures OfKind(st, c, [s] + rest, kind) == (if Kind(st, c, s) == Some(kind) then [s] else []) + OfKind(st, c, rest, kind)
  {
    assert ([s] + rest)[1..] == rest;
  }

  lemma WithoutFirst(s: string, rest: seq<string>, n: string)
    ensures Without([s] + rest, n) == (if s == n then [] else [s]) + Without(rest, n)
  {
    assert ([s] + rest)[1..] == rest;
  }

  lemma {:induction false} OfKindWithout(st: Store, st': Store, c: string, names: seq<string>, kind: string, n: string)
    requires forall s | s in names && s != n :: Kind(st', c, s) == Kind(st, c, s)
    ensures OfKind(st', c, Without(names, n), kind) == Without(OfKind(st, c, names, kind), n)
  {
    if names != [] {
      var s, rest := names[0], names[1..];
      assert names == [s] + rest;
      OfKindWithout(st, st', c, rest, kind, n);
      WithoutFirst(s, rest, n);
      OfKindFirst(st, c, s, rest, kind);
      var left, kinds := Without(rest, n), OfKind(st, c, rest, kind);
      WithoutFirst(s, kinds, n);
      OfKindFirst(st', c, s, left, kind);
      hide Kind, OfKind, Without;
      NothingBefore(left);
      NothingBefore(kinds);
      NothingBefore(OfKind(st', c, left, kind));
    }
  }

  lemma NothingBefore(names: seq<string>)
    ensures [] + names == names
  {
  }

  lemma {:induction false} WithoutAt(names: seq<string>, i: nat)
    requires Distinct(names) && i < |names|
    ensures Without(names, names[i]) == names[..i] + names[i + 1..]
  {
    DistinctFirst(names);
    if i == 0 {
      WithoutNothing(names[1..], names[0]);
    } else {
      WithoutAt(names[1..], i - 1);
    }
  }

  lemma {:induction false} WithoutNothing(names: seq<string>, n: string)
    requires n !in names
    ensures Without(names, n) == names
  {
    if names != [] { WithoutNothing(names[1..], n); }
  }

  lemma NamesDropped(st: Store, st': Store, i: nat)
    requires WellOrdered(st, "dhcp") && i < |HostNames(st)| && SectionGone(st, st', "dhcp", HostNames(st)[i])
    ensures Distinct(HostNames(st)) && HostNames(st') == HostNames(st)[..i] + HostNames(st)[i + 1..]
  {
    OfKindDistinct(st, "dhcp", Order(st, "dhcp"), "host");
    OfKindWithout(st, st', "dhcp", Order(st, "dhcp"), "host", HostNames(st)[i]);
    WithoutAt(HostNames(st), i);
    hide ConfigsIn, ShapeOf, KindIn, OrderIn, Get, OfKind, Without;
  }

  lemma HostsDropped(st: Store, st': Store, i: nat)
    requires WellOrdered(st, "dhcp") && i < |HostNames(st)| && SectionGone(st, st', "dhcp", HostNames(st)[i])
    ensures WellOrdered(st', "dhcp") && HostsOf(st') == HostsOf(st)[..i] + HostsOf(st)[i + 1..]
  {
    hide ConfigsIn, ShapeOf, KindIn, OrderIn, Get, HostAt, HostNames, WellOrdered;
    var names := HostNames(st);
    GoneOrdered(st, st', "dhcp", names[i]);
    NamesDropped(st, st', i);
    forall j | 0 <= j < |names| && j != i ensures HostAt(st', names[j]) == HostAt(st, names[j]) {
      SameHost(st, st', names[j]);
    }
  }

  // ---------------------------------------------------------------- the operations

  /** Only host sections of the dhcp config changed. */
  ghost predicate OnlyHosts(st: Store, st': Store) {
    && (forall c, s :: !(c == "dhcp" && (Kind(st, c, s) == Some("host") || Kind(st', c, s) == Some("host"))) ==>
          Kind(st', c, s) == Kind(st, c, s))
    && (forall c, s, o :: !(c == "dhcp" && (Kind(st, c, s) == Some("host") || Kind(st', c, s) == Some("host"))) ==>
          Get(st', c, s, o) == Get(st, c, s, o))
  }

  /** Only this host section changed. */
  ghost predicate OnlyHost(st: Store, st': Store, n: string) {
    && (forall c, s :: !(s == n && c == "dhcp") ==> Kind(st', c, s) == Kind(st, c, s))
    && (forall c, s, o :: !(s == n && c == "dhcp") ==> Get(st', c, s, o) == Get(st, c, s, o))
  }

  method WriteHost(backend: UciBackend, n: string, mac: string, ip: string, name: string)
    requires backend.Valid() && !backend.raised && Has(backend.View(), "dhcp", n)
    modifies backend
    ensures backend.InBlock() && !backend.raised
    ensures HostChanged(old(backend.View()), backend.View(), Host(n, Stored(mac), Stored(ip), Stored(name)))
    ensures OnlyHost(old(backend.View()), backend.View(), n)
  {
    hide ConfigsIn, ShapeOf, KindIn, OrderIn, Get, Stored, Fingerprint;
    Literals.CommonOptions();
    Literals.DhcpOptions();
    backend.SetOption("dhcp", n, "mac", mac);
    backend.SetOption("dhcp", n, "ip", ip);
    backend.SetOption("dhcp", n, "name", name);
  }

  /** A new anonymous host section with its three options. */
  method AddHost(backend: UciBackend, invented: string, mac: string, ip: string, name: string)
    requires backend.Valid() && !backend.raised && HasConfig(backend.View(), "dhcp")
    requires invented != "" && !Has(backend.View(), "dhcp", invented)
    modifies backend
    ensures backend.InBlock() && !backend.raised
    ensures HostAdded(old(backend.View()), backend.View(), Host(invented, Stored(mac), Stored(ip), Stored(name)))
    ensures OnlyHost(old(backend.View()), backend.View(), invented)
  {
    hide ConfigsIn, ShapeOf, KindIn, OrderIn, Get, Stored;
    var n := backend.AddAnonymous("dhcp", "host", invented);
    WriteHost(backend, n, mac, ip, name);
  }

  /** The reply, the exception and the hosts on disk are those of the rule. */
  ghost predicate Answers(o: Outcome, st: Store, st': Store, raised: bool, reply: Option<string>) {
    && raised == o.Raised?
    && reply == (if o.Refused? then Some(o.reason) else None)
    && HostsOf(st') == After(HostsOf(st), o)
    && OnlyHosts(st, st')
    && WellOrdered(st', "dhcp")
  }

  /** An operation needs the configs it reads. */
  function IfPresent(present: bool, o: Outcome): Outcome {
    if present then o else Raised
  }

  /** The other two options of a new client: an endless lease, and a name in the local DNS. */
  ghost predicate LeaseForever(st: Store, n: string) {
    && Get(st, "dhcp", n, "leasetime") == Stored("infinite")
    && Get(st, "dhcp", n, "dns") == Stored(StoreBool(true))
  }

  /** `set_dhcp_client` */
  method SetDhcpClient(backend: UciBackend, ip: string, mac: string, hostname: string, invented: string)
    returns (reply: Option<string>)
    requires WellOrdered(backend.committed, "dhcp") && invented != "" && !Has(backend.committed, "dhcp", invented)
    modifies backend
    ensures var st := old(backend.committed);
      Answers(IfPresent(HasConfig(st, "dhcp") && HasConfig(st, "network"),
                        SetHost(HostsOf(st), LanOf(st), invented, ip, mac, hostname)),
              st, backend.committed, backend.raised, reply)
    ensures !backend.raised && reply == None ==> LeaseForever(backend.committed, invented)
  {
    hide ConfigsIn, ShapeOf, KindIn, OrderIn, Get, Stored, Fingerprint, HostsOf, LanOf, WellOrdered, CheckIp, FirstWith, NameFree, Upper, LeaseForever;
    backend.Enter();
    reply := None;
    var st := backend.View();
    if !HasConfig(st, "dhcp") || !HasConfig(st, "network") {
      backend.Raise();
    } else {
      var hosts, lan := HostsOf(st), LanOf(st);
      if lan.combo.None? {
        backend.Raise();
      } else if FirstWith(hosts, Upper(mac)).Some? {
        reply := Some("mac-exists");
      } else {
        var verdict := CheckIp(hosts, lan, ip);
        if verdict.Crash? {
          backend.Raise();
        } else if verdict.Refuse? {
          reply := Some(verdict.reason);
        } else if !NameFree(hosts, hostname) {
          reply := Some("hostname-exists");
        } else {
          SetInStore(backend, ip, Upper(mac), hostname, invented);
        }
      }
    }
    backend.Exit();
  }

  /** The edits of `set_dhcp_client`. */
  method SetInStore(backend: UciBackend, ip: string, mac: string, hostname: string, invented: string)
    requires backend.Valid() && !backend.raised && HasConfig(backend.View(), "dhcp") && WellOrdered(backend.View(), "dhcp")
    requires invented != "" && !Has(backend.View(), "dhcp", invented)
    modifies backend
    ensures backend.InBlock() && !backend.raised && WellOrdered(backend.View(), "dhcp")
    ensures OnlyHosts(old(backend.View()), backend.View())
    ensures HostsOf(backend.View()) ==
      HostsOf(old(backend.View())) + [Host(invented, Stored(mac), Stored(ip), Stored(hostname))]
    ensures LeaseForever(backend.View(), invented)
  {
    hide ConfigsIn, ShapeOf, KindIn, OrderIn, Get, Stored, HostsOf, WellOrdered, HostAdded, LeaseForever, OnlyHost, LeaseOnly, OnlyHosts;
    ghost var st := backend.View();
    AddHost(backend, invented, mac, ip, hostname);
    ghost var st1 := backend.View();
    ghost var h := Host(invented, Stored(mac), Stored(ip), Stored(hostname));
    AddedIsHost(st, st1, h);
    LeaseHost(backend, invented);
    LeasedStillAdded(st, st1, backend.View(), h);
    HostsAdded(st, backend.View(), h);
  }

  /** Only these two options of the section changed. */
  ghost predicate LeaseOnly(st: Store, st': Store, n: string) {
    && ShapeOf(st') == ShapeOf(st)
    && (forall c, s, o :: !(c == "dhcp" && s == n && (o == "leasetime" || o == "dns")) ==> Get(st', c, s, o) == Get(st, c, s, o))
  }

  method LeaseHost(backend: UciBackend, n: string)
    requires backend.Valid() && !backend.raised && Has(backend.View(), "dhcp", n)
    modifies backend
    ensures backend.InBlock() && !backend.raised
    ensures LeaseOnly(old(backend.View()), backend.View(), n) && LeaseForever(backend.View(), n)
  {
    hide ConfigsIn, ShapeOf, KindIn, OrderIn, Get, Stored, Fingerprint, StoreBool;
    Literals.CommonOptions();
    backend.SetOption("dhcp", n, "leasetime", "infinite");
    backend.SetOption("dhcp", n, "dns", StoreBool(true));
  }

  lemma AddedIsHost(st: Store, st': Store, h: Host)
    requires HostAdded(st, st', h)
    ensures Has(st', "dhcp", h.section)
  {
    hide ConfigsIn, ShapeOf, KindIn, OrderIn, Get;
  }

  lemma LeasedStillAdded(st: Store, st1: Store, st2: Store, h: Host)
    requires HostAdded(st, st1, h) && OnlyHost(st, st1, h.section) && LeaseOnly(st1, st2, h.section)
    ensures HostAdded(st, st2, h) && OnlyHosts(st, st2)
  {
    hide ConfigsIn, ShapeOf, KindIn, OrderIn, Get, Fingerprint;
    LeaseIsNoHostOption();
    assert Get(st2, "dhcp", h.section, "mac") == Get(st1, "dhcp", h.section, "mac");
    assert Get(st2, "dhcp", h.section, "ip") == Get(st1, "dhcp", h.section, "ip");
    assert Get(st2, "dhcp", h.section, "name") == Get(st1, "dhcp", h.section, "name");
    assert forall c, s :: Kind(st2, c, s) == Kind(st1, c, s);
    assert Kind(st2, "dhcp", h.section) == Some("host");
  }

  lemma LeaseIsNoHostOption()
    ensures "mac" != "leasetime" && "ip" != "leasetime" && "name" != "leasetime"
    ensures "mac" != "dns" && "ip" != "dns" && "name" != "dns"
  {
    hide Fingerprint;
    Literals.CommonOptions();
    Literals.DhcpOptions();
  }

  /** `update_dhcp_client` */
  method UpdateDhcpClient(backend: UciBackend, ip: string, oldMac: string, mac: string, hostname: string, invented: string)
    returns (reply: Option<string>)
    requires WellOrdered(backend.committed, "dhcp") && invented != "" && !Has(backend.committed, "dhcp", invented)
    modifies backend
    ensures var st := old(backend.committed);
      Answers(IfPresent(HasConfig(st, "dhcp") && HasConfig(st, "network"),
                        UpdateHost(HostsOf(st), LanOf(st), invented, ip, oldMac, mac, hostname)),
              st, backend.committed, backend.raised, reply)
  {
    hide ConfigsIn, ShapeOf, KindIn, OrderIn, Get, Stored, Fingerprint, HostsOf, LanOf, WellOrdered, CheckIp, FirstWith, NameFree, Upper, Carries, Rewritten;
    backend.Enter();
    reply := None;
    var st := backend.View();
    if !HasConfig(st, "dhcp") || !HasConfig(st, "network") {
      backend.Raise();
    } else {
      var hosts, lan := HostsOf(st), LanOf(st);
      var found := FirstWith(hosts, Upper(oldMac));
      if lan.combo.None? {
        backend.Raise();
      } else if found.None? {
        reply := Some("mac-not-exists");
      } else {
        var h := hosts[found.value];
        if h.ip.None? || h.name.None? {
          backend.Raise();
        } else if !(h.name == Some(Text(hostname)) && h.ip == Some(Text(ip)) && Carries(h, Upper(mac))) {
          var verdict := CheckIp(hosts, lan, ip);
          if verdict.Crash? {
            backend.Raise();
          } else if verdict.Refuse? && !(verdict.reason == "ip-exists" && h.ip == Some(Text(ip))) {
            reply := Some(verdict.reason);
          } else if !NameFree(hosts, hostname) && h.name != Some(Text(hostname)) {
            reply := Some("hostname-exists");
          } else if FirstWith(hosts, Upper(mac)).Some? && !Carries(h, Upper(mac)) {
            reply := Some("mac-exists");
          } else {
            CarriesAMac(h, Upper(oldMac));
            UpdateInStore(backend, found.value, ip, Upper(mac), hostname, invented);
          }
        }
      }
    }
    backend.Exit();
  }

  /** Where a host section is in the config. */
  lemma HostSection(st: Store, i: nat)
    requires i < |HostsOf(st)|
    ensures i < |HostNames(st)| && HostsOf(st)[i].section == HostNames(st)[i]
    ensures Kind(st, "dhcp", HostsOf(st)[i].section) == Some("host") && HasConfig(st, "dhcp")
  {
    var n := HostNames(st)[i];
    assert n in HostNames(st);
    assert Kind(st, "dhcp", n) == Some("host");
  }

  /** The edits of `update_dhcp_client`. */
  method UpdateInStore(backend: UciBackend, i: nat, ip: string, mac: string, hostname: string, invented: string)
    requires backend.Valid() && !backend.raised && WellOrdered(backend.View(), "dhcp")
    requires i < |HostsOf(backend.View())| && HostsOf(backend.View())[i].mac.Some?
    requires invented != "" && !Has(backend.View(), "dhcp", invented)
    modifies backend
    ensures backend.InBlock() && !backend.raised && WellOrdered(backend.View(), "dhcp")
    ensures OnlyHosts(old(backend.View()), backend.View())
    ensures HostsOf(backend.View()) == Rewritten(HostsOf(old(backend.View())), i, invented, ip, mac, hostname)
  {
    hide ConfigsIn, ShapeOf, KindIn, OrderIn, Get, Stored, HostsOf, WellOrdered, Macs, HostAt;
    var h := HostsOf(backend.View())[i];
    HostSection(backend.View(), i);
    if |Macs(h.mac.value)| > 1 {
      backend.DelSection("dhcp", h.section, false);
      HostsDropped(old(backend.View()), backend.View(), i);
      label dropped:
      AddHost(backend, invented, mac, ip, hostname);
      HostsAdded(old@dropped(backend.View()), backend.View(), Host(invented, Stored(mac), Stored(ip), Stored(hostname)));
    } else {
      WriteHost(backend, h.section, mac, ip, hostname);
      HostsChanged(old(backend.View()), backend.View(), i, Host(h.section, Stored(mac), Stored(ip), Stored(hostname)));
    }
  }

  /** `delete_dhcp_client` */
  method DeleteDhcpClient(backend: UciBackend, mac: string) returns (reply: Option<string>)
    requires WellOrdered(backend.committed, "dhcp")
    modifies backend
    ensures var st := old(backend.committed);
      Answers(IfPresent(HasConfig(st, "dhcp"), DeleteHost(HostsOf(st), mac)), st, backend.committed, backend.raised, reply)
  {
    hide ConfigsIn, ShapeOf, KindIn, OrderIn, Get, Stored, Fingerprint, HostsOf, WellOrdered, FirstWith, Upper, Macs, Others, Join;
    backend.Enter();
    reply := None;
    var st := backend.View();
    if !HasConfig(st, "dhcp") {
      backend.Raise();
    } else {
      var hosts := HostsOf(st);
      var found := FirstWith(hosts, Upper(mac));
      if found.None? {
        reply := Some("mac-not-exists");
      } else {
        DeleteInStore(backend, found.value, Upper(mac));
      }
    }
    backend.Exit();
  }

  /** The edit of `delete_dhcp_client`: a record of one MAC goes, another keeps its other MACs. */
  method DeleteInStore(backend: UciBackend, i: nat, mac: string)
    requires backend.Valid() && !backend.raised && WellOrdered(backend.View(), "dhcp")
    requires i < |HostsOf(backend.View())| && HostsOf(backend.View())[i].mac.Some?
    modifies backend
    ensures backend.InBlock() && !backend.raised && WellOrdered(backend.View(), "dhcp")
    ensures OnlyHosts(old(backend.View()), backend.View())
    ensures var hosts := HostsOf(old(backend.View()));
      var macs := Macs(hosts[i].mac.value);
      HostsOf(backend.View()) ==
        if |macs| == 1 then hosts[..i] + hosts[i + 1..]
        else hosts[i := hosts[i].(mac := Stored(Join(Others(macs, mac), ' ')))]
  {
    hide ConfigsIn, ShapeOf, KindIn, OrderIn, Get, Stored, HostsOf, WellOrdered, Macs, Fingerprint, Others, Join;
    Literals.CommonOptions();
    Literals.DhcpOptions();
    var h := HostsOf(backend.View())[i];
    var macs := Macs(h.mac.value);
    HostSection(backend.View(), i);
    HostIs(backend.View(), i);
    if |macs| == 1 {
      backend.DelSection("dhcp", h.section, false);
      HostsDropped(old(backend.View()), backend.View(), i);
    } else {
      var left := Join(Others(macs, mac), ' ');
      backend.SetOption("dhcp", h.section, "mac", left);
      HostsChanged(old(backend.View()), backend.View(), i, h.(mac := Stored(left)));
    }
  }

  lemma HostIs(st: Store, i: nat)
    requires i < |HostsOf(st)|
    ensures HostsOf(st)[i] == HostAt(st, HostNames(st)[i])
  {
    hide HostAt;
  }

  /** Whatever the three operations answer, the hosts on disk stay consistent. */
  lemma AnswersKeepHostsConsistent(st: Store, st': Store, lan: Lan, r: Request, present: bool, raised: bool, reply: Option<string>)
    requires Consistent(HostsOf(st)) && AskedIn(r)
    requires Answers(IfPresent(present, Serve(HostsOf(st), lan, r)), st, st', raised, reply)
    ensures Consistent(HostsOf(st')) && WellOrdered(st', "dhcp")
  {
    hide Consistent, HostsOf, WellOrdered;
    EveryRunKeepsHostsConsistent(HostsOf(st), [(lan, r)]);
    assert ServeAll(HostsOf(st), [(lan, r)]) == After(HostsOf(st), Serve(HostsOf(st), lan, r)) by {
      assert [(lan, r)][1..] == [];
    }
  }
}
