/** What happens to static hosts when the LAN gets another address: the ones in the way of the
    dynamic pool and the ones left behind in the old network go, in one pass over the sections. */
module LanPruning {
  import opened Wrappers
  import opened Texts
  import opened UciStore
  import opened LanHosts
  import opened LanClients
  import Ipv4

  // ---------------------------------------------------------------- the rule

  /** The old network (empty texts when unknown), the new one, and the pool. */
  datatype Move = Move(oldRouter: string, oldMask: string, router: string, mask: string, start: nat, limit: nat)

  /** What the pass does to one section.  Fails is an exception: a text that does not parse, a range
      that leaves the address space, or the second delete of a section that is already gone. */
  datatype Fate = Stays | Goes | Fails

  predicate HasRealIp(h: Host) {
    h.ip.Some? && h.ip != Some(Text("ignore"))
  }

  function FateOf(h: Host, mv: Move): Fate {
    if !HasRealIp(h) then Stays
    else if h.ip.value.Items? then Fails
    else
      var ip := h.ip.value.text;
      match Ipv4.InRange(ip, mv.router, mv.start, mv.limit)
      case None => Fails
      case Some(inPool) =>
        if mv.oldRouter == "" || mv.oldMask == "" then (if inPool then Goes else Stays)
        else match Ipv4.InNetwork(ip, mv.oldRouter, mv.oldMask)
          case None => Fails
          case Some(false) => if inPool then Goes else Stays
          case Some(true) =>
            match Ipv4.InNetwork(ip, mv.router, mv.mask)
            case None => Fails
            case Some(inNew) =>
              if inPool && !inNew then Fails else if inPool || !inNew then Goes else Stays
  }

  function Survivors(hosts: seq<Host>, mv: Move): (r: seq<Host>)
    ensures forall h :: h in r <==> h in hosts && FateOf(h, mv) == Stays
  {
    if hosts == [] then []
    else (if FateOf(hosts[0], mv) == Stays then [hosts[0]] else []) + Survivors(hosts[1..], mv)
  }

  /** The pass ends normally. */
  predicate Passes(hosts: seq<Host>, mv: Move) {
    forall i | 0 <= i < |hosts| :: FateOf(hosts[i], mv) != Fails
  }

  // ---------------------------------------------------------------- in numbers

  /** The address of a host that has a real one. */
  function AddressOf(h: Host): Option<Ipv4.Address> {
    if HasRealIp(h) && h.ip.value.Text? then Ipv4.ParseIp(h.ip.value.text) else None
  }

  /** All texts parse: the move as numbers. */
  datatype Nets = Nets(oldRouter: Ipv4.Address, oldPrefix: Ipv4.Prefix, router: Ipv4.Address, prefix: Ipv4.Prefix, start: nat, limit: nat)

  predicate Reads(mv: Move, n: Nets) {
    && mv.start == n.start && mv.limit == n.limit
    && mv.oldRouter != "" && mv.oldMask != ""
    && Ipv4.ParseIp(mv.router) == Some(n.router)
    && |Split(mv.oldRouter, '/')| != 2 && |Split(mv.router, '/')| != 2
    && Ipv4.ParseInterface(Join([mv.oldRouter, mv.oldMask], '/')) == Some((n.oldRouter, n.oldPrefix))
    && Ipv4.ParseInterface(Join([mv.router, mv.mask], '/')) == Some((n.router, n.prefix))
  }

  predicate InOld(a: nat, n: Nets) {
    Ipv4.InNet(a, Ipv4.NetworkAddress(n.oldRouter, n.oldPrefix), n.oldPrefix)
  }

  predicate InNew(a: nat, n: Nets) {
    Ipv4.InNet(a, Ipv4.NetworkAddress(n.router, n.prefix), n.prefix)
  }

  predicate InPool(a: nat, n: Nets) {
    n.router + n.start <= a <= n.router + n.start + n.limit
  }

  /** The pruned range lies in the address space; adding to an address beyond it raises. */
  predicate PoolExists(n: Nets) {
    n.router + n.start + n.limit < Ipv4.TOP
  }

  lemma FateInNumbers(h: Host, mv: Move, n: Nets)
    requires Reads(mv, n) && AddressOf(h).Some?
    ensures var a := AddressOf(h).value;
      FateOf(h, mv) == if !PoolExists(n) then Fails
                       else if InOld(a, n) && !InNew(a, n) then (if InPool(a, n) then Fails else Goes)
                       else if InPool(a, n) then Goes
                       else Stays
  {
    hide Ipv4.ParseIp, Ipv4.ParseInterface, Split, Join, Ipv4.NetworkAddress;
  }

  /** Survivors are exactly the hosts without a real address and those outside the pool that did not
      fall out of the new network. */
  lemma PruningIsExact(hosts: seq<Host>, mv: Move, n: Nets)
    requires Reads(mv, n) && Passes(hosts, mv)
    requires forall h | h in hosts && HasRealIp(h) :: AddressOf(h).Some?
    ensures forall h | h in hosts ::
      h in Survivors(hosts, mv) <==>
        HasRealIp(h) ==> var a := AddressOf(h).value; !InPool(a, n) && !(InOld(a, n) && !InNew(a, n))
  {
    hide Ipv4.ParseIp, Reads, InOld, InNew, InPool;
    forall h | h in hosts && HasRealIp(h)
      ensures var a := AddressOf(h).value;
        h in Survivors(hosts, mv) <==> !InPool(a, n) && !(InOld(a, n) && !InNew(a, n))
    {
      FateInNumbers(h, mv, n);
      hide FateOf, AddressOf;
      var i :| 0 <= i < |hosts| && hosts[i] == h;
      assert FateOf(hosts[i], mv) != Fails;
    }
  }

  /** Nobody is left outside: if every real address was in the old network, every surviving one is
      in the new network. */
  lemma SurvivorsAreInTheNewNetwork(hosts: seq<Host>, mv: Move, n: Nets)
    requires Reads(mv, n) && Passes(hosts, mv)
    requires forall h | h in hosts && HasRealIp(h) :: AddressOf(h).Some? && InOld(AddressOf(h).value, n)
    ensures forall h | h in Survivors(hosts, mv) && HasRealIp(h) :: InNew(AddressOf(h).value, n)
  {
    hide Ipv4.ParseIp, Reads, InOld, InNew, InPool, FateOf;
    PruningIsExact(hosts, mv, n);
  }

  lemma UnaddressedStays(h: Host, mv: Move)
    requires !HasRealIp(h)
    ensures FateOf(h, mv) == Stays
  {
  }

  /** The exact condition of the rollback: some host has a real address, and the pruned range leaves the
      address space, or the host is in that range, left the old network and is not in the new one, so that
      both tests delete it. */
  lemma FailsExactly(hosts: seq<Host>, mv: Move, n: Nets)
    requires Reads(mv, n)
    requires forall h | h in hosts && HasRealIp(h) :: AddressOf(h).Some?
    ensures Passes(hosts, mv) <==>
      forall h | h in hosts && HasRealIp(h) ::
        PoolExists(n) && var a := AddressOf(h).value; !(InPool(a, n) && InOld(a, n) && !InNew(a, n))
  {
    hide Ipv4.ParseIp, Reads, InOld, InNew, InPool, PoolExists;
    forall h | h in hosts && HasRealIp(h)
      ensures var a := AddressOf(h).value;
        FateOf(h, mv) == Fails <==> !PoolExists(n) || (InPool(a, n) && InOld(a, n) && !InNew(a, n))
    {
      FateInNumbers(h, mv, n);
    }
    hide FateOf, AddressOf;
    if Passes(hosts, mv) {
      forall h | h in hosts && HasRealIp(h) ensures FateOf(h, mv) != Fails {
        var i :| 0 <= i < |hosts| && hosts[i] == h;
        assert FateOf(hosts[i], mv) != Fails;
      }
    }
    forall i | 0 <= i < |hosts| && !HasRealIp(hosts[i]) ensures FateOf(hosts[i], mv) != Fails {
      UnaddressedStays(hosts[i], mv);
    }
  }

  /** A guard for callers: a range that ends inside the new network is never in the way twice. */
  lemma PoolInsideTheNetworkPasses(hosts: seq<Host>, mv: Move, n: Nets)
    requires Reads(mv, n) && PoolExists(n) && InNew(n.router + n.start + n.limit, n)
    requires forall h | h in hosts && HasRealIp(h) :: AddressOf(h).Some?
    ensures Passes(hosts, mv)
  {
    FailsExactly(hosts, mv, n);
    var net := Ipv4.NetworkAddress(n.router, n.prefix);
    Ipv4.NetworkAddressAligned(n.router, n.prefix);
    hide Ipv4.ParseIp, Reads, InOld, AddressOf, Ipv4.NetworkAddress;
    Ipv4.WithinNet(n.router + n.start + n.limit, net, n.prefix);
    forall h | h in hosts && HasRealIp(h) && InPool(AddressOf(h).value, n) ensures InNew(AddressOf(h).value, n) {
      Ipv4.WithinNet(AddressOf(h).value, net, n.prefix);
    }
  }

  /** A move whose addresses are printed from numbers. */
  function Printed(n: Nets): Move {
    Move(Ipv4.PrintIp(n.oldRouter), Ipv4.PrintIp(Ipv4.MaskOf(n.oldPrefix)),
         Ipv4.PrintIp(n.router), Ipv4.PrintIp(Ipv4.MaskOf(n.prefix)), n.start, n.limit)
  }

  lemma PrintedReads(n: Nets)
    ensures Reads(Printed(n), n)
  {
    Ipv4.PrintedIpParses(n.router);
    PrintedIsText(n.oldRouter);
    PrintedIsText(Ipv4.MaskOf(n.oldPrefix));
    Ipv4.PrintedInterfaceParses(n.oldRouter, n.oldPrefix);
    Ipv4.PrintedInterfaceParses(n.router, n.prefix);
    hide Ipv4.PrintIp, Ipv4.MaskOf, Ipv4.ParseIp, Ipv4.ParseInterface, Split, Join;
  }

  lemma PrintedIsText(a: Ipv4.Address)
    ensures Ipv4.PrintIp(a) != ""
  {
    Ipv4.PrintedIpParses(a);
    NothingIsNoAddress();
    hide Ipv4.PrintIp, Ipv4.ParseIp;
  }

  lemma NothingIsNoAddress()
    ensures Ipv4.ParseIp("") == None
  {
    SplitWhole("", '.');
    hide Split;
  }

  /** It does happen: from 192.168.0.1/16 to 192.168.1.200/24 with the pool at 100..150, which the
      pool check accepts, a host at 192.168.2.50 is deleted twice and the update is rolled back. */
  lemma DoubleDeleteHappens(h: Host)
    requires h.ip == Some(Text(Ipv4.PrintIp(0xC0A8_0232)))
    ensures var mv := Printed(Nets(0xC0A8_0001, 16, 0xC0A8_01C8, 24, 100, 50));
      && Ipv4.CheckDynamicRanges(mv.router, mv.mask, mv.start, mv.limit) == Some(true)
      && FateOf(h, mv) == Fails
      && !Passes([h], mv)
  {
    hide Ipv4.PrintIp, Ipv4.MaskOf, Ipv4.ParseIp, Ipv4.PrefixOf, Reads, FateOf, Ipv4.CheckDynamicRanges, AddressOf;
    var n := Nets(0xC0A8_0001, 16, 0xC0A8_01C8, 24, 100, 50);
    PrintedReads(n);
    ExamplePool();
    RealPrinted(h, 0xC0A8_0232);
    FateInNumbers(h, Printed(n), n);
    ExampleHost(n);
    assert FateOf([h][0], Printed(n)) == Fails;
  }

  /** The other failure happens too: a router at 255.255.255.250/24 with the pool at 100..150, which the pool
      check accepts because it counts from the network address.  Every host with a real address stops it. */
  lemma OverflowHappens(h: Host, oldRouter: Ipv4.Address, oldPrefix: Ipv4.Prefix)
    requires AddressOf(h).Some?
    ensures var mv := Printed(Nets(oldRouter, oldPrefix, 0xFFFF_FFFA, 24, 100, 50));
      && Ipv4.CheckDynamicRanges(mv.router, mv.mask, mv.start, mv.limit) == Some(true)
      && !Passes([h], mv)
  {
    var n := Nets(oldRouter, oldPrefix, 0xFFFF_FFFA, 24, 100, 50);
    hide Ipv4.PrintIp, Ipv4.MaskOf, Ipv4.ParseIp, Ipv4.PrefixOf, Reads, FateOf, Ipv4.CheckDynamicRanges, AddressOf;
    PrintedReads(n);
    OverflowPool();
    FateInNumbers(h, Printed(n), n);
    assert FateOf([h][0], Printed(n)) == Fails;
  }

  lemma OverflowPool()
    ensures Ipv4.CheckDynamicRanges(Ipv4.PrintIp(0xFFFF_FFFA), Ipv4.PrintIp(Ipv4.MaskOf(24)), 100, 50) == Some(true)
  {
    hide Ipv4.PrintIp, Ipv4.MaskOf, Ipv4.ParseIp, Ipv4.PrefixOf, Ipv4.Size;
    Ipv4.PrintedIpParses(0xFFFF_FFFA);
    Ipv4.MaskTextParses(24);
    Ipv4.Sizes();
  }

  lemma ExamplePool()
    ensures Ipv4.CheckDynamicRanges(Ipv4.PrintIp(0xC0A8_01C8), Ipv4.PrintIp(Ipv4.MaskOf(24)), 100, 50) == Some(true)
  {
    hide Ipv4.PrintIp, Ipv4.MaskOf, Ipv4.ParseIp, Ipv4.PrefixOf, Ipv4.Size;
    Ipv4.PrintedIpParses(0xC0A8_01C8);
    Ipv4.MaskTextParses(24);
    Ipv4.Sizes();
  }

  lemma ExampleHost(n: Nets)
    requires n == Nets(0xC0A8_0001, 16, 0xC0A8_01C8, 24, 100, 50)
    ensures InPool(0xC0A8_0232, n) && InOld(0xC0A8_0232, n) && !InNew(0xC0A8_0232, n)
  {
    Ipv4.Sizes();
    hide Ipv4.Size;
  }

  lemma RealPrinted(h: Host, a: Ipv4.Address)
    requires h.ip == Some(Text(Ipv4.PrintIp(a)))
    ensures AddressOf(h) == Some(a)
  {
    Ipv4.PrintedIpParses(a);
    IgnoreIsNoAddress();
    hide Ipv4.PrintIp, Ipv4.ParseIp;
  }

  lemma IgnoreIsNoAddress()
    ensures Ipv4.ParseIp("ignore") == None
  {
    SplitWhole("ignore", '.');
    hide Split;
  }

  lemma PrependKeeps(h: Host, rest: seq<Host>)
    requires Consistent(rest) && (h.mac.Some? ==> GoodMacs(h.mac.value))
    requires forall j | 0 <= j < |rest| :: Compatible(h, rest[j])
    ensures Consistent([h] + rest)
  {
    hide Compatible, GoodMacs;
  }

  /** The first host of a consistent list goes with all the others. */
  lemma FirstFits(hosts: seq<Host>)
    requires Consistent(hosts) && hosts != []
    ensures Consistent(hosts[1..]) && forall g | g in hosts[1..] :: Compatible(hosts[0], g)
  {
    hide Compatible, GoodMacs;
    var rest := hosts[1..];
    forall g | g in rest ensures Compatible(hosts[0], g) {
      var k :| 0 <= k < |rest| && rest[k] == g;
      assert hosts[k + 1] == g;
    }
  }

  lemma {:induction false} SurvivorsConsistent(hosts: seq<Host>, mv: Move)
    requires Consistent(hosts)
    ensures Consistent(Survivors(hosts, mv))
  {
    hide Compatible, GoodMacs, FateOf;
    if hosts != [] {
      FirstFits(hosts);
      SurvivorsConsistent(hosts[1..], mv);
      var left := Survivors(hosts[1..], mv);
      if FateOf(hosts[0], mv) == Stays {
        assert hosts[0].mac.Some? ==> GoodMacs(hosts[0].mac.value);
        hide Consistent;
        assert forall j | 0 <= j < |left| :: left[j] in left;
        PrependKeeps(hosts[0], left);
        assert Survivors(hosts, mv) == [hosts[0]] + left;
      }
    }
  }

  // ---------------------------------------------------------------- the pass over the store

  /** The body of the loop in `filter_dhcp_client_records`. */
  method FilterRecord(backend: UciBackend, h: Host, mv: Move)
    requires backend.Valid() && !backend.raised && Has(backend.View(), "dhcp", h.section)
    modifies backend
    ensures backend.InBlock() && backend.raised == (FateOf(h, mv) == Fails)
    ensures FateOf(h, mv) == Goes ==> SectionGone(old(backend.View()), backend.View(), "dhcp", h.section)
    ensures FateOf(h, mv) == Stays ==> backend.View() == old(backend.View())
  {
    hide ConfigsIn, ShapeOf, KindIn, Get, OrderIn, Ipv4.InRange, Ipv4.InNetwork, Without;
    if h.ip.None? || h.ip == Some(Text("ignore")) { return; }
    if h.ip.value.Items? { backend.Raise(); return; }
    var ip := h.ip.value.text;
    var inPool := Ipv4.InRange(ip, mv.router, mv.start, mv.limit);
    if inPool.None? { backend.Raise(); return; }
    if inPool.value {
      backend.DelSection("dhcp", h.section, false);
    }
    if mv.oldRouter != "" && mv.oldMask != "" {
      var inOld := Ipv4.InNetwork(ip, mv.oldRouter, mv.oldMask);
      if inOld.None? { backend.Raise(); return; }
      if inOld.value {
        var inNew := Ipv4.InNetwork(ip, mv.router, mv.mask);
        if inNew.None? { backend.Raise(); return; }
        if !inNew.value {
          backend.DelSection("dhcp", h.section, false);
        }
      }
    }
  }

  lemma {:induction false} SurvivorsAppend(hosts: seq<Host>, h: Host, mv: Move)
    ensures Survivors(hosts + [h], mv) == Survivors(hosts, mv) + if FateOf(h, mv) == Stays then [h] else []
  {
    hide FateOf;
    if hosts == [] {
      assert [] + [h] == [h] && [h][1..] == [];
    } else {
      assert (hosts + [h])[1..] == hosts[1..] + [h];
      SurvivorsAppend(hosts[1..], h, mv);
    }
  }

  /** `filter_dhcp_client_records`: the hosts read at the start are still the hosts of the store. */
  method FilterRecords(backend: UciBackend, records: seq<Host>, mv: Move)
    requires backend.Valid() && !backend.raised && WellOrdered(backend.View(), "dhcp")
    requires HostsOf(backend.View()) == records
    modifies backend
    ensures backend.InBlock() && backend.raised == !Passes(records, mv)
    ensures !backend.raised ==>
      && HostsOf(backend.View()) == Survivors(records, mv)
      && WellOrdered(backend.View(), "dhcp")
      && OnlyOldHosts(old(backend.View()), backend.View())
  {
    hide ConfigsIn, ShapeOf, KindIn, Get, OrderIn, HostsOf, WellOrdered, FateOf, Survivors, OnlyOldHosts, Partly;
    var i := 0;
    PartlyStart(records, mv);
    PartlyEnd(records, mv);
    NoHostsChange(backend.View());
    while i < |records|
      invariant 0 <= i <= |records|
      invariant backend.InBlock() && !backend.raised && WellOrdered(backend.View(), "dhcp")
      invariant HostsOf(backend.View()) == Partly(records, i, mv)
      invariant forall k | 0 <= k < i :: FateOf(records[k], mv) != Fails
      invariant OnlyOldHosts(old(backend.View()), backend.View())
    {
      ghost var before := backend.View();
      FilterNext(backend, records, i, mv);
      if backend.raised { return; }
      OnlyOldHostsTwice(old(backend.View()), before, backend.View());
      i := i + 1;
    }
  }

  /** Only sections that were hosts changed. */
  ghost predicate OnlyOldHosts(st: Store, st': Store) {
    && (forall c, s :: !(c == "dhcp" && Kind(st, c, s) == Some("host")) ==> Kind(st', c, s) == Kind(st, c, s))
    && (forall c, s, o :: !(c == "dhcp" && Kind(st, c, s) == Some("host")) ==> Get(st', c, s, o) == Get(st, c, s, o))
  }

  /** The list after the first i records. */
  function Partly(records: seq<Host>, i: nat, mv: Move): seq<Host>
    requires i <= |records|
  {
    Survivors(records[..i], mv) + records[i..]
  }

  lemma PartlyStart(records: seq<Host>, mv: Move)
    ensures Partly(records, 0, mv) == records
  {
    assert records[..0] == [];
  }

  lemma PartlyEnd(records: seq<Host>, mv: Move)
    ensures Partly(records, |records|, mv) == Survivors(records, mv)
  {
    hide Survivors;
    assert records[..|records|] == records && records[|records|..] == [];
    assert Survivors(records, mv) + [] == Survivors(records, mv);
  }

  lemma NoHostsChange(st: Store)
    ensures OnlyOldHosts(st, st)
  {
  }

  lemma OnlyOldHostsTwice(st: Store, st': Store, st'': Store)
    requires OnlyOldHosts(st, st') && OnlyOldHosts(st', st'')
    ensures OnlyOldHosts(st, st'')
  {
    hide Get, ConfigsIn, ShapeOf, KindIn;
  }

  lemma GoneIsOnlyOldHosts(st: Store, st': Store, n: string)
    requires Kind(st, "dhcp", n) == Some("host") && SectionGone(st, st', "dhcp", n)
    ensures OnlyOldHosts(st, st')
  {
    hide Get, ConfigsIn, ShapeOf, KindIn;
  }

  method FilterNext(backend: UciBackend, records: seq<Host>, i: nat, mv: Move)
    requires backend.Valid() && !backend.raised && WellOrdered(backend.View(), "dhcp")
    requires i < |records| && HostsOf(backend.View()) == Partly(records, i, mv)
    modifies backend
    ensures backend.InBlock() && backend.raised == (FateOf(records[i], mv) == Fails)
    ensures !backend.raised ==>
      && HostsOf(backend.View()) == Partly(records, i + 1, mv)
      && WellOrdered(backend.View(), "dhcp")
      && OnlyOldHosts(old(backend.View()), backend.View())
  {
    hide ConfigsIn, ShapeOf, KindIn, Get, OrderIn, HostsOf, WellOrdered, FateOf, HostNames, Survivors, OnlyOldHosts, SectionGone, Partly;
    ghost var st := backend.View();
    ghost var k := |Survivors(records[..i], mv)|;
    Progress(records, i, mv);
    HostSection(st, k);
    FilterRecord(backend, records[i], mv);
    if !backend.raised && FateOf(records[i], mv) == Goes {
      HostsDropped(st, backend.View(), k);
      GoneIsOnlyOldHosts(st, backend.View(), records[i].section);
    }
    NoHostsChange(st);
  }

  lemma StepOver(kept: seq<Host>, h: Host, rest: seq<Host>)
    ensures var was := kept + ([h] + rest);
      was[|kept|] == h && was[..|kept|] == kept && was[|kept| + 1..] == rest && (kept + [h]) + rest == was
  {
    assert (kept + ([h] + rest))[|kept| + 1..] == rest;
  }

  lemma Progress(records: seq<Host>, i: nat, mv: Move)
    requires i < |records|
    ensures var was := Partly(records, i, mv);
      var k := |Survivors(records[..i], mv)|;
      k < |was| && was[k] == records[i] &&
      Partly(records, i + 1, mv) == if FateOf(records[i], mv) == Stays then was else was[..k] + was[k + 1..]
  {
    hide Survivors, FateOf;
    var kept := Survivors(records[..i], mv);
    SurvivorsAppend(records[..i], records[i], mv);
    assert records[..i + 1] == records[..i] + [records[i]];
    assert records[i..] == [records[i]] + records[i + 1..];
    StepOver(kept, records[i], records[i + 1..]);
    assert kept + [] == kept;
  }
}
