/** IPv4 addresses as Python's `ipaddress` reads and prints them, contiguous netmasks, and the
    arithmetic of the DHCP pool.  A bit-and with a contiguous mask is dropping a remainder. */
module Ipv4 {
  import opened Wrappers
  import opened Texts

  const TOP: nat := 0x1_0000_0000

  type Address = a: nat | a < 0x1_0000_0000

  type Prefix = p: nat | p <= 32

  // ---------------------------------------------------------------- dotted decimal

  /** One part of an address: one to three digits, no leading zero, at most 255. */
  function Octet(s: string): Option<nat> {
    if s != "" && AllDigits(s) && |s| <= 3 && (s[0] != '0' || |s| == 1) && DigitsValue(s) <= 255
    then Some(DigitsValue(s))
    else None
  }

  /** `ip_address` of a text; None is the ValueError. */
  function ParseIp(s: string): Option<Address> {
    var parts := Split(s, '.');
    if |parts| != 4 then None
    else
      var o0, o1, o2, o3 := Octet(parts[0]), Octet(parts[1]), Octet(parts[2]), Octet(parts[3]);
      if o0.None? || o1.None? || o2.None? || o3.None? then None
      else Some(Number(o0.value, o1.value, o2.value, o3.value))
  }

  function Number(o0: nat, o1: nat, o2: nat, o3: nat): Address
    requires o0 < 256 && o1 < 256 && o2 < 256 && o3 < 256
  {
    ((o0 * 256 + o1) * 256 + o2) * 256 + o3
  }

  function Octets(a: Address): (nat, nat, nat, nat) {
    (a / 0x100_0000, a / 0x1_0000 % 256, a / 0x100 % 256, a % 256)
  }

  function Parts(a: Address): seq<string> {
    var o := Octets(a);
    [Decimal(o.0), Decimal(o.1), Decimal(o.2), Decimal(o.3)]
  }

  /** `str(address)` */
  function PrintIp(a: Address): string {
    Join(Parts(a), '.')
  }

  lemma NumberOfOctets(a: Address)
    ensures var o := Octets(a);
      o.0 < 256 && o.1 < 256 && o.2 < 256 && o.3 < 256 && Number(o.0, o.1, o.2, o.3) == a
  {
    var b, c := a / 0x100, a / 0x1_0000;
    assert b / 256 == c && c / 256 == a / 0x100_0000;
    assert a == b * 256 + a % 256 && b == c * 256 + b % 256 && c == c / 256 * 256 + c % 256;
  }

  lemma OctetsOfNumber(o0: nat, o1: nat, o2: nat, o3: nat)
    requires o0 < 256 && o1 < 256 && o2 < 256 && o3 < 256
    ensures Octets(Number(o0, o1, o2, o3)) == (o0, o1, o2, o3)
  {
    var c := o0 * 256 + o1;
    var b := c * 256 + o2;
    var a := b * 256 + o3;
    LastOctet(b, o3);
    LastOctet(c, o2);
    LastOctet(o0, o1);
    assert a / 0x1_0000 == a / 0x100 / 0x100 && a / 0x100_0000 == a / 0x1_0000 / 0x100;
  }

  lemma LastOctet(high: nat, low: nat)
    requires low < 256
    ensures (high * 256 + low) / 256 == high && (high * 256 + low) % 256 == low
  {
  }

  lemma OctetReadsBack(n: nat)
    requires n < 256
    ensures Octet(Decimal(n)) == Some(n) && '.' !in Decimal(n)
  {
    ShortNumbers(n);
    DecimalReadsBack(n);
    DigitsOnly(Decimal(n), '.');
  }

  /** Printing and parsing are inverse: an address has exactly one text. */
  lemma PrintedIpParses(a: Address)
    ensures ParseIp(PrintIp(a)) == Some(a)
  {
    NumberOfOctets(a);
    var o := Octets(a);
    OctetReadsBack(o.0);
    OctetReadsBack(o.1);
    OctetReadsBack(o.2);
    OctetReadsBack(o.3);
    hide Decimal, Octet, Octets, Number, Join, Split;
    SplitUndoesJoin(Parts(a), '.');
  }

  lemma OctetIsPrinted(s: string)
    requires Octet(s).Some?
    ensures s == Decimal(Octet(s).value) && Octet(s).value < 256
  {
    OneSpelling(s);
  }

  lemma ParsedIpPrints(s: string)
    requires ParseIp(s).Some?
    ensures PrintIp(ParseIp(s).value) == s
  {
    var p := Split(s, '.');
    OctetIsPrinted(p[0]);
    OctetIsPrinted(p[1]);
    OctetIsPrinted(p[2]);
    OctetIsPrinted(p[3]);
    hide Split, Octet, Octets, Number, Decimal;
    OctetsOfNumber(Octet(p[0]).value, Octet(p[1]).value, Octet(p[2]).value, Octet(p[3]).value);
    JoinUndoesSplit(s, '.');
    assert Parts(ParseIp(s).value) == p;
  }

  // ---------------------------------------------------------------- netmasks

  function Pow2(n: nat): (r: nat)
    ensures r >= 1
  {
    if n == 0 then 1 else 2 * Pow2(n - 1)
  }

  lemma {:induction false} Pow2Sum(m: nat, n: nat)
    ensures Pow2(m) * Pow2(n) == Pow2(m + n)
  {
    if m > 0 {
      Pow2Sum(m - 1, n);
      assert Pow2(m) * Pow2(n) == 2 * (Pow2(m - 1) * Pow2(n));
    }
  }

  /** How many addresses a network with this prefix length has. */
  function Size(p: nat): (r: nat)
    requires p <= 32
    ensures r >= 1
  {
    Pow2(32 - p)
  }

  lemma TopIsPow2()
    ensures Pow2(32) == TOP
  {
    assert Pow2(8) == 256 by { assert Pow2(4) == 16; }
    Pow2Sum(8, 8);
    Pow2Sum(16, 16);
  }

  lemma SizeDividesTop(p: nat)
    requires p <= 32
    ensures Size(p) * Pow2(p) == TOP && Size(p) <= TOP
  {
    TopIsPow2();
    hide Pow2;
    Pow2Sum(32 - p, p);
    ProductGap(Size(p), Pow2(p), 0);
  }

  /** The mask with p leading ones. */
  function MaskOf(p: nat): Address
    requires p <= 32
  {
    SizeDividesTop(p);
    TOP - Size(p)
  }

  /** `_count_righthand_zero_bits` */
  function ZeroBits(m: nat, bits: nat): (z: nat)
    ensures z <= bits
  {
    if bits == 0 || m % 2 == 1 then 0 else 1 + ZeroBits(m / 2, bits - 1)
  }

  /** `_prefix_from_ip_int` */
  function PrefixOfMask(m: Address): (p: Option<nat>)
    ensures p.Some? ==> p.value <= 32
  {
    var z := ZeroBits(m, 32);
    if m / Pow2(z) == Pow2(32 - z) - 1 then Some(32 - z) else None
  }

  lemma {:induction false} ZeroBitsDivide(m: nat, bits: nat)
    ensures m % Pow2(ZeroBits(m, bits)) == 0
  {
    var z := ZeroBits(m, bits);
    if z > 0 {
      ZeroBitsDivide(m / 2, bits - 1);
      var k := m / 2 / Pow2(z - 1);
      assert m == 2 * (m / 2) && m / 2 == k * Pow2(z - 1);
      assert m == k * Pow2(z);
      Multiple(k, Pow2(z));
    }
  }

  lemma Multiple(k: nat, d: nat)
    requires d > 0
    ensures d * k % d == 0 && d * k / d == k && 0 <= d * k
  {
    DivisionIsUnique(d * k, d, k, 0);
  }

  lemma DivMod(n: nat, d: nat)
    requires d > 0
    ensures n == d * (n / d) + n % d
  {
  }

  lemma Times(d: nat, k: int)
    ensures d * (k - 1) == d * k - d
  {
  }

  lemma ProductGap(d: nat, q: nat, q': nat)
    requires q' < q
    ensures d * q' + d <= d * q
    decreases q
  {
    Times(d, q);
    if q' < q - 1 { ProductGap(d, q - 1, q'); }
  }

  lemma QuotientIsUnique(d: nat, q: nat, r: nat, q': nat, r': nat)
    requires d * q + r == d * q' + r' && r < d && r' < d
    ensures q == q' && r == r'
  {
    if q' < q {
      ProductGap(d, q, q');
    } else if q < q' {
      ProductGap(d, q', q);
    }
  }

  lemma DivisionIsUnique(n: nat, d: nat, q: nat, r: nat)
    requires d > 0 && n == d * q + r && r < d
    ensures n / d == q && n % d == r
  {
    DivMod(n, d);
    QuotientIsUnique(d, q, r, n / d, n % d);
  }

  lemma {:induction false} ZeroBitsOfMask(bits: nat, z: nat)
    requires z <= bits
    ensures Pow2(z) <= Pow2(bits) && ZeroBits(Pow2(bits) - Pow2(z), bits) == z
    decreases bits
  {
    hide ZeroBits;
    if z > 0 {
      ZeroBitsOfMask(bits - 1, z - 1);
      DoubledZeroBits(Pow2(bits - 1) - Pow2(z - 1), bits - 1);
      assert Pow2(bits) - Pow2(z) == 2 * (Pow2(bits - 1) - Pow2(z - 1));
    } else {
      OddZeroBits(bits);
    }
  }

  lemma OddZeroBits(bits: nat)
    ensures Pow2(0) == 1 && ZeroBits(Pow2(bits) - 1, bits) == 0
  {
    if bits > 0 {
      var half := Pow2(bits - 1);
      assert Pow2(bits) == 2 * half;
      hide Pow2;
      DoubleAndOneIsOdd(half - 1);
      assert 2 * half - 1 == 2 * (half - 1) + 1;
    }
  }

  lemma DoubleAndOneIsOdd(k: nat)
    ensures (2 * k + 1) % 2 == 1
  {
  }

  lemma DoubledZeroBits(m: nat, bits: nat)
    ensures ZeroBits(2 * m, bits + 1) == 1 + ZeroBits(m, bits)
  {
    assert 2 * m % 2 == 0 && 2 * m / 2 == m;
  }

  /** A number is taken for a netmask exactly when it is leading ones and then zeros. */
  lemma MasksAreContiguous(m: Address, p: nat)
    ensures PrefixOfMask(m) == Some(p) <==> p <= 32 && m == MaskOf(p)
  {
    hide Pow2;
    if PrefixOfMask(m) == Some(p) {
      ZeroBitsDivide(m, 32);
      DivMod(m, Size(p));
      MaskIsOnes(p);
    }
    if p <= 32 && m == MaskOf(p) {
      MaskHasItsPrefix(p);
    }
  }

  lemma MaskIsOnes(p: nat)
    requires p <= 32
    ensures MaskOf(p) == Size(p) * (Pow2(p) - 1)
  {
    SizeDividesTop(p);
    hide Pow2, Size;
    Times(Size(p), Pow2(p));
  }

  lemma MaskHasItsPrefix(p: nat)
    requires p <= 32
    ensures PrefixOfMask(MaskOf(p)) == Some(p)
  {
    TopIsPow2();
    hide Pow2;
    ZeroBitsOfMask(32, 32 - p);
    MaskIsOnes(p);
    DivisionIsUnique(MaskOf(p), Size(p), Pow2(p) - 1, 0);
  }

  /** `_make_netmask`: a prefix length, a netmask, or its complement. */
  function PrefixOf(text: string): (p: Option<nat>)
    ensures p.Some? ==> p.value <= 32
  {
    if Int(text).Some? && Int(text).value <= 32 then Int(text)
    else match ParseIp(text)
      case None => None
      case Some(m) => if PrefixOfMask(m).Some? then PrefixOfMask(m) else PrefixOfMask(TOP - 1 - m)
  }

  lemma MaskTextParses(p: nat)
    requires p <= 32
    ensures PrefixOf(PrintIp(MaskOf(p))) == Some(p)
  {
    var m := MaskOf(p);
    PrintedIpParses(m);
    MasksAreContiguous(m, p);
    var parts := Parts(m);
    assert PrintIp(m)[|parts[0]|] == '.' && !IsDigit('.');
  }

  // ---------------------------------------------------------------- networks

  /** `network.network_address` of the network around a */
  function NetworkAddress(a: int, p: nat): int
    requires p <= 32
  {
    a - a % Size(p)
  }

  /** `address in network` */
  predicate InNet(a: int, net: int, p: nat)
    requires p <= 32
  {
    NetworkAddress(a, p) == net
  }

  /** `check_dynamic_ranges`; None where the address or the mask does not parse. */
  function CheckDynamicRanges(routerIp: string, netmask: string, start: nat, limit: nat): Option<bool> {
    match ParseIp(routerIp)
    case None => None
    case Some(ip) =>
      match PrefixOf(netmask)
      case None => None
      case Some(p) =>
        var net := NetworkAddress(ip, p);
        var first := net + start;
        var last := first + limit;
        Some(
          if first >= TOP || last >= TOP then false
          else if !InNet(first, net, p) || !InNet(last, net, p) then false
          else if first <= ip <= last then false
          else true)
  }

  /** Every address of the pool exists, lies in the router's network and is not the router's. */
  ghost predicate PoolFits(ip: Address, p: nat, start: nat, limit: nat)
    requires p <= 32
  {
    var net := NetworkAddress(ip, p);
    forall a :: net + start <= a <= net + start + limit ==> a < TOP && InNet(a, net, p) && a != ip
  }

  lemma WithinNet(a: nat, net: nat, p: nat)
    requires p <= 32 && net % Size(p) == 0
    ensures InNet(a, net, p) <==> net <= a < net + Size(p)
  {
    var d := Size(p);
    hide Size;
    DivMod(a, d);
    DivMod(net, d);
    if net <= a < net + d {
      DivisionIsUnique(a, d, net / d, a - net);
    }
  }

  lemma FloorAligned(a: nat, d: nat)
    requires d > 0
    ensures var net := a - a % d; 0 <= net <= a && net % d == 0
  {
    DivMod(a, d);
    Multiple(a / d, d);
  }

  lemma NetworkAddressAligned(a: nat, p: nat)
    requires p <= 32
    ensures var net := NetworkAddress(a, p); 0 <= net <= a && net % Size(p) == 0 && InNet(a, net, p)
  {
    FloorAligned(a, Size(p));
    hide Size;
  }

  /** Testing the two ends is enough: the check is exact. */
  lemma PoolCheckIsExact(routerIp: string, netmask: string, start: nat, limit: nat)
    requires ParseIp(routerIp).Some? && PrefixOf(netmask).Some?
    ensures CheckDynamicRanges(routerIp, netmask, start, limit)
         == Some(PoolFits(ParseIp(routerIp).value, PrefixOf(netmask).value, start, limit))
  {
    hide ParseIp, PrefixOf;
    EndsAreEnough(ParseIp(routerIp).value, PrefixOf(netmask).value, start, limit);
    hide PoolFits, InNet, NetworkAddress;
  }

  lemma EndsAreEnough(ip: Address, p: Prefix, start: nat, limit: nat)
    ensures var net := NetworkAddress(ip, p);
      var first, last := net + start, net + start + limit;
      PoolFits(ip, p, start, limit) <==>
        first < TOP && last < TOP && InNet(first, net, p) && InNet(last, net, p) && !(first <= ip <= last)
  {
    NetworkAddressAligned(ip, p);
    hide NetworkAddress, InNet, Size;
    var net := NetworkAddress(ip, p);
    var first, last := net + start, net + start + limit;
    WithinNet(first, net, p);
    WithinNet(last, net, p);
    if PoolFits(ip, p, start, limit) {
      assert first < TOP && InNet(first, net, p) && last < TOP && InNet(last, net, p);
    }
    if InNet(first, net, p) && InNet(last, net, p) {
      forall a | first <= a <= last ensures InNet(a, net, p) { WithinNet(a, net, p); }
    }
  }

  /** `in_range`; None where an address does not parse or the range leaves the address space. */
  function InRange(ip: string, startIp: string, start: nat, limit: nat): Option<bool> {
    match ParseIp(startIp)
    case None => None
    case Some(s) =>
      if s + start >= TOP || s + start + limit >= TOP || ParseIp(ip).None? then None
      else Some(s + start <= ParseIp(ip).value <= s + start + limit)
  }

  /** The pool is validated from the network address but hosts are pruned from the router's own
      address: the pool's first address is pruned exactly when those are not told apart. */
  lemma PruningStartsAtTheRouter(routerIp: string, netmask: string, start: nat, limit: nat, first: Address)
    requires CheckDynamicRanges(routerIp, netmask, start, limit) == Some(true)
    requires first == NetworkAddress(ParseIp(routerIp).value, PrefixOf(netmask).value) + start
    requires InRange(routerIp, routerIp, start, limit).Some?
    ensures InRange(PrintIp(first), routerIp, start, limit) == Some(true) <==>
            NetworkAddress(ParseIp(routerIp).value, PrefixOf(netmask).value) == ParseIp(routerIp).value
  {
    hide ParseIp, PrintIp, PrefixOf, NetworkAddress, InNet;
    NetworkAddressAligned(ParseIp(routerIp).value, PrefixOf(netmask).value);
    PrintedIpParses(first);
  }

  /** `ip_network(f"{ip}/{netmask}", strict=False)` and `ip_interface` of the same text. */
  function ParseInterface(text: string): (r: Option<(Address, nat)>)
    ensures r.Some? ==> r.value.1 <= 32
  {
    var parts := Split(text, '/');
    if |parts| != 2 then None
    else
      var ip, p := ParseIp(parts[0]), PrefixOf(parts[1]);
      if ip.None? || p.None? then None else Some((ip.value, p.value))
  }

  /** `_get_interface`: the address with its prefix length. */
  function InterfaceText(ip: string, netmask: string): Option<string> {
    match ParseInterface(Join([ip, netmask], '/'))
    case None => None
    case Some((a, p)) => Some(Join([PrintIp(a), Decimal(p)], '/'))
  }

  /** `in_network` */
  function InNetwork(ip: string, root: string, netmask: string): Option<bool> {
    match ParseInterface(if |Split(root, '/')| == 2 then root else Join([root, netmask], '/'))
    case None => None
    case Some((a, p)) =>
      match ParseIp(ip)
      case None => None
      case Some(b) => Some(InNet(b, NetworkAddress(a, p), p))
  }

  // ---------------------------------------------------------------- the LAN address in uci

  /** What `get_network_combo` makes of the `ipaddr` text and the `netmask` beside it. */
  function Combo(ipaddr: string, netmask: string): Option<(string, string)> {
    if |Split(ipaddr, '/')| == 2 then
      match ParseInterface(ipaddr)
      case None => None
      case Some((a, p)) => Some((PrintIp(a), PrintIp(MaskOf(p))))
    else Some((ipaddr, netmask))
  }

  lemma NoSlashInIp(s: string)
    requires ParseIp(s).Some?
    ensures '/' !in s
  {
    var parts := Split(s, '.');
    assert forall i | 0 <= i < 4 :: AllDigits(parts[i]);
    JoinUndoesSplit(s, '.');
    NoSlashInJoin(parts);
  }

  lemma {:induction false} NoSlashInJoin(parts: seq<string>)
    requires forall p | p in parts :: AllDigits(p)
    ensures '/' !in Join(parts, '.')
  {
    if |parts| > 0 {
      assert '/' !in parts[0] by {
        DigitsOnly(parts[0], '/');
      }
      NoSlashInJoin(parts[1..]);
    }
  }

  lemma PrefixTextParses(p: nat)
    requires p <= 32
    ensures PrefixOf(Decimal(p)) == Some(p)
  {
    DecimalReadsBack(p);
    hide Decimal;
  }

  /** An address and a mask printed from numbers read as these numbers. */
  lemma PrintedInterfaceParses(a: Address, p: Prefix)
    ensures Split(PrintIp(a), '/') == [PrintIp(a)]
    ensures ParseInterface(Join([PrintIp(a), PrintIp(MaskOf(p))], '/')) == Some((a, p))
  {
    hide Split, Join, ParseIp, PrintIp, MaskOf, PrefixOf;
    PrintedIpParses(a);
    PrintedIpParses(MaskOf(p));
    NoSlashInIp(PrintIp(a));
    NoSlashInIp(PrintIp(MaskOf(p)));
    MaskTextParses(p);
    SplitUndoesJoin([PrintIp(a), PrintIp(MaskOf(p))], '/');
    SplitUndoesJoin([PrintIp(a)], '/');
    JoinedOne(PrintIp(a), '/');
  }

  lemma JoinedOne(s: string, sep: char)
    ensures Join([s], sep) == s
  {
  }

  lemma Sizes()
    ensures Size(24) == 0x100 && Size(16) == 0x1_0000
  {
    assert Pow2(8) == 256 by { assert Pow2(4) == 16; }
    Pow2Sum(8, 8);
  }

  /** The netmask as it reads back: every contiguous mask as it was written. */
  function MaskAsRead(netmask: string): string {
    match PrefixOf(netmask)
    case None => netmask
    case Some(p) => PrintIp(MaskOf(p))
  }

  lemma ContiguousMasksReadBack(p: nat)
    requires p <= 32
    ensures MaskAsRead(PrintIp(MaskOf(p))) == PrintIp(MaskOf(p))
  {
    MaskTextParses(p);
  }

  /** Every IPv4 address with its netmask survives being stored as one CIDR text. */
  lemma CidrReadsBack(ip: string, netmask: string, beside: string)
    requires InterfaceText(ip, netmask).Some?
    ensures InterfaceText(ip, netmask).value != ""
    ensures Combo(InterfaceText(ip, netmask).value, beside) == Some((ip, MaskAsRead(netmask)))
  {
    hide Split, Join, ParseIp, PrintIp, Decimal, MaskOf, PrefixOf, Int, AllDigits;
    TwoPieces(ip, '/', netmask);
    NoSlashInIp(ip);
    ParsedIpPrints(ip);
    var p := PrefixOf(netmask).value;
    DigitsOnly(Decimal(p), '/');
    PrefixTextParses(p);
    SplitUndoesJoin([ip, Decimal(p)], '/');
    JoinedNotEmpty(ip, '/', Decimal(p));
  }

  lemma JoinedNotEmpty(a: string, sep: char, b: string)
    ensures Join([a, b], sep) != ""
  {
  }
}
