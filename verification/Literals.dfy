/** The names that this program writes into the store, told apart by their fingerprints: the number of
    every literal is computed here and nowhere else. */
module Literals {
  import opened Texts

  /** Configs; some of them are options and protocols as well. */
  lemma Configs()
    ensures Fingerprint("network") == 11110111007
    ensures Fingerprint("firewall") == 9710510208
    ensures Fingerprint("dhcp") == 10410410004
    ensures Fingerprint("sqm") == 11511311503
    ensures Fingerprint("resolver") == 11810111408
    ensures Fingerprint("wireless") == 10110511908
    ensures Fingerprint("system") == 11612111506
  {
  }

  /** Sections of the network config. */
  lemma Interfaces()
    ensures Fingerprint("wan") == 11909711903
    ensures Fingerprint("wan6") == 9709711904
    ensures Fingerprint("lan") == 10809710803
    ensures Fingerprint("dev_wan") == 11910110007
    ensures Fingerprint("br_wan") == 11911409806
    ensures Fingerprint("br_lan") == 10811409806
    ensures Fingerprint("guest_turris") == 11411710312
    ensures Fingerprint("br_guest_turris") == 11411411409815
  {
  }

  /** Sections of the firewall config that belong to the guest network. */
  lemma GuestRules()
    ensures Fingerprint("guest_turris_forward_wan") == 9511911710324
    ensures Fingerprint("guest_turris_dns_rule") == 9511711710321
    ensures Fingerprint("guest_turris_dhcp_rule") == 9511711710322
    ensures Fingerprint("guest_turris_Allow_DHCPv6") == 9508011710325
    ensures Fingerprint("guest_turris_Allow_MLD") == 9507711710322
    ensures Fingerprint("guest_turris_Allow_ICMPv6_Input") == 9511211710331
  {
  }

  /** Sections of the firewall config that belong to WAN. */
  lemma WanRules()
    ensures Fingerprint("wan_ssh_turris_rule") == 10511709711919
    ensures Fingerprint("wan_http_turris_rule") == 11411709711920
    ensures Fingerprint("wan_https_turris_rule") == 11411709711921
    ensures Fingerprint("turris_wan_6in4_rule") == 10511711711620
    ensures Fingerprint("turris_wan_6to4_rule") == 11611711711620
  {
  }

  /** Options of sections of several configs. */
  lemma CommonOptions()
    ensures Fingerprint("enabled") == 10811010107
    ensures Fingerprint("name") == 9709711004
    ensures Fingerprint("proto") == 11111411205
    ensures Fingerprint("device") == 10510110006
    ensures Fingerprint("ifname") == 9710210506
    ensures Fingerprint("interface") == 9711010509
    ensures Fingerprint("dns") == 10011010003
    ensures Fingerprint("leasetime") == 10510110809
    ensures Fingerprint("dhcpv6") == 11210410006
  {
  }

  /** Options of interfaces and devices. */
  lemma InterfaceOptions()
    ensures Fingerprint("type") == 12112111604
    ensures Fingerprint("bridge_empty") == 11211409812
    ensures Fingerprint("macaddr") == 10009710907
    ensures Fingerprint("ports") == 11411111205
    ensures Fingerprint("ipaddr") == 10011210506
    ensures Fingerprint("netmask") == 9710111007
    ensures Fingerprint("gateway") == 11909710307
    ensures Fingerprint("hostname") == 9711110408
    ensures Fingerprint("ip6assign") == 10511210509
    ensures Fingerprint("_turris_mode") == 11111609512
  {
  }

  /** Options that one protocol of WAN uses. */
  lemma ProtocolOptions()
    ensures Fingerprint("username") == 9711511708
    ensures Fingerprint("password") == 11109711208
    ensures Fingerprint("ipv6") == 11211210504
    ensures Fingerprint("ip6prefix") == 10211210509
    ensures Fingerprint("tunnelid") == 10811711608
    ensures Fingerprint("peeraddr") == 10010111208
    ensures Fingerprint("mtu") == 10911610903
    ensures Fingerprint("ip6addr") == 10011210507
    ensures Fingerprint("ip6gw") == 5411210505
    ensures Fingerprint("clientid") == 11610809908
  {
  }

  /** Options of zones, forwardings and rules. */
  lemma FirewallOptions()
    ensures Fingerprint("input") == 11211010505
    ensures Fingerprint("forward") == 9711110207
    ensures Fingerprint("output") == 11211711106
    ensures Fingerprint("src") == 11511411503
    ensures Fingerprint("dest") == 10110110004
    ensures Fingerprint("dest_port") == 11110110009
    ensures Fingerprint("target") == 10309711606
    ensures Fingerprint("src_port") == 11111411508
    ensures Fingerprint("family") == 10509710206
    ensures Fingerprint("src_ip") == 9511411506
  {
  }

  /** Options of DHCP servers and hosts. */
  lemma DhcpOptions()
    ensures Fingerprint("ignore") == 11110310506
    ensures Fingerprint("ra") == 9711402
    ensures Fingerprint("start") == 9711611505
    ensures Fingerprint("limit") == 10910510805
    ensures Fingerprint("dhcp_option") == 10510410011
    ensures Fingerprint("mac") == 10909710903
    ensures Fingerprint("ip") == 11210502
  {
  }

  /** Options of queues. */
  lemma QueueOptions()
    ensures Fingerprint("qdisc") == 10510011305
    ensures Fingerprint("script") == 10509911506
    ensures Fingerprint("link_layer") == 12110510810
    ensures Fingerprint("verbosity") == 10510111809
    ensures Fingerprint("debug_logging") == 10310510110013
    ensures Fingerprint("upload") == 11111211706
    ensures Fingerprint("download") == 11111110008
  {
  }

  /** Options of radios. */
  lemma RadioOptions()
    ensures Fingerprint("disabled") == 10810510008
    ensures Fingerprint("channel") == 11010409907
    ensures Fingerprint("band") == 9709709804
    ensures Fingerprint("htmode") == 11111610406
    ensures Fingerprint("country") == 11611109907
    ensures Fingerprint("hwmode") == 11111910406
  {
  }

  /** Options of wireless interfaces. */
  lemma WifiOptions()
    ensures Fingerprint("ssid") == 11511511504
    ensures Fingerprint("mode") == 11111110904
    ensures Fingerprint("hidden") == 10010510406
    ensures Fingerprint("encryption") == 10511010110
    ensures Fingerprint("wpa_group_rekey") == 10710711211915
    ensures Fingerprint("ieee80211w") == 4910110510
    ensures Fingerprint("key") == 10710110703
    ensures Fingerprint("isolate") == 9711510507
  {
  }

  /** Protocols that are not the name of a config or an option. */
  lemma Protocols()
    ensures Fingerprint("static") == 11611611506
    ensures Fingerprint("pppoe") == 11211211205
    ensures Fingerprint("none") == 11111111004
    ensures Fingerprint("6to4") == 11611605404
    ensures Fingerprint("6in4") == 10510505404
  {
  }
}
