// The routes set up for cellular traffic agree with the addresses that ConfigureCellRadio accepts.
module Routing {
  import opened Wrappers
  import opened Types
  import Manager
  import ManagerTheory

  // A network route: addresses that share the first `prefix` bits with `network`.
  datatype Route = Route(network: Ipv4, prefix: nat, hop: Hop)
  datatype Hop = OnLink(interface: nat) | Via(gateway: Ipv4, interface: nat)

  function Size(prefix: nat): nat {
    if prefix == 0 then 0x1_0000_0000 else if prefix == 8 then 0x100_0000 else if prefix == 16 then 0x1_0000 else 1
  }

  predicate Matches(r: Route, ip: Ipv4) {
    r.network / Size(r.prefix) == ip / Size(r.prefix)
  }

  // Longest prefix match; of equally long ones the later wins, as in Ipv4StaticRouting.
  function Lookup(table: seq<Route>, ip: Ipv4): Option<Route> {
    if table == [] then None
    else
      var rest := Lookup(table[..|table| - 1], ip);
      var r := table[|table| - 1];
      if Matches(r, ip) && (rest.None? || rest.value.prefix <= r.prefix) then Some(r) else rest
  }

  lemma {:induction false} LookupIsLongest(table: seq<Route>, ip: Ipv4)
    ensures Lookup(table, ip).None? <==> forall r :: r in table ==> !Matches(r, ip)
    ensures Lookup(table, ip).Some? ==>
              var best := Lookup(table, ip).value;
              best in table && Matches(best, ip) && forall r :: r in table && Matches(r, ip) ==> r.prefix <= best.prefix
  {
    if table != [] {
      LookupIsLongest(table[..|table| - 1], ip);
      var last := table[|table| - 1];
      assert forall r :: r in table <==> r in table[..|table| - 1] || r == last;
    }
  }

  // Devices of the PGW are 0: loopback, 1: tunnel, 2: SGW, 3: backbone.
  const TUNNEL := 1
  const BACKBONE := 3
  const NET_10: Ipv4 := 0x0A00_0000
  const NET_10_5: Ipv4 := 0x0A05_0000
  const NET_10_6: Ipv4 := 0x0A06_0000
  const NET_5: Ipv4 := 0x0500_0000

  const PGW_TABLE: seq<Route> :=
    [Route(NET_10, 8, OnLink(TUNNEL)), Route(NET_10_5, 16, OnLink(BACKBONE)), Route(NET_10_6, 16, OnLink(BACKBONE))]

  // A wired node after ConfigureCellRadio(ip): its backbone network, the /16 of its address, the default route.
  function WiredTable(ip: Ipv4): seq<Route> {
    [Route(NET_5, 8, OnLink(1)), Route(ip, 16, OnLink(1)), Route(0, 0, Via(Manager.GATEWAY, 1))]
  }

  // Which interface the PGW uses for any address, by longest prefix.
  lemma PgwLookup(ip: Ipv4)
    ensures Manager.PartOf105(ip) || Manager.PartOf106(ip) ==>
              Lookup(PGW_TABLE, ip).Some? && Lookup(PGW_TABLE, ip).value.hop == OnLink(BACKBONE)
    ensures Manager.PartOf10(ip) && !Manager.PartOf105(ip) && !Manager.PartOf106(ip) ==>
              Lookup(PGW_TABLE, ip) == Some(PGW_TABLE[0])
    ensures !Manager.PartOf10(ip) ==> Lookup(PGW_TABLE, ip) == None
  {
    LookupIsLongest(PGW_TABLE, ip);
    var t, n5, n6 := PGW_TABLE[0], PGW_TABLE[1], PGW_TABLE[2];
    assert forall r :: r in PGW_TABLE <==> r == t || r == n5 || r == n6;
    assert Matches(t, ip) <==> Manager.PartOf10(ip);
    assert Matches(n5, ip) <==> Manager.PartOf105(ip);
    assert Matches(n6, ip) <==> Manager.PartOf106(ip);
    assert n5 in PGW_TABLE && n6 in PGW_TABLE && t in PGW_TABLE;
  }

  // For every address that a node is really configured with, the PGW sends its traffic to the backbone if the
  // node is wired and into the tunnel if it is a radio node.
  lemma PgwReachesTheNode(m: Manager.State, id: nat, ip: Ipv4)
    requires Manager.Inv(m)
    requires var o := Manager.ConfigureCellRadio(m, id, ip); o.verdict == Manager.Fine && o.effects != []
    ensures var n := m.toNs3[id];
      && Lookup(PGW_TABLE, ip).Some?
      && Lookup(PGW_TABLE, ip).value.hop == OnLink(if n in m.wired then BACKBONE else TUNNEL)
      && (n in m.wired <==> n !in m.radio)
  {
    ManagerTheory.SoundNode(m, id);
    PgwLookup(ip);
  }

  predicate SameNet16(a: Ipv4, b: Ipv4) {
    a / 0x1_0000 == b / 0x1_0000
  }

  // A configured wired sender delivers a 10.0.0.0/8 destination directly exactly when it is in its own /16;
  // everything else in 10.0.0.0/8 goes to the PGW, which it reaches directly.
  lemma WiredSenderRoutes(m: Manager.State, id: nat, ip: Ipv4, dst: Ipv4)
    requires Manager.Inv(m) && Manager.PartOf10(dst)
    requires var o := Manager.ConfigureCellRadio(m, id, ip);
             o.verdict == Manager.Fine && o.effects != [] && m.toNs3[id] in m.wired
    ensures Manager.ConfigureCellRadio(m, id, ip).effects ==
            [Manager.AddressAdded(m.toNs3[id], 1, ip, 16), Manager.DefaultRoute(m.toNs3[id], Manager.GATEWAY)]
    ensures Lookup(WiredTable(ip), dst).Some?
    ensures Lookup(WiredTable(ip), dst).value.hop ==
            if SameNet16(ip, dst) then OnLink(1) else Via(Manager.GATEWAY, 1)
    ensures Lookup(WiredTable(ip), Manager.GATEWAY).Some? && Lookup(WiredTable(ip), Manager.GATEWAY).value.hop == OnLink(1)
  {
    ManagerTheory.SoundNode(m, id);
    hide Manager.Inv, Lookup;
    assert Manager.PartOf10(ip);
    WiredLookup(ip, dst);
    GatewayLookup(ip);
  }

  lemma WiredLookup(ip: Ipv4, dst: Ipv4)
    requires Manager.PartOf10(dst)
    ensures var best := Lookup(WiredTable(ip), dst);
            best.Some? && best.value.hop == if SameNet16(ip, dst) then OnLink(1) else Via(Manager.GATEWAY, 1)
  {
    hide Lookup;
    var table := WiredTable(ip);
    LookupIsLongest(table, dst);
    var back, own, default := table[0], table[1], table[2];
    assert forall r :: r in table <==> r == back || r == own || r == default;
    assert !Matches(back, dst) && Matches(default, dst) && (Matches(own, dst) <==> SameNet16(ip, dst));
  }

  lemma GatewayLookup(ip: Ipv4)
    requires Manager.PartOf10(ip)
    ensures Lookup(WiredTable(ip), Manager.GATEWAY).Some? && Lookup(WiredTable(ip), Manager.GATEWAY).value.hop == OnLink(1)
  {
    hide Lookup;
    var table := WiredTable(ip);
    LookupIsLongest(table, Manager.GATEWAY);
    var back, own, default := table[0], table[1], table[2];
    assert forall r :: r in table <==> r == back || r == own || r == default;
    assert Matches(back, Manager.GATEWAY) && !Matches(own, Manager.GATEWAY) && back in table;
  }
}
