/** Which host ports the stack publishes, and the checks that keep them from colliding. */
module Ports {
  import opened Replies

  /** An IPv4 address as its number, so that one address has one form. */
  type Ipv4 = n: int | 0 <= n < 0x1_0000_0000

  const WILDCARD: Ipv4 := 0
  const LOOPBACK: Ipv4 := 0x7f00_0001
  const COMET_PORT := 8000
  const GATEWAY_PORT := 8090

  /** One comma-separated item, as the address parser sees it once stripped. */
  datatype Item = Blank | V4(address: Ipv4) | Rejected

  datatype Mapping = Mapping(address: Ipv4, hostPort: int, containerPort: int)

  datatype Settings = Settings(
    binds: Option<seq<Item>>, stremio: bool, stremioPort: int, stremioContainerPort: int,
    comet: bool, cometPort: int, gateway: bool, gatewayPort: int)

  predicate NoRepeat<T(==)>(s: seq<T>) {
    forall i, j :: 0 <= i < j < |s| ==> s[i] != s[j]
  }

  predicate Overlap(a: Mapping, b: Mapping) {
    a.hostPort == b.hostPort && (a.address == b.address || a.address == WILDCARD || b.address == WILDCARD)
  }

  predicate NoOverlap(ms: seq<Mapping>) {
    forall i, j :: 0 <= i < j < |ms| ==> !Overlap(ms[i], ms[j])
  }

  // ----- Bind addresses -----

  /** The values found after `values`, keeping the first of equal ones. */
  function Collect(items: seq<Item>, values: seq<Ipv4>): Reply<seq<Ipv4>> {
    if items == [] then Answer(values)
    else if items[0].Rejected? then Raises
    else if items[0].V4? && items[0].address !in values then Collect(items[1..], values + [items[0].address])
    else Collect(items[1..], values)
  }

  method ParseIpv4Csv(raw: Option<seq<Item>>, fallback: seq<Ipv4>) returns (r: Reply<seq<Ipv4>>)
    ensures r == if raw.None? then Answer(fallback) else Collect(raw.value, [])
  {
    if raw.None? {
      return Answer(fallback);
    }
    var values: seq<Ipv4> := [];
    for i := 0 to |raw.value|
      invariant Collect(raw.value[i..], values) == Collect(raw.value, [])
    {
      var item := raw.value[i];
      assert raw.value[i..][1..] == raw.value[i + 1..];
      if item.Rejected? {
        return Raises;
      }
      if item.V4? && item.address !in values {
        values := values + [item.address];
      }
    }
    return Answer(values);
  }

  /** Parsing fails exactly on an item that is no IPv4 address; otherwise each listed
      address appears exactly once. */
  lemma {:induction false} CollectExactly(items: seq<Item>, values: seq<Ipv4>)
    requires NoRepeat(values)
    ensures var r := Collect(items, values);
            && (r.Answer? <==> Rejected !in items)
            && (r.Answer? ==> NoRepeat(r.value) && values <= r.value)
            && (r.Answer? ==> forall a :: a in r.value <==> a in values || V4(a) in items)
  {
    if items != [] {
      assert items == [items[0]] + items[1..];
      if items[0].V4? && items[0].address !in values {
        CollectExactly(items[1..], values + [items[0].address]);
      } else if !items[0].Rejected? {
        CollectExactly(items[1..], values);
      }
    }
  }

  // ----- The checks -----

  /** Host ports that are compared; the gateway's only when it is enabled. */
  function ConfiguredPorts(s: Settings): seq<int> {
    [s.stremioPort, s.cometPort] + if s.gateway then [s.gatewayPort] else []
  }

  /** The pairwise comparison. */
  method CheckPorts(ports: seq<int>) returns (collision: bool)
    ensures collision <==> !NoRepeat(ports)
  {
    for i := 0 to |ports|
      invariant forall a, b :: 0 <= a < b < |ports| && a < i ==> ports[a] != ports[b]
    {
      for j := i + 1 to |ports|
        invariant forall b :: i < b < j ==> ports[i] != ports[b]
      {
        if ports[i] == ports[j] {
          return true;
        }
      }
    }
    return false;
  }

  predicate Accepted(s: Settings, addresses: seq<Ipv4>) {
    && !(WILDCARD in addresses && |addresses| > 1)
    && NoRepeat(ConfiguredPorts(s))
    && (s.gateway ==> s.comet)
  }

  function BindAddresses(s: Settings): Reply<seq<Ipv4>> {
    if s.binds.None? then Answer([LOOPBACK]) else Collect(s.binds.value, [])
  }

  // ----- What is published -----

  function ForPort(addresses: seq<Ipv4>, host: int, container: int): seq<Mapping> {
    seq(|addresses|, i requires 0 <= i < |addresses| => Mapping(addresses[i], host, container))
  }

  function Row(address: Ipv4, pairs: seq<(int, int)>): seq<Mapping> {
    seq(|pairs|, k requires 0 <= k < |pairs| => Mapping(address, pairs[k].0, pairs[k].1))
  }

  /** Every address with every pair, address by address. */
  function Cross(addresses: seq<Ipv4>, pairs: seq<(int, int)>): seq<Mapping> {
    if addresses == [] then [] else
      Cross(addresses[..|addresses| - 1], pairs) + Row(addresses[|addresses| - 1], pairs)
  }

  function Pairs(s: Settings): seq<(int, int)> {
    if s.stremio then [(s.stremioPort, s.stremioContainerPort)] else []
  }

  function CometMappings(s: Settings, addresses: seq<Ipv4>): seq<Mapping> {
    if !s.comet then []
    else if s.gateway then [Mapping(LOOPBACK, s.cometPort, COMET_PORT)] + ForPort(addresses, s.gatewayPort, GATEWAY_PORT)
    else ForPort(addresses, s.cometPort, COMET_PORT)
  }

  function Published(s: Settings, addresses: seq<Ipv4>): seq<Mapping> {
    Cross(addresses, Pairs(s)) + CometMappings(s, addresses)
  }

  /** `render_gluetun_ports`: nothing to publish is told apart from an empty list. */
  method RenderGluetunPorts(addresses: seq<Ipv4>, pairs: seq<(int, int)>, extra: seq<Mapping>)
      returns (lines: Option<seq<Mapping>>)
    ensures lines == var all := Cross(addresses, pairs) + extra; if all == [] then None else Some(all)
  {
    if addresses == [] && extra == [] {
      return None;
    }
    var out: seq<Mapping> := [];
    for i := 0 to |addresses|
      invariant out == Cross(addresses[..i], pairs)
    {
      var before := out;
      for k := 0 to |pairs|
        invariant out == before + Row(addresses[i], pairs)[..k]
      {
        out := out + [Mapping(addresses[i], pairs[k].0, pairs[k].1)];
      }
      assert addresses[..i + 1][..i] == addresses[..i];
    }
    assert addresses[..|addresses|] == addresses;
    out := out + extra;
    return if out == [] then None else Some(out);
  }

  /** The published mappings of a configuration, or the refusal of it. */
  method PublishPorts(s: Settings) returns (r: Reply<Option<seq<Mapping>>>)
    ensures var binds := BindAddresses(s);
            if binds.Answer? && Accepted(s, binds.value)
            then r == Answer(var all := Published(s, binds.value); if all == [] then None else Some(all))
            else r == Raises
  {
    NeverExits(if s.binds.Some? then s.binds.value else [], []);
    var parsed := ParseIpv4Csv(s.binds, [LOOPBACK]);
    var addresses :- parsed;
    if WILDCARD in addresses && |addresses| > 1 {
      return Raises;
    }
    var ports := [s.stremioPort, s.cometPort];
    if s.gateway {
      ports := ports + [s.gatewayPort];
    }
    assert ports == ConfiguredPorts(s);
    var collision := CheckPorts(ports);
    if collision || (s.gateway && !s.comet) {
      return Raises;
    }
    var extra: seq<Mapping> := [];
    if s.comet {
      var port, container := s.cometPort, COMET_PORT;
      if s.gateway {
        extra := [Mapping(LOOPBACK, s.cometPort, COMET_PORT)];
        port, container := s.gatewayPort, GATEWAY_PORT;
      }
      var head := extra;
      for i := 0 to |addresses|
        invariant extra == head + ForPort(addresses, port, container)[..i]
      {
        extra := extra + [Mapping(addresses[i], port, container)];
      }
      assert ForPort(addresses, port, container)[..|addresses|] == ForPort(addresses, port, container);
      assert !s.gateway ==> extra == ForPort(addresses, port, container);
    }
    assert extra == CometMappings(s, addresses);
    var lines := RenderGluetunPorts(addresses, Pairs(s), extra);
    return Answer(lines);
  }

  lemma {:induction false} NeverExits(items: seq<Item>, values: seq<Ipv4>)
    ensures !Collect(items, values).Exits?
  {
    if items != [] && !items[0].Rejected? {
      NeverExits(items[1..], values);
      NeverExits(items[1..], values + if items[0].V4? then [items[0].address] else []);
    }
  }

  // ----- No collisions -----

  lemma {:induction false} CrossOfOne(addresses: seq<Ipv4>, s: Settings)
    ensures Cross(addresses, Pairs(s)) ==
              if s.stremio then ForPort(addresses, s.stremioPort, s.stremioContainerPort) else []
  {
    if addresses != [] {
      CrossOfOne(addresses[..|addresses| - 1], s);
    }
  }

  predicate Disjoint(a: seq<Mapping>, b: seq<Mapping>) {
    forall x, y :: x in a && y in b ==> !Overlap(x, y)
  }

  lemma ConcatNoOverlap(a: seq<Mapping>, b: seq<Mapping>)
    ensures NoOverlap(a + b) <==> NoOverlap(a) && NoOverlap(b) && Disjoint(a, b)
  {
    var all := a + b;
    if NoOverlap(all) {
      forall i, j | 0 <= i < j < |a| ensures !Overlap(a[i], a[j]) {
        assert all[i] == a[i] && all[j] == a[j];
      }
      forall i, j | 0 <= i < j < |b| ensures !Overlap(b[i], b[j]) {
        assert all[|a| + i] == b[i] && all[|a| + j] == b[j];
      }
      forall x, y | x in a && y in b ensures !Overlap(x, y) {
        var i :| 0 <= i < |a| && a[i] == x;
        var j :| 0 <= j < |b| && b[j] == y;
        assert all[i] == x && all[|a| + j] == y;
      }
    }
    if NoOverlap(a) && NoOverlap(b) && Disjoint(a, b) {
      forall i, j | 0 <= i < j < |all| ensures !Overlap(all[i], all[j]) {
        if j < |a| {
          assert all[i] == a[i] && all[j] == a[j];
        } else if |a| <= i {
          assert all[i] == b[i - |a|] && all[j] == b[j - |a|];
        } else {
          assert all[i] in a && all[j] in b;
        }
      }
    }
  }

  predicate Crowded(addresses: seq<Ipv4>) {
    WILDCARD in addresses && |addresses| > 1
  }

  predicate Reaches(addresses: seq<Ipv4>, address: Ipv4) {
    address in addresses || WILDCARD in addresses
  }

  lemma OnePortExactly(addresses: seq<Ipv4>, host: int, container: int)
    requires NoRepeat(addresses)
    ensures NoOverlap(ForPort(addresses, host, container)) <==> !Crowded(addresses)
  {
    var ms := ForPort(addresses, host, container);
    if Crowded(addresses) {
      var k :| 0 <= k < |addresses| && addresses[k] == WILDCARD;
      var other := if k == 0 then 1 else 0;
      assert Overlap(ms[k], ms[other]) && Overlap(ms[other], ms[k]);
    }
  }

  lemma TwoPortsExactly(addresses: seq<Ipv4>, h1: int, c1: int, h2: int, c2: int)
    ensures Disjoint(ForPort(addresses, h1, c1), ForPort(addresses, h2, c2)) <==> h1 != h2 || addresses == []
  {
    var a, b := ForPort(addresses, h1, c1), ForPort(addresses, h2, c2);
    if h1 == h2 && addresses != [] {
      assert a[0] in a && b[0] in b && Overlap(a[0], b[0]);
    }
  }

  lemma LoopbackExactly(addresses: seq<Ipv4>, host: int, container: int, port: int, inner: int)
    ensures var m := [Mapping(LOOPBACK, port, inner)];
            && (Disjoint(ForPort(addresses, host, container), m) <==> host != port || !Reaches(addresses, LOOPBACK))
            && (Disjoint(m, ForPort(addresses, host, container)) <==> host != port || !Reaches(addresses, LOOPBACK))
  {
    var a := ForPort(addresses, host, container);
    var m := [Mapping(LOOPBACK, port, inner)];
    if host == port && Reaches(addresses, LOOPBACK) {
      var k :| 0 <= k < |addresses| && (addresses[k] == LOOPBACK || addresses[k] == WILDCARD);
      assert a[k] in a && m[0] in m && Overlap(a[k], m[0]) && Overlap(m[0], a[k]);
    }
  }

  /** When two published mappings collide, in terms of the settings: for any combination of
      services, gateway and addresses. */
  predicate Collides(s: Settings, addresses: seq<Ipv4>) {
    || (Crowded(addresses) && (s.stremio || s.comet))
    || (s.stremio && s.comet && !s.gateway && addresses != [] && s.stremioPort == s.cometPort)
    || (s.stremio && s.comet && s.gateway && addresses != [] && s.stremioPort == s.gatewayPort)
    || (s.comet && s.gateway && Reaches(addresses, LOOPBACK) &&
        ((s.stremio && s.stremioPort == s.cometPort) || s.gatewayPort == s.cometPort))
  }

  lemma CollidesExactlyWhen(s: Settings, addresses: seq<Ipv4>)
    requires NoRepeat(addresses)
    ensures NoOverlap(Published(s, addresses)) <==> !Collides(s, addresses)
  {
    CrossOfOne(addresses, s);
    var stremio := Cross(addresses, Pairs(s));
    var comet := CometMappings(s, addresses);
    var raw := [Mapping(LOOPBACK, s.cometPort, COMET_PORT)];
    var gateway := ForPort(addresses, s.gatewayPort, GATEWAY_PORT);
    OnePortExactly(addresses, s.stremioPort, s.stremioContainerPort);
    OnePortExactly(addresses, s.cometPort, COMET_PORT);
    OnePortExactly(addresses, s.gatewayPort, GATEWAY_PORT);
    TwoPortsExactly(addresses, s.stremioPort, s.stremioContainerPort, s.cometPort, COMET_PORT);
    TwoPortsExactly(addresses, s.stremioPort, s.stremioContainerPort, s.gatewayPort, GATEWAY_PORT);
    LoopbackExactly(addresses, s.stremioPort, s.stremioContainerPort, s.cometPort, COMET_PORT);
    LoopbackExactly(addresses, s.gatewayPort, GATEWAY_PORT, s.cometPort, COMET_PORT);
    ConcatNoOverlap(stremio, comet);
    ConcatNoOverlap(raw, gateway);
    DisjointFromConcat(stremio, raw, gateway);
    assert NoOverlap(raw);
    hide NoOverlap, Overlap, ForPort, Cross, NoRepeat, Crowded, Reaches;
    assert Disjoint([], comet) && Disjoint(stremio, []);
    assert NoOverlap([]) by { NothingOverlaps(); }
  }

  lemma NothingOverlaps()
    ensures NoOverlap([])
  {
  }

  lemma DisjointFromConcat(a: seq<Mapping>, b: seq<Mapping>, c: seq<Mapping>)
    ensures Disjoint(a, b + c) <==> Disjoint(a, b) && Disjoint(a, c)
  {
    assert forall x :: x in b + c <==> x in b || x in c;
  }

  /** No two published mappings of an accepted configuration claim the same host port on
      overlapping addresses. */
  lemma AcceptedNeverCollides(s: Settings)
    requires BindAddresses(s).Answer? && Accepted(s, BindAddresses(s).value)
    ensures NoOverlap(Published(s, BindAddresses(s).value))
  {
    var addresses := BindAddresses(s).value;
    if s.binds.Some? {
      CollectExactly(s.binds.value, []);
    }
    assert NoRepeat(addresses);
    hide NoOverlap, NoRepeat, Published, Collect, BindAddresses, ConfiguredPorts;
    CollidesExactlyWhen(s, addresses);
    ConfiguredPortsRepeat(s);
  }

  /** The checks refuse a configuration that would not collide exactly when it repeats a port
      or crowds the wildcard where that does no harm, or asks for a gateway without Comet.
      Ports are compared although Stremio or Comet is off or nothing is published, and raw
      Comet's although with the gateway it sits on the loopback address alone. */
  lemma NeedlesslyRefusedExactlyWhen(s: Settings, addresses: seq<Ipv4>)
    requires NoRepeat(addresses)
    ensures !Accepted(s, addresses) && NoOverlap(Published(s, addresses)) <==>
            || (s.gateway && !s.comet && !(Crowded(addresses) && s.stremio))
            || (s.comet && !s.gateway && !Crowded(addresses) && s.stremioPort == s.cometPort && (!s.stremio || addresses == []))
            || (s.comet && s.gateway && !Crowded(addresses)
                && (s.stremioPort == s.gatewayPort ==> !s.stremio || addresses == [])
                && (s.stremioPort == s.cometPort ==> !s.stremio || !Reaches(addresses, LOOPBACK))
                && (s.gatewayPort == s.cometPort ==> !Reaches(addresses, LOOPBACK))
                && (s.stremioPort == s.gatewayPort || s.stremioPort == s.cometPort || s.gatewayPort == s.cometPort))
            || (!s.comet && !s.gateway && (s.stremio ==> !Crowded(addresses))
                && (Crowded(addresses) || s.stremioPort == s.cometPort))
  {
    CollidesExactlyWhen(s, addresses);
    ConfiguredPortsRepeat(s);
    hide NoOverlap, NoRepeat, Published, Reaches, ConfiguredPorts;
  }

  lemma ConfiguredPortsRepeat(s: Settings)
    ensures NoRepeat(ConfiguredPorts(s)) <==>
            s.stremioPort != s.cometPort && (s.gateway ==> s.stremioPort != s.gatewayPort && s.cometPort != s.gatewayPort)
  {
    var ports := ConfiguredPorts(s);
    if NoRepeat(ports) {
      assert ports[0] != ports[1] && (s.gateway ==> ports[0] != ports[2] && ports[1] != ports[2]);
    }
  }

  /** With Stremio and Comet published on the same addresses and no gateway the checks refuse
      no more than they must. */
  lemma ChecksAreExactWithoutGateway(s: Settings, addresses: seq<Ipv4>)
    requires NoRepeat(addresses) && addresses != [] && s.stremio && s.comet && !s.gateway
    ensures Accepted(s, addresses) <==> NoOverlap(Published(s, addresses))
  {
    CollidesExactlyWhen(s, addresses);
    ConfiguredPortsRepeat(s);
    hide NoOverlap, NoRepeat, Published, ConfiguredPorts;
  }

  /** What is published, exactly: each service's host port leads to its own container port, on
      every bind address; raw Comet's, when the gateway is on, on the loopback address alone. */
  lemma PublishedExactly(s: Settings, addresses: seq<Ipv4>, m: Mapping)
    ensures m in Published(s, addresses) <==>
            || (s.stremio && m.address in addresses && m.hostPort == s.stremioPort && m.containerPort == s.stremioContainerPort)
            || (s.comet && !s.gateway && m.address in addresses && m.hostPort == s.cometPort && m.containerPort == 8000)
            || (s.comet && s.gateway && m.address in addresses && m.hostPort == s.gatewayPort && m.containerPort == 8090)
            || (s.comet && s.gateway && m.address == LOOPBACK && m.hostPort == s.cometPort && m.containerPort == 8000)
  {
    CrossOfOne(addresses, s);
    ForPortExactly(addresses, s.stremioPort, s.stremioContainerPort, m);
    ForPortExactly(addresses, s.cometPort, COMET_PORT, m);
    ForPortExactly(addresses, s.gatewayPort, GATEWAY_PORT, m);
    var raw := [Mapping(LOOPBACK, s.cometPort, COMET_PORT)];
    hide ForPort, Cross;
    assert m in raw <==> m == raw[0];
  }

  lemma ForPortExactly(addresses: seq<Ipv4>, host: int, container: int, m: Mapping)
    ensures m in ForPort(addresses, host, container) <==>
            m.address in addresses && m.hostPort == host && m.containerPort == container
  {
    if m.address in addresses && m.hostPort == host && m.containerPort == container {
      var k :| 0 <= k < |addresses| && addresses[k] == m.address;
      assert ForPort(addresses, host, container)[k] == m;
    }
  }

  /** In an accepted configuration a published host port decides what it reaches: Stremio's its
      configured container port, Comet's 8000, the gateway's 8090. */
  lemma HostPortDecidesContainer(s: Settings, m: Mapping)
    requires BindAddresses(s).Answer? && Accepted(s, BindAddresses(s).value)
    requires m in Published(s, BindAddresses(s).value)
    ensures m.hostPort == s.stremioPort || m.hostPort == s.cometPort || (s.gateway && m.hostPort == s.gatewayPort)
    ensures m.containerPort == if m.hostPort == s.stremioPort then s.stremioContainerPort
                               else if m.hostPort == s.cometPort then 8000 else 8090
  {
    PublishedExactly(s, BindAddresses(s).value, m);
    ConfiguredPortsRepeat(s);
    hide Published, BindAddresses, NoRepeat, ConfiguredPorts;
  }

  /** Comet's own host port is published on the loopback address only when the gateway is on.
      This says nothing about other mappings that lead to Comet. */
  lemma RawCometOnLoopbackOnly(s: Settings, m: Mapping)
    requires BindAddresses(s).Answer? && Accepted(s, BindAddresses(s).value) && s.gateway
    requires m in Published(s, BindAddresses(s).value) && m.hostPort == s.cometPort
    ensures m == Mapping(LOOPBACK, s.cometPort, COMET_PORT)
  {
    var ports := ConfiguredPorts(s);
    assert ports[0] != ports[1] && ports[1] != ports[2];
    CrossOfOne(BindAddresses(s).value, s);
    hide Cross, Collect;
  }

  /** All services share one network namespace, so every mapping to Comet's container port
      leads to raw Comet, whichever service it was published for. */
  predicate RawCometIsLocal(ms: seq<Mapping>) {
    forall m <- ms :: m.containerPort == COMET_PORT ==> m.address == LOOPBACK
  }

  lemma ForPortAddresses(addresses: seq<Ipv4>, host: int, container: int)
    ensures forall m <- ForPort(addresses, host, container) :: m.containerPort == container && m.address in addresses
    ensures forall a <- addresses :: Mapping(a, host, container) in ForPort(addresses, host, container)
  {
    forall a | a in addresses ensures Mapping(a, host, container) in ForPort(addresses, host, container) {
      ForPortExactly(addresses, host, container, Mapping(a, host, container));
    }
  }

  /** With the gateway on, raw Comet is published on 127.0.0.1 only, exactly when Stremio's
      container port is not Comet's or Stremio is published on no other address either: the
      checks compare host ports and never look at container ports. */
  lemma RawCometIsLocalExactlyWhen(s: Settings, addresses: seq<Ipv4>)
    requires s.comet && s.gateway
    ensures RawCometIsLocal(Published(s, addresses)) <==>
            !(s.stremio && s.stremioContainerPort == COMET_PORT && exists a <- addresses :: a != LOOPBACK)
  {
    CrossOfOne(addresses, s);
    ForPortAddresses(addresses, s.stremioPort, s.stremioContainerPort);
    ForPortAddresses(addresses, s.gatewayPort, GATEWAY_PORT);
    var stremio := Cross(addresses, Pairs(s));
    var comet := CometMappings(s, addresses);
    assert Published(s, addresses) == stremio + comet;
    assert RawCometIsLocal(comet);
    assert RawCometIsLocal(stremio + comet) <==> RawCometIsLocal(stremio) && RawCometIsLocal(comet) by {
      assert forall m :: m in stremio + comet <==> m in stremio || m in comet;
    }
  }

  /** Stremio on 192.168.0.1:11470 with container port 8000, Comet on 8000, gateway on 8090. */
  const SHARED_PORT := Settings(Some([V4(0xC0A8_0001)]), true, 11470, COMET_PORT, true, 8000, true, 8090)

  /** The checks accept this configuration, and it publishes raw Comet beside the gateway. */
  lemma StremioMappingReachesRawComet()
    ensures BindAddresses(SHARED_PORT) == Answer([0xC0A8_0001])
    ensures Accepted(SHARED_PORT, [0xC0A8_0001])
    ensures Mapping(0xC0A8_0001, 11470, COMET_PORT) in Published(SHARED_PORT, [0xC0A8_0001])
    ensures !RawCometIsLocal(Published(SHARED_PORT, [0xC0A8_0001]))
  {
    var addresses: seq<Ipv4> := [0xC0A8_0001];
    assert Collect([V4(0xC0A8_0001)], []) == Answer(addresses) by {
      assert [V4(0xC0A8_0001)][1..] == [] && [] + addresses == addresses;
    }
    CrossOfOne(addresses, SHARED_PORT);
    ForPortAddresses(addresses, 11470, COMET_PORT);
    assert addresses[0] == 0xC0A8_0001;
    assert Mapping(0xC0A8_0001, 11470, COMET_PORT) in Cross(addresses, Pairs(SHARED_PORT));
    RawCometIsLocalExactlyWhen(SHARED_PORT, addresses);
  }

  /** Comet alone on port 8000: Stremio is off, but its port setting is compared all the same. */
  const STREMIO_OFF := Settings(None, false, 8000, 11470, true, 8000, false, 8090)

  lemma RefusedWithoutCollision()
    ensures !Accepted(STREMIO_OFF, [LOOPBACK]) && NoOverlap(Published(STREMIO_OFF, [LOOPBACK]))
  {
    NeedlesslyRefusedExactlyWhen(STREMIO_OFF, [LOOPBACK]);
  }
}
