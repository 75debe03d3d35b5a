/** The flow tables of a worker (generateTargetOpenFlow of minion/network/worker.go) and how
    a switch runs a packet through them. */
module OpenFlow {
  import opened Basics

  const LABEL_MAC := "0a:00:00:00:00:00"
  const PUBLIC := "public"
  const BROADCAST := "ff:ff:ff:ff:ff:ff"

  datatype Connection = Connection(from: string, to: string, minPort: int)
  datatype LabelRow = LabelRow(name: string, ip: string, multiHost: bool)

  // A container with the port numbers of its patch port and its virtual ethernet device.
  datatype Container = Container(mac: string, labels: seq<string>, di: int, veth: int)

  // ---------------------------------------------------------------------------------
  // Flows
  // ---------------------------------------------------------------------------------

  datatype Port = Local | Port(number: int)
  datatype Protocol = TCP | UDP | ICMP | OtherIP | ARP | NoIP
  datatype Packet = Packet(inPort: Port, dlDst: string, protocol: Protocol, nwDst: string, tpSrc: int, tpDst: int,
                           reg0: nat)

  datatype Class = Any | IP | Only(protocol: Protocol)

  datatype Pattern = Pattern(inPort: Option<Port>, dlDst: Option<string>, class_: Class, nwDst: Option<string>,
                             tpSrc: Option<int>, tpDst: Option<int>, reg0: Option<nat>)

  const ALL := Pattern(None, None, Any, None, None, None, None)

  datatype Action = Output(port: Port) | Multipath(n: nat, high: nat) | SetDst(mac: string) | Resubmit(table: nat)

  datatype Rule = Rule(table: nat, priority: nat, pattern: Pattern, actions: seq<Action>)

  predicate Is<T(==)>(o: Option<T>, x: T) { o.Some? ==> o.value == x }

  predicate InClass(c: Class, p: Protocol) {
    match c
    case Any => true
    case IP => p != ARP && p != NoIP
    case Only(q) => p == q
  }

  predicate Matches(m: Pattern, p: Packet) {
    Is(m.inPort, p.inPort) && Is(m.dlDst, p.dlDst) && InClass(m.class_, p.protocol) && Is(m.nwDst, p.nwDst)
    && Is(m.tpSrc, p.tpSrc) && Is(m.tpDst, p.tpDst) && Is(m.reg0, p.reg0)
  }

  predicate Applies(r: Rule, table: nat, p: Packet) { r.table == table && Matches(r.pattern, p) }

  // A switch takes some applying rule of the highest priority.
  ghost predicate Picks(rules: seq<Rule>, pick: (nat, Packet) -> Option<Rule>) {
    forall t, p ::
      match pick(t, p)
      case None => forall r :: r in rules ==> !Applies(r, t, p)
      case Some(r) =>
        && r in rules && Applies(r, t, p)
        && forall q :: q in rules && Applies(q, t, p) ==> q.priority <= r.priority
  }

  function Pow2(n: nat): (r: nat)
    ensures r > 0
  {
    if n == 0 then 1 else 2 * Pow2(n - 1)
  }

  // The low bits 0..high of a register replaced by those of a value.
  function SetBits(reg: nat, high: nat, value: nat): nat {
    reg - Low(reg, Pow2(high + 1)) + Low(value, Pow2(high + 1))
  }

  function Low(x: nat, m: nat): (r: nat)
    requires m > 0
    ensures r <= x && r < m && (x < m ==> r == x)
  {
    x % m
  }

  // The packets that leave the switch.  The hash of a packet's addresses and ports decides
  // about paths, and resubmission is limited in depth.
  ghost function Process(pick: (nat, Packet) -> Option<Rule>, table: nat, p: Packet, hash: nat,
                         depth: nat): seq<(Port, Packet)>
    decreases depth, 1, 0
  {
    match pick(table, p)
    case None => []
    case Some(r) => Execute(pick, r.actions, p, hash, depth)
  }

  ghost function Execute(pick: (nat, Packet) -> Option<Rule>, actions: seq<Action>, p: Packet, hash: nat, depth: nat)
    : seq<(Port, Packet)>
    decreases depth, 0, |actions|
  {
    if actions == [] then []
    else
      match actions[0]
      case Output(port) => [(port, p)] + Execute(pick, actions[1..], p, hash, depth)
      case Multipath(n, high) =>
        if n == 0 then [] else Execute(pick, actions[1..], p.(reg0 := SetBits(p.reg0, high, hash % n)), hash, depth)
      case SetDst(mac) => Execute(pick, actions[1..], p.(dlDst := mac), hash, depth)
      case Resubmit(t) =>
        (if depth == 0 then [] else Process(pick, t, p, hash, depth - 1)) + Execute(pick, actions[1..], p, hash, depth)
  }

  // ---------------------------------------------------------------------------------
  // The rules of a container
  // ---------------------------------------------------------------------------------

  function Forwarding(c: Container): seq<Rule> {
    [Rule(0, 5000, ALL.(inPort := Some(Port(c.di))), [Output(Port(c.veth))]),
     Rule(2, 5000, ALL.(inPort := Some(Port(c.veth))), [Output(Port(c.di))]),
     Rule(0, 0, ALL.(inPort := Some(Port(c.veth))), [Output(Port(c.di))])]
  }

  predicate ToWeb(conn: Connection, l: string) { conn.from == l && conn.to == PUBLIC }

  predicate FromWeb(conn: Connection, l: string) { !ToWeb(conn, l) && conn.from == PUBLIC && conn.to == l }

  ghost function PortsToWeb(c: Container, conns: seq<Connection>): set<int> {
    set l, conn | l in c.labels && conn in conns && ToWeb(conn, l) :: conn.minPort
  }

  ghost function PortsFromWeb(c: Container, conns: seq<Connection>): set<int> {
    set l, conn | l in c.labels && conn in conns && FromWeb(conn, l) :: conn.minPort
  }

  function Egress(c: Container, gateway: string, protocol: Protocol, tpSrc: Option<int>, tpDst: Option<int>): Rule {
    Rule(0, 5000, Pattern(Some(Port(c.veth)), Some(gateway), Only(protocol), None, tpSrc, tpDst, None), [Output(Local)])
  }

  function Ingress(c: Container, protocol: Protocol, tpSrc: Option<int>, tpDst: Option<int>): Rule {
    Rule(0, 5000, Pattern(Some(Local), Some(c.mac), Only(protocol), None, tpSrc, tpDst, None), [Output(Port(c.veth))])
  }

  // The rules for one port that is open to or from the public internet.
  function PortRules(c: Container, gateway: string, port: int, toWeb: bool): seq<Rule> {
    var here, there := if toWeb then None else Some(port), if toWeb then Some(port) else None;
    [Egress(c, gateway, TCP, here, there), Ingress(c, TCP, there, here),
     Egress(c, gateway, UDP, here, there), Ingress(c, UDP, there, here)]
  }

  ghost predicate PortRule(r: Rule, c: Container, gateway: string, ports: set<int>, toWeb: bool) {
    exists port :: port in ports && r in PortRules(c, gateway, port, toWeb)
  }

  function OtherRules(c: Container, gateway: string, toWeb: bool, fromWeb: bool): seq<Rule> {
    (if toWeb || fromWeb then [Egress(c, gateway, ICMP, None, None), Ingress(c, ICMP, None, None)] else [])
    + (if fromWeb then
         [Rule(0, 4500, ALL.(class_ := Only(ARP), inPort := Some(Local), dlDst := Some(BROADCAST)),
               [Output(Port(c.veth))])]
       else [])
    + [Rule(0, 4500, ALL.(class_ := Only(ARP), inPort := Some(Port(c.veth))),
            if toWeb || fromWeb then [Output(Port(c.di)), Output(Local)] else [Output(Port(c.di))]),
       Rule(0, 4500, ALL.(class_ := Only(ARP), inPort := Some(Local), dlDst := Some(c.mac)), [Output(Port(c.veth))])]
  }

  ghost predicate ContainerRule(r: Rule, c: Container, conns: seq<Connection>, gateway: string) {
    || r in Forwarding(c)
    || PortRule(r, c, gateway, PortsFromWeb(c, conns), false)
    || PortRule(r, c, gateway, PortsToWeb(c, conns), true)
    || r in OtherRules(c, gateway, PortsToWeb(c, conns) != {}, PortsFromWeb(c, conns) != {})
  }

  // ---------------------------------------------------------------------------------
  // The rules of a label
  // ---------------------------------------------------------------------------------

  ghost function MacsOf(cs: seq<Container>, l: string): set<string> {
    set c | c in cs && l in c.labels :: c.mac
  }

  // The number of bits that count n values.
  function CeilLog2(n: nat): (k: nat)
    requires n > 0
    ensures n <= Pow2(k) && (k > 0 ==> Pow2(k - 1) < n)
  {
    if n == 1 then 0 else CeilLog2((n + 1) / 2) + 1
  }

  function Spread(l: LabelRow, n: nat): Rule
    requires n > 0
  {
    Rule(0, 4000, Pattern(None, Some(LABEL_MAC), IP, Some(l.ip), None, None, None),
         [Multipath(n, CeilLog2(n)), Resubmit(1)])
  }

  function Deliver(l: LabelRow, i: nat, mac: string): Rule {
    Rule(1, 5000, Pattern(None, None, IP, Some(l.ip), None, None, Some(i)), [SetDst(mac), Resubmit(2)])
  }

  // The addresses in the order of their registers.
  ghost predicate LabelRule(r: Rule, l: LabelRow, macs: seq<string>) {
    l.multiHost && macs != [] && (r == Spread(l, |macs|) || exists i :: 0 <= i < |macs| && r == Deliver(l, i, macs[i]))
  }

  // Sorting lists the elements of a set, each once.
  ghost predicate Sorts(sort: set<string> -> seq<string>) {
    forall s :: multiset(sort(s)) == multiset(s)
  }

  ghost predicate Generated(r: Rule, cs: seq<Container>, labels: seq<LabelRow>, conns: seq<Connection>, gateway: string,
                            sort: set<string> -> seq<string>)
  {
    || (exists c :: c in cs && ContainerRule(r, c, conns, gateway))
    || (exists l :: l in labels && LabelRule(r, l, sort(MacsOf(cs, l.name))))
  }

  // ---------------------------------------------------------------------------------
  // Generation
  // ---------------------------------------------------------------------------------

  method WebPorts(c: Container, conns: seq<Connection>) returns (toWeb: set<int>, fromWeb: set<int>)
    ensures toWeb == PortsToWeb(c, conns) && fromWeb == PortsFromWeb(c, conns)
  {
    toWeb, fromWeb := {}, {};
    for i := 0 to |c.labels|
      invariant toWeb == set l, conn | l in c.labels[..i] && conn in conns && ToWeb(conn, l) :: conn.minPort
      invariant fromWeb == set l, conn | l in c.labels[..i] && conn in conns && FromWeb(conn, l) :: conn.minPort
    {
      var to, from := LabelPorts(c.labels[i], conns);
      assert c.labels[..i + 1] == c.labels[..i] + [c.labels[i]];
      toWeb, fromWeb := toWeb + to, fromWeb + from;
    }
    assert c.labels[..|c.labels|] == c.labels;
  }

  method LabelPorts(l: string, conns: seq<Connection>) returns (toWeb: set<int>, fromWeb: set<int>)
    ensures toWeb == set conn | conn in conns && ToWeb(conn, l) :: conn.minPort
    ensures fromWeb == set conn | conn in conns && FromWeb(conn, l) :: conn.minPort
  {
    toWeb, fromWeb := {}, {};
    for j := 0 to |conns|
      invariant toWeb == set conn | conn in conns[..j] && ToWeb(conn, l) :: conn.minPort
      invariant fromWeb == set conn | conn in conns[..j] && FromWeb(conn, l) :: conn.minPort
    {
      var conn := conns[j];
      assert conns[..j + 1] == conns[..j] + [conn];
      if conn.from == l && conn.to == PUBLIC {
        toWeb := toWeb + {conn.minPort};
      } else if conn.from == PUBLIC && conn.to == l {
        fromWeb := fromWeb + {conn.minPort};
      }
    }
    assert conns[..|conns|] == conns;
  }

  method SomePort(s: set<int>) returns (x: int)
    requires s != {}
    ensures x in s
  {
    assert (forall y :: y !in s) ==> s == {};
    x :| x in s;
  }

  method RulesForPorts(c: Container, gateway: string, ports: set<int>, toWeb: bool) returns (rules: seq<Rule>)
    ensures forall r :: r in rules <==> PortRule(r, c, gateway, ports, toWeb)
  {
    rules := [];
    var rest, done := ports, {};
    while rest != {}
      invariant rest + done == ports
      invariant forall r :: r in rules <==> PortRule(r, c, gateway, done, toWeb)
      decreases rest
    {
      var port := SomePort(rest);
      ghost var before := rules;
      rules := rules + PortRules(c, gateway, port, toWeb);
      forall r ensures r in rules <==> PortRule(r, c, gateway, done + {port}, toWeb) {
        if r in before {
          var q :| q in done && r in PortRules(c, gateway, q, toWeb);
          assert q in done + {port};
        }
      }
      rest, done := rest - {port}, done + {port};
    }
    assert done == ports;
  }

  method ContainerRules(c: Container, conns: seq<Connection>, gateway: string) returns (rules: seq<Rule>)
    ensures forall r :: r in rules <==> ContainerRule(r, c, conns, gateway)
  {
    var toWeb, fromWeb := WebPorts(c, conns);
    var fromRules := RulesForPorts(c, gateway, fromWeb, false);
    var toRules := RulesForPorts(c, gateway, toWeb, true);
    rules := Forwarding(c) + fromRules + toRules + OtherRules(c, gateway, toWeb != {}, fromWeb != {});
  }

  method LabelMacs(cs: seq<Container>) returns (m: map<string, set<string>>)
    ensures forall l :: (if l in m then m[l] else {}) == MacsOf(cs, l)
  {
    m := map[];
    for i := 0 to |cs|
      invariant forall l :: (if l in m then m[l] else {}) == MacsOf(cs[..i], l)
    {
      ghost var before := m;
      for j := 0 to |cs[i].labels|
        invariant forall l :: (if l in m then m[l] else {}) ==
                                MacsOf(cs[..i], l) + if l in cs[i].labels[..j] then {cs[i].mac} else {}
      {
        var l := cs[i].labels[j];
        m := m[l := (if l in m then m[l] else {}) + {cs[i].mac}];
      }
      forall l ensures (if l in m then m[l] else {}) == MacsOf(cs[..i + 1], l) { MoreMacs(cs, i, l); }
    }
    assert cs[..|cs|] == cs;
  }

  lemma MoreMacs(cs: seq<Container>, i: nat, l: string)
    requires i < |cs|
    ensures MacsOf(cs[..i + 1], l) == MacsOf(cs[..i], l) + if l in cs[i].labels then {cs[i].mac} else {}
  {
    assert cs[..i + 1] == cs[..i] + [cs[i]];
  }

  method LabelRules(l: LabelRow, macs: seq<string>) returns (rules: seq<Rule>)
    ensures forall r :: r in rules <==> LabelRule(r, l, macs)
  {
    if !l.multiHost || macs == [] { return []; }
    rules := [Spread(l, |macs|)];
    for i := 0 to |macs|
      invariant forall r :: r in rules <==>
                  r == Spread(l, |macs|) || exists k :: 0 <= k < i && r == Deliver(l, k, macs[k])
    {
      rules := rules + [Deliver(l, i, macs[i])];
    }
  }

  // No rules at all if a port number is missing.
  method GenerateTargetOpenFlow(cs: seq<Container>, labels: seq<LabelRow>, conns: seq<Connection>, gateway: string,
                                sort: set<string> -> seq<string>)
    returns (rules: Option<seq<Rule>>)
    requires Sorts(sort)
    ensures rules.None? <==> exists c :: c in cs && (c.di < 0 || c.veth < 0)
    ensures rules.Some? ==> forall r :: r in rules.value <==> Generated(r, cs, labels, conns, gateway, sort)
  {
    var all: seq<Rule> := [];
    for i := 0 to |cs|
      invariant forall c :: c in cs[..i] ==> 0 <= c.di && 0 <= c.veth
      invariant forall r :: r in all <==> exists c :: c in cs[..i] && ContainerRule(r, c, conns, gateway)
    {
      if cs[i].di < 0 || cs[i].veth < 0 { return None; }
      var more := ContainerRules(cs[i], conns, gateway);
      assert forall c :: c in cs[..i + 1] <==> c == cs[i] || c in cs[..i];
      all := all + more;
    }
    var macs := LabelMacs(cs);
    ghost var fromContainers := all;
    for i := 0 to |labels|
      invariant forall r :: r in all <==>
                  r in fromContainers || exists l :: l in labels[..i] && LabelRule(r, l, sort(MacsOf(cs, l.name)))
    {
      var l := labels[i];
      var more := LabelRules(l, sort(if l.name in macs then macs[l.name] else {}));
      assert forall k :: k in labels[..i + 1] <==> k == l || k in labels[..i];
      all := all + more;
    }
    assert labels[..|labels|] == labels && cs[..|cs|] == cs;
    return Some(all);
  }

  // ---------------------------------------------------------------------------------
  // Load balancing
  // ---------------------------------------------------------------------------------

  // Port numbers identify devices.
  ghost predicate Wired(cs: seq<Container>) {
    && (forall c, d :: c in cs && d in cs ==> c.veth != d.di)
    && (forall c, d :: c in cs && d in cs && c.veth == d.veth ==> c.di == d.di)
  }

  // Addresses identify labels.
  ghost predicate Identified(labels: seq<LabelRow>) {
    forall k, l :: k in labels && l in labels && k.multiHost && l.multiHost && k.ip == l.ip ==> k == l
  }

  // An IP packet from a container to a label with several hosts.
  predicate ToLabel(p: Packet, c: Container, l: LabelRow) {
    p.inPort == Port(c.veth) && p.dlDst == LABEL_MAC && InClass(IP, p.protocol) && p.nwDst == l.ip && p.reg0 == 0
  }

  ghost predicate Tables(rules: seq<Rule>, cs: seq<Container>, labels: seq<LabelRow>, conns: seq<Connection>,
                         gateway: string, sort: set<string> -> seq<string>)
  {
    && (forall r :: r in rules <==> Generated(r, cs, labels, conns, gateway, sort))
    && Sorts(sort) && Wired(cs) && Identified(labels) && gateway != LABEL_MAC
  }

  // A rule of a container that applies to such a packet in table 0 has priority 0.
  lemma NotByContainer(r: Rule, c: Container, d: Container, l: LabelRow, conns: seq<Connection>, gateway: string,
                       p: Packet)
    requires ContainerRule(r, d, conns, gateway) && Applies(r, 0, p) && ToLabel(p, c, l)
    requires c.veth != d.di && gateway != LABEL_MAC
    ensures r.priority == 0
  {
    if r in Forwarding(d) {
    } else if port :| port in PortsFromWeb(d, conns) && r in PortRules(d, gateway, port, false) {
    } else if port :| port in PortsToWeb(d, conns) && r in PortRules(d, gateway, port, true) {
    }
  }

  lemma Table0(rules: seq<Rule>, cs: seq<Container>, labels: seq<LabelRow>, conns: seq<Connection>, gateway: string,
               sort: set<string> -> seq<string>, pick: (nat, Packet) -> Option<Rule>, c: Container, l: LabelRow,
               p: Packet)
    requires Tables(rules, cs, labels, conns, gateway, sort) && Picks(rules, pick)
    requires c in cs && l in labels && l.multiHost && sort(MacsOf(cs, l.name)) != [] && ToLabel(p, c, l)
    ensures pick(0, p) == Some(Spread(l, |sort(MacsOf(cs, l.name))|))
  {
    var spread := Spread(l, |sort(MacsOf(cs, l.name))|);
    assert LabelRule(spread, l, sort(MacsOf(cs, l.name)));
    assert Generated(spread, cs, labels, conns, gateway, sort);
    assert spread in rules && Applies(spread, 0, p);
    var r := pick(0, p).value;
    assert Generated(r, cs, labels, conns, gateway, sort);
    if d :| d in cs && ContainerRule(r, d, conns, gateway) {
      NotByContainer(r, c, d, l, conns, gateway, p);
    }
  }

  lemma Table1(rules: seq<Rule>, cs: seq<Container>, labels: seq<LabelRow>, conns: seq<Connection>, gateway: string,
               sort: set<string> -> seq<string>, pick: (nat, Packet) -> Option<Rule>, l: LabelRow, p: Packet)
    requires Tables(rules, cs, labels, conns, gateway, sort) && Picks(rules, pick)
    requires l in labels && l.multiHost && p.reg0 < |sort(MacsOf(cs, l.name))|
    requires InClass(IP, p.protocol) && p.nwDst == l.ip
    ensures pick(1, p) == Some(Deliver(l, p.reg0, sort(MacsOf(cs, l.name))[p.reg0]))
  {
    var macs := sort(MacsOf(cs, l.name));
    var deliver := Deliver(l, p.reg0, macs[p.reg0]);
    assert LabelRule(deliver, l, macs);
    assert Generated(deliver, cs, labels, conns, gateway, sort);
    assert deliver in rules && Applies(deliver, 1, p);
    var r := pick(1, p).value;
    OneDelivery(r, deliver, cs, labels, conns, gateway, sort, l, p);
  }

  // The rules of a container use tables 0 and 2, and table 2 for one rule only.
  lemma ContainerTables(r: Rule, d: Container, conns: seq<Connection>, gateway: string)
    requires ContainerRule(r, d, conns, gateway)
    ensures r.table == 0 || r == Forwarding(d)[1]
  {
    if r in Forwarding(d) {
    } else if port :| port in PortsFromWeb(d, conns) && r in PortRules(d, gateway, port, false) {
    } else if port :| port in PortsToWeb(d, conns) && r in PortRules(d, gateway, port, true) {
    }
  }

  // Of all rules only one delivers a given register value of a label.
  lemma OneDelivery(r: Rule, deliver: Rule, cs: seq<Container>, labels: seq<LabelRow>, conns: seq<Connection>,
                    gateway: string, sort: set<string> -> seq<string>, l: LabelRow, p: Packet)
    requires Generated(r, cs, labels, conns, gateway, sort) && Applies(r, 1, p) && Identified(labels)
    requires l in labels && l.multiHost && p.nwDst == l.ip && p.reg0 < |sort(MacsOf(cs, l.name))|
    requires deliver == Deliver(l, p.reg0, sort(MacsOf(cs, l.name))[p.reg0])
    ensures r == deliver
  {
    if d :| d in cs && ContainerRule(r, d, conns, gateway) {
      ContainerTables(r, d, conns, gateway);
    }
    var k :| k in labels && LabelRule(r, k, sort(MacsOf(cs, k.name)));
    DeliveryOf(r, k, l, sort(MacsOf(cs, k.name)), p);
  }

  lemma DeliveryOf(r: Rule, k: LabelRow, l: LabelRow, macs: seq<string>, p: Packet)
    requires LabelRule(r, k, macs) && Applies(r, 1, p) && p.nwDst == l.ip
    requires k.multiHost && k.ip == l.ip ==> k == l
    ensures k == l && p.reg0 < |macs| && r == Deliver(l, p.reg0, macs[p.reg0])
  {
    var i :| 0 <= i < |macs| && r == Deliver(k, i, macs[i]);
  }

  lemma Table2(rules: seq<Rule>, cs: seq<Container>, labels: seq<LabelRow>, conns: seq<Connection>, gateway: string,
               sort: set<string> -> seq<string>, pick: (nat, Packet) -> Option<Rule>, c: Container, p: Packet)
    requires Tables(rules, cs, labels, conns, gateway, sort) && Picks(rules, pick)
    requires c in cs && p.inPort == Port(c.veth)
    ensures pick(2, p).Some? && pick(2, p).value.actions == [Output(Port(c.di))]
  {
    var out := Forwarding(c)[1];
    assert ContainerRule(out, c, conns, gateway);
    assert Generated(out, cs, labels, conns, gateway, sort);
    assert out in rules && Applies(out, 2, p);
    OneExit(pick(2, p).value, cs, labels, conns, gateway, sort, c, p);
  }

  lemma OneExit(r: Rule, cs: seq<Container>, labels: seq<LabelRow>, conns: seq<Connection>, gateway: string,
                sort: set<string> -> seq<string>, c: Container, p: Packet)
    requires Generated(r, cs, labels, conns, gateway, sort) && Applies(r, 2, p) && Wired(cs)
    requires c in cs && p.inPort == Port(c.veth)
    ensures r.actions == [Output(Port(c.di))]
  {
    var d :| d in cs && ContainerRule(r, d, conns, gateway);
    ContainerTables(r, d, conns, gateway);
  }

  // The register has room for every path.
  lemma Fits(n: nat, value: nat)
    requires value < n
    ensures SetBits(0, CeilLog2(n), value) == value
  {
    var k := CeilLog2(n);
    assert Pow2(k + 1) == 2 * Pow2(k);
  }

  lemma Small(v: nat, m: nat)
    requires v < m
    ensures v % m == v
  {
  }

  lemma Outputs(pick: (nat, Packet) -> Option<Rule>, p: Packet, hash: nat, depth: nat, port: Port)
    requires pick(2, p).Some? && pick(2, p).value.actions == [Output(port)]
    ensures Process(pick, 2, p, hash, depth) == [(port, p)]
  {
    var actions := [Output(port)];
    assert actions[1..] == [];
    assert Execute(pick, actions, p, hash, depth) == [(port, p)] + Execute(pick, [], p, hash, depth);
  }

  lemma Resubmits(pick: (nat, Packet) -> Option<Rule>, t: nat, p: Packet, hash: nat, depth: nat)
    requires depth > 0
    ensures Execute(pick, [Resubmit(t)], p, hash, depth) == Process(pick, t, p, hash, depth - 1)
  {
    var actions := [Resubmit(t)];
    assert actions[1..] == [];
    assert Execute(pick, actions, p, hash, depth) ==
           Process(pick, t, p, hash, depth - 1) + Execute(pick, [], p, hash, depth);
  }

  lemma Delivers(pick: (nat, Packet) -> Option<Rule>, p: Packet, hash: nat, depth: nat, l: LabelRow, i: nat,
                 mac: string)
    requires pick(1, p) == Some(Deliver(l, i, mac)) && depth > 0
    ensures Process(pick, 1, p, hash, depth) == Process(pick, 2, p.(dlDst := mac), hash, depth - 1)
  {
    var actions := [SetDst(mac), Resubmit(2)];
    assert actions[1..] == [Resubmit(2)];
    assert Execute(pick, actions, p, hash, depth) == Execute(pick, [Resubmit(2)], p.(dlDst := mac), hash, depth);
    Resubmits(pick, 2, p.(dlDst := mac), hash, depth);
  }

  lemma Spreads(pick: (nat, Packet) -> Option<Rule>, p: Packet, hash: nat, depth: nat, l: LabelRow, n: nat)
    requires n > 0 && pick(0, p) == Some(Spread(l, n)) && p.reg0 == 0 && depth > 0
    ensures Process(pick, 0, p, hash, depth) == Process(pick, 1, p.(reg0 := hash % n), hash, depth - 1)
  {
    var actions := [Multipath(n, CeilLog2(n)), Resubmit(1)];
    var p1 := p.(reg0 := hash % n);
    assert actions[1..] == [Resubmit(1)];
    Fits(n, hash % n);
    assert Execute(pick, actions, p, hash, depth) == Execute(pick, [Resubmit(1)], p1, hash, depth);
    Resubmits(pick, 1, p1, hash, depth);
  }

  // Every such packet leaves on the patch port of the container it came from, addressed to
  // the member of the label that its hash selects, whichever rules the switch prefers among
  // those of equal priority.
  lemma Balanced(rules: seq<Rule>, cs: seq<Container>, labels: seq<LabelRow>, conns: seq<Connection>, gateway: string,
                 sort: set<string> -> seq<string>, pick: (nat, Packet) -> Option<Rule>, c: Container, l: LabelRow,
                 p: Packet, hash: nat, depth: nat)
    requires Tables(rules, cs, labels, conns, gateway, sort) && Picks(rules, pick) && depth >= 2
    requires c in cs && l in labels && l.multiHost && ToLabel(p, c, l) && MacsOf(cs, l.name) != {}
    ensures var macs := sort(MacsOf(cs, l.name));
            && macs != [] && macs[hash % |macs|] in MacsOf(cs, l.name)
            && Process(pick, 0, p, hash, depth) ==
                 [(Port(c.di), p.(reg0 := hash % |macs|, dlDst := macs[hash % |macs|]))]
  {
    var macs := sort(MacsOf(cs, l.name));
    Enumerates(sort, MacsOf(cs, l.name));
    var i := hash % |macs|;
    var p1 := p.(reg0 := i);
    var p2 := p1.(dlDst := macs[i]);
    assert pick(0, p) == Some(Spread(l, |macs|)) by { Table0(rules, cs, labels, conns, gateway, sort, pick, c, l, p); }
    assert pick(1, p1) == Some(Deliver(l, i, macs[i])) by {
      Table1(rules, cs, labels, conns, gateway, sort, pick, l, p1);
    }
    assert pick(2, p2).Some? && pick(2, p2).value.actions == [Output(Port(c.di))] by {
      Table2(rules, cs, labels, conns, gateway, sort, pick, c, p2);
    }
    Pipeline(pick, p, hash, depth, l, macs, Port(c.di));
  }

  // The way through the three tables.
  lemma Pipeline(pick: (nat, Packet) -> Option<Rule>, p: Packet, hash: nat, depth: nat, l: LabelRow, macs: seq<string>,
                 port: Port)
    requires macs != [] && depth >= 2 && p.reg0 == 0 && pick(0, p) == Some(Spread(l, |macs|))
    requires var i := hash % |macs|;
             var p2 := p.(reg0 := i, dlDst := macs[i]);
             && pick(1, p.(reg0 := i)) == Some(Deliver(l, i, macs[i]))
             && pick(2, p2).Some? && pick(2, p2).value.actions == [Output(port)]
    ensures Process(pick, 0, p, hash, depth) == [(port, p.(reg0 := hash % |macs|, dlDst := macs[hash % |macs|]))]
  {
    var i := hash % |macs|;
    var p1 := p.(reg0 := i);
    Spreads(pick, p, hash, depth, l, |macs|);
    Delivers(pick, p1, hash, depth - 1, l, i, macs[i]);
    Outputs(pick, p1.(dlDst := macs[i]), hash, depth - 2, port);
  }

  lemma Enumerates(sort: set<string> -> seq<string>, s: set<string>)
    requires Sorts(sort)
    ensures s != {} ==> sort(s) != []
    ensures forall i :: 0 <= i < |sort(s)| ==> sort(s)[i] in s
    ensures forall x :: x in s ==> exists i :: 0 <= i < |sort(s)| && sort(s)[i] == x
  {
    assert multiset(sort(s)) == multiset(s);
    forall x | x in s ensures x in sort(s) { assert x in multiset(s); }
    forall i | 0 <= i < |sort(s)| ensures sort(s)[i] in s { assert sort(s)[i] in multiset(s); }
  }

  // Every member is reached by some hash, and by one value of the register only.
  lemma EveryMember(cs: seq<Container>, l: LabelRow, sort: set<string> -> seq<string>, mac: string)
    requires Sorts(sort) && mac in MacsOf(cs, l.name)
    ensures var macs := sort(MacsOf(cs, l.name));
            && macs != [] && (exists hash: nat :: macs[hash % |macs|] == mac)
            && forall i, j :: 0 <= i < j < |macs| ==> macs[i] != macs[j]
  {
    var s := MacsOf(cs, l.name);
    var macs := sort(s);
    Enumerates(sort, s);
    var i :| 0 <= i < |macs| && macs[i] == mac;
    Small(i, |macs|);
    assert macs[i % |macs|] == mac;
    forall j, k | 0 <= j < k < |macs| ensures macs[j] != macs[k] { Apart(macs, s, j, k); }
  }

  lemma Apart(macs: seq<string>, s: set<string>, j: nat, k: nat)
    requires multiset(macs) == multiset(s) && j < k < |macs|
    ensures macs[j] != macs[k]
  {
    assert macs == macs[..j] + [macs[j]] + macs[j + 1..k] + [macs[k]] + macs[k + 1..];
    assert multiset(s)[macs[j]] <= 1;
  }
}
