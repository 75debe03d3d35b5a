/** Compilation of connections into access control rules (updateACLs of
    minion/network/network.go) over the rule table of ovsdb/ovsdb.go. */
module Acl {
  import opened GreedyJoin

  datatype Connection = Connection(from: string, to: string, minPort: int, maxPort: int)
  datatype LabelRow = LabelRow(name: string, ip: string)
  datatype Container = Container(ip: string, labels: seq<string>)

  // A match expression: all IP traffic, the traffic between two addresses whose destination
  // or source port is in a range, or any other text.
  datatype Match = AnyIP | Flow(src: string, dst: string, onDst: bool, min: int, max: int) | Text(text: string)

  datatype Rule = Rule(dir: string, priority: int, match_: Match, action: string)

  // ---------------------------------------------------------------------------------
  // The rule table
  // ---------------------------------------------------------------------------------

  // Deletion selects by direction, priority and match, but not by action.
  predicate Hit(a: Rule, dir: string, priority: int, m: Match) {
    && (dir == "*" || a.dir == dir)
    && (m == Text("*") || a.match_ == m)
    && (priority < 0 || a.priority == priority)
  }

  predicate HitBy(a: Rule, b: Rule) { Hit(a, b.dir, b.priority, b.match_) }

  class RuleTable {
    var rows: multiset<Rule>

    constructor ()
      ensures rows == multiset{}
    {
      rows := multiset{};
    }

    method List() returns (s: seq<Rule>)
      ensures multiset(s) == rows
    {
      s := [];
      var rest := rows;
      while rest != multiset{}
        invariant multiset(s) + rest == rows
        decreases |rest|
      {
        var a :| a in rest;
        rest := rest - multiset{a};
        s := s + [a];
      }
    }

    // If it fails, the rule may or may not be there.
    method Create(a: Rule, mayFail: bool) returns (ok: bool)
      modifies this
      ensures rows == old(rows) || rows == old(rows) + multiset{a}
      ensures !mayFail ==> ok && rows == old(rows) + multiset{a}
    {
      var fails, lands := *, *;
      ok := !(mayFail && fails);
      if ok || lands { rows := rows + multiset{a}; }
    }

    // If it fails, some of the selected rules may still be there.
    method Delete(b: Rule, mayFail: bool) returns (ok: bool)
      modifies this
      ensures rows <= old(rows) && forall a :: !HitBy(a, b) ==> rows[a] == old(rows)[a]
      ensures !mayFail ==> ok && forall a :: HitBy(a, b) ==> rows[a] == 0
    {
      var acls := List();
      for i := 0 to |acls|
        invariant rows <= old(rows) && forall a :: !HitBy(a, b) ==> rows[a] == old(rows)[a]
        invariant !mayFail ==> forall a :: HitBy(a, b) ==> rows[a] + multiset(acls[..i])[a] == old(rows)[a]
      {
        ghost var before := rows;
        assert acls[..i + 1] == acls[..i] + [acls[i]];
        assert acls == acls[..i + 1] + acls[i + 1..];
        assert multiset(acls[..i + 1])[acls[i]] <= old(rows)[acls[i]];
        if !HitBy(acls[i], b) { continue; }
        var fails, lands := *, *;
        if !(mayFail && fails) || lands { rows := rows - multiset{acls[i]}; }
        assert forall a :: a != acls[i] ==> rows[a] == before[a];
        if mayFail && fails { return false; }
      }
      assert acls[..|acls|] == acls;
      return true;
    }
  }

  // ---------------------------------------------------------------------------------
  // The rules that should be there
  // ---------------------------------------------------------------------------------

  // The address of a label: the last row with its name wins.
  ghost function LabelIP(labels: seq<LabelRow>, name: string): string {
    if labels == [] then ""
    else if labels[|labels| - 1].name == name then labels[|labels| - 1].ip
    else LabelIP(labels[..|labels| - 1], name)
  }

  function Forward(fromIP: string, toIP: string, conn: Connection): Match {
    Flow(fromIP, toIP, true, conn.minPort, conn.maxPort)
  }

  function Reverse(fromIP: string, toIP: string, conn: Connection): Match {
    Flow(toIP, fromIP, false, conn.minPort, conn.maxPort)
  }

  // The container is an origin of the connection.
  predicate Starts(c: Container, conn: Connection) { conn.from in c.labels }

  ghost predicate Wants(m: Match, c: Container, conn: Connection, labels: seq<LabelRow>) {
    var ip := LabelIP(labels, conn.to);
    Starts(c, conn) && (m == Forward(c.ip, ip, conn) || m == Reverse(c.ip, ip, conn))
  }

  ghost predicate Wanted(m: Match, conns: seq<Connection>, labels: seq<LabelRow>, cs: seq<Container>) {
    exists conn, c :: conn in conns && c in cs && Wants(m, c, conn, labels)
  }

  const TO := "to-lport"
  const FROM := "from-lport"

  predicate IsRule(a: Rule, ms: set<Match>) {
    (a.dir == TO || a.dir == FROM)
    && ((a.priority == 0 && a.match_ == AnyIP && a.action == "drop")
        || (a.priority == 1 && a.match_ in ms && a.action == "allow"))
  }

  method LabelIPs(labels: seq<LabelRow>) returns (m: map<string, string>)
    ensures forall l :: (if l in m then m[l] else "") == LabelIP(labels, l)
  {
    m := map[];
    for i := 0 to |labels|
      invariant forall l :: (if l in m then m[l] else "") == LabelIP(labels[..i], l)
    {
      assert labels[..i + 1][..i] == labels[..i];
      m := m[labels[i].name := labels[i].ip];
    }
    assert labels[..|labels|] == labels;
  }

  method Origins(cs: seq<Container>) returns (m: map<string, seq<Container>>)
    ensures forall l, c :: (l in m && c in m[l]) <==> (c in cs && l in c.labels)
  {
    m := map[];
    for i := 0 to |cs|
      invariant forall l, c :: (l in m && c in m[l]) <==> (c in cs[..i] && l in c.labels)
    {
      for j := 0 to |cs[i].labels|
        invariant forall l, c :: (l in m && c in m[l]) <==>
                    ((c in cs[..i] && l in c.labels) || (c == cs[i] && l in cs[i].labels[..j]))
      {
        var l := cs[i].labels[j];
        m := m[l := (if l in m then m[l] else []) + [cs[i]]];
      }
    }
  }

  predicate Between(m: Match, c: Container, toIP: string, conn: Connection) {
    m == Forward(c.ip, toIP, conn) || m == Reverse(c.ip, toIP, conn)
  }

  method AddMatches(ms: set<Match>, from: seq<Container>, toIP: string, conn: Connection) returns (ms': set<Match>)
    requires forall m :: m in ms ==> m.Flow?
    ensures forall m :: m in ms' <==> m in ms || exists c :: c in from && Between(m, c, toIP, conn)
    ensures forall m :: m in ms' ==> m.Flow?
  {
    ms' := ms;
    for j := 0 to |from|
      invariant forall m :: m in ms' ==> m in ms || exists i :: 0 <= i < j && Between(m, from[i], toIP, conn)
      invariant forall m :: m in ms ==> m in ms'
      invariant forall i, m :: 0 <= i < j && Between(m, from[i], toIP, conn) ==> m in ms'
      invariant forall m :: m in ms' ==> m.Flow?
    {
      ms' := ms' + {Forward(from[j].ip, toIP, conn), Reverse(from[j].ip, toIP, conn)};
    }
  }

  method Matches(conns: seq<Connection>, labels: seq<LabelRow>, cs: seq<Container>) returns (ms: set<Match>)
    ensures forall m :: m in ms <==> Wanted(m, conns, labels, cs)
    ensures forall m :: m in ms ==> m.Flow?
  {
    var ips := LabelIPs(labels);
    var origins := Origins(cs);
    ms := {};
    for i := 0 to |conns|
      invariant forall m :: m in ms <==> Wanted(m, conns[..i], labels, cs)
      invariant forall m :: m in ms ==> m.Flow?
    {
      var conn := conns[i];
      var from := if conn.from in origins then origins[conn.from] else [];
      var toIP := if conn.to in ips then ips[conn.to] else "";
      ghost var before := ms;
      ms := AddMatches(ms, from, toIP, conn);
      assert conns[..i + 1] == conns[..i] + [conn];
      forall m ensures m in ms <==> Wanted(m, conns[..i + 1], labels, cs) {
        WantedMore(m, conns[..i], conn, labels, cs, from);
      }
    }
    assert conns[..|conns|] == conns;
  }

  lemma WantedMore(m: Match, conns: seq<Connection>, conn: Connection, labels: seq<LabelRow>, cs: seq<Container>,
                   from: seq<Container>)
    requires forall c :: c in from <==> c in cs && Starts(c, conn)
    ensures Wanted(m, conns + [conn], labels, cs) <==>
              Wanted(m, conns, labels, cs) || exists c :: c in from && Between(m, c, LabelIP(labels, conn.to), conn)
  {
    if Wanted(m, conns, labels, cs) {
      var k, c :| k in conns && c in cs && Wants(m, c, k, labels);
      assert k in conns + [conn];
    } else if c :| c in from && Between(m, c, LabelIP(labels, conn.to), conn) {
      assert conn in conns + [conn] && Wants(m, c, conn, labels);
    }
  }

  // How often a rule should be in the table.
  function Want(a: Rule, ms: set<Match>): nat { if IsRule(a, ms) then 1 else 0 }

  method Rules(ms: set<Match>) returns (acls: seq<Rule>)
    requires forall m :: m in ms ==> m.Flow?
    ensures forall a :: multiset(acls)[a] == Want(a, ms)
  {
    acls := [Rule(TO, 0, AnyIP, "drop"), Rule(FROM, 0, AnyIP, "drop")];
    var rest := ms;
    while rest != {}
      invariant rest <= ms && forall a :: multiset(acls)[a] == Want(a, ms - rest)
    {
      var m :| m in rest;
      rest := rest - {m};
      acls := acls + [Rule(TO, 1, m, "allow"), Rule(FROM, 1, m, "allow")];
    }
    assert ms - rest == ms;
  }

  // ---------------------------------------------------------------------------------
  // The update
  // ---------------------------------------------------------------------------------

  function SameRule(l: Rule, r: Rule): int { if l == r then 0 else -1 }

  function Max(a: nat, b: nat): nat { if a < b then b else a }

  // A row that is not wanted, or not that often.
  predicate Stale(b: Rule, rows: multiset<Rule>, ms: set<Match>) { rows[b] > Want(b, ms) }

  ghost predicate Doomed(a: Rule, rows: multiset<Rule>, ms: set<Match>) {
    exists b :: Stale(b, rows, ms) && HitBy(a, b)
  }

  // What may be left under any failures.
  ghost predicate Bounded(rows: multiset<Rule>, ms: set<Match>, rows': multiset<Rule>) {
    && (forall a :: rows'[a] <= Max(rows[a], Want(a, ms)))
    && (forall a :: !Doomed(a, rows, ms) ==> rows[a] <= rows'[a])
  }

  // What is left if nothing fails.
  ghost predicate Updated(rows: multiset<Rule>, ms: set<Match>, rows': multiset<Rule>) {
    forall a :: rows'[a] == if Doomed(a, rows, ms) then 0 else Max(rows[a], Want(a, ms))
  }

  method UpdateACLs(table: RuleTable, conns: seq<Connection>, labels: seq<LabelRow>, cs: seq<Container>, mayFail: bool)
    returns (ghost ms: set<Match>)
    modifies table
    ensures forall m :: m in ms <==> Wanted(m, conns, labels, cs)
    ensures Bounded(old(table.rows), ms, table.rows)
    ensures !mayFail ==> Updated(old(table.rows), ms, table.rows)
  {
    ghost var rows := table.rows;
    var ovs := table.List();
    var matchSet := Matches(conns, labels, cs);
    ms := matchSet;
    var acls := Rules(matchSet);
    var _, create, delete := Join(acls, ovs, SameRule);
    Difference(acls, ovs, SameRule);
    CreateAll(table, create, mayFail);
    DeleteAll(table, delete, mayFail);
    Left(rows, ms, create, delete);
  }

  method CreateAll(table: RuleTable, create: seq<Rule>, mayFail: bool)
    modifies table
    ensures old(table.rows) <= table.rows <= old(table.rows) + multiset(create)
    ensures !mayFail ==> table.rows == old(table.rows) + multiset(create)
  {
    for i := 0 to |create|
      invariant old(table.rows) <= table.rows <= old(table.rows) + multiset(create[..i])
      invariant !mayFail ==> table.rows == old(table.rows) + multiset(create[..i])
    {
      assert create[..i + 1] == create[..i] + [create[i]];
      var _ := table.Create(create[i], mayFail);
    }
    assert create[..|create|] == create;
  }

  ghost predicate HitByAny(a: Rule, bs: seq<Rule>) { exists i :: 0 <= i < |bs| && HitBy(a, bs[i]) }

  method DeleteAll(table: RuleTable, delete: seq<Rule>, mayFail: bool)
    modifies table
    ensures table.rows <= old(table.rows)
    ensures forall a :: !HitByAny(a, delete) ==> table.rows[a] == old(table.rows)[a]
    ensures !mayFail ==> forall a :: HitByAny(a, delete) ==> table.rows[a] == 0
  {
    for i := 0 to |delete|
      invariant table.rows <= old(table.rows)
      invariant forall a :: !HitByAny(a, delete) ==> table.rows[a] == old(table.rows)[a]
      invariant !mayFail ==> forall a, j :: 0 <= j < i && HitBy(a, delete[j]) ==> table.rows[a] == 0
    {
      ghost var before := table.rows;
      var _ := table.Delete(delete[i], mayFail);
      assert forall a :: table.rows[a] <= before[a];
    }
  }

  lemma Left(rows: multiset<Rule>, ms: set<Match>, create: seq<Rule>, delete: seq<Rule>)
    requires forall a :: multiset(create)[a] == if Want(a, ms) > rows[a] then Want(a, ms) - rows[a] else 0
    requires forall a :: multiset(delete)[a] == if rows[a] > Want(a, ms) then rows[a] - Want(a, ms) else 0
    ensures forall a :: (rows + multiset(create))[a] == Max(rows[a], Want(a, ms))
    ensures forall a :: HitByAny(a, delete) <==> Doomed(a, rows, ms)
  {
    forall a ensures HitByAny(a, delete) <==> Doomed(a, rows, ms) {
      if HitByAny(a, delete) {
        var i :| 0 <= i < |delete| && HitBy(a, delete[i]);
        assert delete[i] in multiset(delete);
        assert Stale(delete[i], rows, ms);
      }
    }
  }

  // ---------------------------------------------------------------------------------
  // What an update achieves
  // ---------------------------------------------------------------------------------

  ghost predicate Exactly(rows: multiset<Rule>, ms: set<Match>) { forall a :: rows[a] == Want(a, ms) }

  // A wanted rule that deletion cannot tell from a stale row.
  ghost predicate Clash(rows: multiset<Rule>, ms: set<Match>) {
    exists a :: IsRule(a, ms) && Doomed(a, rows, ms)
  }

  // From any table, an update without failures leaves exactly the wanted rules unless one of
  // them clashes with a stale row.
  lemma ExactlyIff(rows: multiset<Rule>, ms: set<Match>, rows': multiset<Rule>)
    requires Updated(rows, ms, rows')
    ensures Exactly(rows', ms) <==> !Clash(rows, ms)
  {
    if Clash(rows, ms) {
      var a :| IsRule(a, ms) && Doomed(a, rows, ms);
      assert rows'[a] != Want(a, ms);
    } else {
      forall a ensures rows'[a] == Want(a, ms) {
        assert HitBy(a, a);
        if rows[a] > Want(a, ms) { assert Stale(a, rows, ms); }
      }
    }
  }

  // The table as updates leave it: each row once, and the action fixed by the priority.
  predicate OwnRule(a: Rule) {
    (a.dir == TO || a.dir == FROM)
    && ((a.priority == 0 && a.match_ == AnyIP && a.action == "drop")
        || (a.priority == 1 && a.match_.Flow? && a.action == "allow"))
  }

  ghost predicate Own(rows: multiset<Rule>) { forall a :: a in rows ==> rows[a] == 1 && OwnRule(a) }

  lemma OwnNoClash(rows: multiset<Rule>, ms: set<Match>)
    requires Own(rows) && forall m :: m in ms ==> m.Flow?
    ensures !Clash(rows, ms)
  {
    forall a, b | IsRule(a, ms) && Stale(b, rows, ms) ensures !HitBy(a, b) {
      assert b in rows;
    }
  }

  // Under any failures no wanted rule is lost and nothing foreign appears, so the next
  // update starts from such a table again.
  lemma OwnKept(rows: multiset<Rule>, ms: set<Match>, rows': multiset<Rule>)
    requires Own(rows) && Bounded(rows, ms, rows') && forall m :: m in ms ==> m.Flow?
    ensures Own(rows')
    ensures forall a :: a in rows && IsRule(a, ms) ==> a in rows'
    ensures forall a :: a in rows' ==> a in rows || IsRule(a, ms)
  {
    OwnNoClash(rows, ms);
    forall a | a in rows' ensures rows'[a] == 1 && OwnRule(a) {
      assert rows'[a] <= Max(rows[a], Want(a, ms));
    }
    forall a | a in rows && IsRule(a, ms) ensures a in rows' {
      assert rows[a] <= rows'[a];
    }
  }

  // In general a wanted rule can get lost: a row that differs from it in the action only is
  // deleted together with the rule just created.
  lemma ActionClash(a: Rule, action: string, ms: set<Match>, rows': multiset<Rule>)
    requires IsRule(a, ms) && action != a.action && Updated(multiset{a.(action := action)}, ms, rows')
    ensures a !in rows'
  {
    var b := a.(action := action);
    assert Stale(b, multiset{b}, ms) && HitBy(a, b);
    assert rows'[a] == 0;
  }

  // ---------------------------------------------------------------------------------
  // What the rules admit
  // ---------------------------------------------------------------------------------

  datatype Protocol = ICMP | UDP | TCP | Other
  datatype Packet = Packet(src: string, dst: string, protocol: Protocol, srcPort: int, dstPort: int)

  function Back(p: Packet): Packet { Packet(p.dst, p.src, p.protocol, p.dstPort, p.srcPort) }

  // Whether an IP packet meets a match expression.  Other text is not interpreted.
  predicate Covers(m: Match, p: Packet) {
    match m
    case AnyIP => true
    case Flow(src, dst, onDst, min, max) =>
      p.src == src && p.dst == dst
      && (|| p.protocol == ICMP
          || ((p.protocol == UDP || p.protocol == TCP) && min <= (if onDst then p.dstPort else p.srcPort) <= max))
    case Text(_) => false
  }

  ghost predicate Applies(a: Rule, rows: multiset<Rule>, dir: string, p: Packet) {
    a in rows && a.dir == dir && Covers(a.match_, p)
  }

  // A packet passes if all applying rules of the highest priority allow it.
  ghost predicate Admits(rows: multiset<Rule>, dir: string, p: Packet) {
    forall a :: Applies(a, rows, dir, p) ==>
      a.action == "allow" || exists b :: Applies(b, rows, dir, p) && a.priority < b.priority
  }

  // The connection lets its origins send to its destination on its ports.
  predicate Allows(conn: Connection, fromIP: string, toIP: string, p: Packet) {
    p.src == fromIP && p.dst == toIP
    && (p.protocol == ICMP || ((p.protocol == UDP || p.protocol == TCP) && conn.minPort <= p.dstPort <= conn.maxPort))
  }

  ghost predicate Permitted(conns: seq<Connection>, labels: seq<LabelRow>, cs: seq<Container>, p: Packet) {
    exists conn, c :: conn in conns && c in cs && Starts(c, conn) && Allows(conn, c.ip, LabelIP(labels, conn.to), p)
  }

  lemma CoversIff(conns: seq<Connection>, labels: seq<LabelRow>, cs: seq<Container>, p: Packet)
    ensures (exists m :: Wanted(m, conns, labels, cs) && Covers(m, p)) <==>
              Permitted(conns, labels, cs, p) || Permitted(conns, labels, cs, Back(p))
  {
    if m :| Wanted(m, conns, labels, cs) && Covers(m, p) {
      var conn, c :| conn in conns && c in cs && Wants(m, c, conn, labels);
      var toIP := LabelIP(labels, conn.to);
      assert Allows(conn, c.ip, toIP, p) || Allows(conn, c.ip, toIP, Back(p));
    }
    if Permitted(conns, labels, cs, p) {
      var conn, c :| conn in conns && c in cs && Starts(c, conn) && Allows(conn, c.ip, LabelIP(labels, conn.to), p);
      var m := Forward(c.ip, LabelIP(labels, conn.to), conn);
      assert Wants(m, c, conn, labels) && Covers(m, p);
    }
    if Permitted(conns, labels, cs, Back(p)) {
      var conn, c :|
        conn in conns && c in cs && Starts(c, conn) && Allows(conn, c.ip, LabelIP(labels, conn.to), Back(p));
      var m := Reverse(c.ip, LabelIP(labels, conn.to), conn);
      assert Wants(m, c, conn, labels) && Covers(m, p);
    }
  }

  // The wanted rules admit an IP packet exactly if some connection permits it or its
  // reverse.
  lemma Policy(rows: multiset<Rule>, ms: set<Match>, conns: seq<Connection>, labels: seq<LabelRow>, cs: seq<Container>,
               dir: string, p: Packet)
    requires Exactly(rows, ms) && (forall m :: m in ms <==> Wanted(m, conns, labels, cs)) && (dir == TO || dir == FROM)
    ensures Admits(rows, dir, p) <==> Permitted(conns, labels, cs, p) || Permitted(conns, labels, cs, Back(p))
  {
    var drop := Rule(dir, 0, AnyIP, "drop");
    assert rows[drop] == 1 && Applies(drop, rows, dir, p);
    CoversIff(conns, labels, cs, p);
    if m :| m in ms && Covers(m, p) {
      var allow := Rule(dir, 1, m, "allow");
      assert rows[allow] == 1 && Applies(allow, rows, dir, p);
      forall a | Applies(a, rows, dir, p) && a.action != "allow" ensures a.priority < allow.priority {
        assert IsRule(a, ms);
      }
    } else {
      forall b | Applies(b, rows, dir, p) ensures b.priority == 0 {
        assert IsRule(b, ms);
      }
    }
  }

  // A table after each of a sequence of updates, any of which may fail, from an empty one.
  ghost predicate IsHistory(tables: seq<multiset<Rule>>, wanted: seq<set<Match>>) {
    && |tables| == |wanted| + 1 && tables[0] == multiset{}
    && (forall i, m :: 0 <= i < |wanted| && m in wanted[i] ==> m.Flow?)
    && forall i :: 0 <= i < |wanted| ==> Bounded(tables[i], wanted[i], tables[i + 1])
  }

  lemma {:induction false} HistoryOwn(tables: seq<multiset<Rule>>, wanted: seq<set<Match>>, k: nat)
    requires IsHistory(tables, wanted) && k < |tables|
    ensures Own(tables[k])
    decreases k
  {
    if k > 0 {
      HistoryOwn(tables, wanted, k - 1);
      OwnKept(tables[k - 1], wanted[k - 1], tables[k]);
    }
  }

  // An update without failures, after any updates with failures from an empty table, leaves
  // a table that enforces the connections.
  lemma Compiled(tables: seq<multiset<Rule>>, wanted: seq<set<Match>>, ms: set<Match>, rows: multiset<Rule>,
                 conns: seq<Connection>, labels: seq<LabelRow>, cs: seq<Container>, dir: string, p: Packet)
    requires IsHistory(tables, wanted) && Updated(tables[|tables| - 1], ms, rows)
    requires (forall m :: m in ms <==> Wanted(m, conns, labels, cs)) && (dir == TO || dir == FROM)
    ensures Exactly(rows, ms)
    ensures Admits(rows, dir, p) <==> Permitted(conns, labels, cs, p) || Permitted(conns, labels, cs, Back(p))
  {
    HistoryOwn(tables, wanted, |tables| - 1);
    OwnNoClash(tables[|tables| - 1], ms);
    ExactlyIff(tables[|tables| - 1], ms, rows);
    Policy(rows, ms, conns, labels, cs, dir, p);
  }
}
