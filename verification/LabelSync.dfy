/** The leader's pass over the label directory (writeStoreLabels of minion/network/store.go). */
module LabelSync {
  import opened Basics
  import opened Addresses
  import opened TreeStore
  import opened Directories
  import opened Making
  import opened AddressSync
  import Text
  import GreedyJoin

  const CONTAINERS: Word := 0x0A00_0000
  const LABELS: Word := 0x0A01_0000

  datatype Container = Container(ip: string, labels: seq<string>)

  // ---------------------------------------------------------------------------------
  // Which containers implement a label
  // ---------------------------------------------------------------------------------

  ghost function Labels(cs: seq<Container>): seq<string> {
    if cs == [] then [] else Labels(cs[..|cs| - 1]) + cs[|cs| - 1].labels
  }

  // A container counts once for each time it lists the label.
  ghost function HostsIn(c: Container, ls: seq<string>, l: string): seq<Container> {
    if ls == [] then [] else HostsIn(c, ls[..|ls| - 1], l) + (if ls[|ls| - 1] == l then [c] else [])
  }

  ghost function Hosts(cs: seq<Container>, l: string): seq<Container> {
    if cs == [] then [] else Hosts(cs[..|cs| - 1], l) + HostsIn(cs[|cs| - 1], cs[|cs| - 1].labels, l)
  }

  lemma {:induction false} HostsInCount(c: Container, ls: seq<string>, l: string)
    ensures |HostsIn(c, ls, l)| == multiset(ls)[l] && forall h :: h in HostsIn(c, ls, l) ==> h == c
    decreases |ls|
  {
    if ls != [] {
      HostsInCount(c, ls[..|ls| - 1], l);
      assert ls == ls[..|ls| - 1] + [ls[|ls| - 1]];
    }
  }

  lemma {:induction false} HostsCount(cs: seq<Container>, l: string)
    ensures |Hosts(cs, l)| == multiset(Labels(cs))[l]
    ensures forall h :: h in Hosts(cs, l) ==> h in cs && l in h.labels
    decreases |cs|
  {
    if cs != [] {
      var c := cs[|cs| - 1];
      HostsCount(cs[..|cs| - 1], l);
      HostsInCount(c, c.labels, l);
      if HostsIn(c, c.labels, l) != [] { assert l in multiset(c.labels); }
    }
  }

  lemma Implemented(cs: seq<Container>, l: string)
    ensures l in Labels(cs) <==> Hosts(cs, l) != []
  {
    HostsCount(cs, l);
    assert l in Labels(cs) <==> l in multiset(Labels(cs));
  }

  ghost function Listing(cs: seq<Container>, l: string): set<int> { set i | 0 <= i < |cs| && l in cs[i].labels }

  lemma ListingMore(cs: seq<Container>, l: string)
    requires cs != []
    ensures var n := |cs| - 1;
            |Listing(cs, l)| == |Listing(cs[..n], l)| + if l in cs[n].labels then 1 else 0
  {
    var n := |cs| - 1;
    var before := Listing(cs[..n], l);
    forall i | 0 <= i < n ensures i in before <==> l in cs[i].labels { assert cs[..n][i] == cs[i]; }
    assert Listing(cs, l) == before + (if l in cs[n].labels then {n} else {});
  }

  // If no container lists a label twice, more than one host means two containers.
  lemma {:induction false} HostsAreContainers(cs: seq<Container>, l: string)
    requires forall i :: 0 <= i < |cs| ==> multiset(cs[i].labels)[l] <= 1
    ensures |Hosts(cs, l)| == |Listing(cs, l)|
    decreases |cs|
  {
    if cs == [] {
      assert Listing(cs, l) == {};
    } else {
      var n, c := |cs| - 1, cs[|cs| - 1];
      HostsAreContainers(cs[..n], l);
      ListingMore(cs, l);
      HostsInCount(c, c.labels, l);
      assert l in c.labels <==> l in multiset(c.labels);
    }
  }

  method LabelIds(cs: seq<Container>) returns (ids: seq<string>)
    ensures ids == Labels(cs)
  {
    ids := [];
    for i := 0 to |cs|
      invariant ids == Labels(cs[..i])
    {
      var c := cs[i];
      for j := 0 to |c.labels|
        invariant ids == Labels(cs[..i]) + c.labels[..j]
      {
        ids := ids + [c.labels[j]];
      }
      assert c.labels[..|c.labels|] == c.labels && cs[..i + 1][..i] == cs[..i];
    }
    assert cs[..|cs|] == cs;
  }

  // The hosts among the first i containers and the first j labels of the next one.
  ghost function HostsUpTo(cs: seq<Container>, i: nat, j: nat, l: string): seq<Container>
    requires i < |cs| && j <= |cs[i].labels|
  {
    Hosts(cs[..i], l) + HostsIn(cs[i], cs[i].labels[..j], l)
  }

  lemma HostsBetween(cs: seq<Container>, i: nat, j: nat, l: string)
    requires i < |cs| && j <= |cs[i].labels|
    ensures HostsUpTo(cs, i, 0, l) == Hosts(cs[..i], l)
    ensures HostsUpTo(cs, i, |cs[i].labels|, l) == Hosts(cs[..i + 1], l)
    ensures j < |cs[i].labels| ==>
              HostsUpTo(cs, i, j + 1, l) == HostsUpTo(cs, i, j, l) + if cs[i].labels[j] == l then [cs[i]] else []
  {
    var ls := cs[i].labels;
    assert ls[..0] == [] && ls[..|ls|] == ls && cs[..i + 1][..i] == cs[..i];
    if j < |ls| { assert ls[..j + 1][..j] == ls[..j]; }
  }

  method AddLabels(m: map<string, seq<Container>>, cs: seq<Container>, i: nat) returns (m': map<string, seq<Container>>)
    requires i < |cs|
    requires forall l :: (l in m <==> Hosts(cs[..i], l) != []) && (l in m ==> m[l] == Hosts(cs[..i], l))
    ensures forall l :: (l in m' <==> Hosts(cs[..i + 1], l) != []) && (l in m' ==> m'[l] == Hosts(cs[..i + 1], l))
  {
    m' := m;
    var c := cs[i];
    forall l ensures HostsUpTo(cs, i, 0, l) == Hosts(cs[..i], l) { HostsBetween(cs, i, 0, l); }
    for j := 0 to |c.labels|
      invariant forall l :: (l in m' <==> HostsUpTo(cs, i, j, l) != []) && (l in m' ==> m'[l] == HostsUpTo(cs, i, j, l))
    {
      var l := c.labels[j];
      forall k ensures HostsUpTo(cs, i, j + 1, k) == HostsUpTo(cs, i, j, k) + if k == l then [c] else [] {
        HostsBetween(cs, i, j, k);
      }
      m' := m'[l := (if l in m' then m'[l] else []) + [c]];
    }
    forall l ensures HostsUpTo(cs, i, |c.labels|, l) == Hosts(cs[..i + 1], l) { HostsBetween(cs, i, 0, l); }
  }

  method LabelMap(cs: seq<Container>) returns (m: map<string, seq<Container>>)
    ensures forall l :: (l in m <==> l in Labels(cs)) && (l in m ==> m[l] == Hosts(cs, l))
  {
    m := map[];
    for i := 0 to |cs|
      invariant forall l :: (l in m <==> Hosts(cs[..i], l) != []) && (l in m ==> m[l] == Hosts(cs[..i], l))
    {
      m := AddLabels(m, cs, i);
    }
    assert cs[..|cs|] == cs;
    forall l ensures l in m <==> l in Labels(cs) { Implemented(cs, l); }
  }

  // ---------------------------------------------------------------------------------
  // One pass
  // ---------------------------------------------------------------------------------

  function Marked(f: Files, multi: bool): Files {
    if !multi then f - {"MultiHost"} else if "MultiHost" in f then f else f["MultiHost" := "true"]
  }

  ghost function AllMarked(e: Entries, cs: seq<Container>): Entries {
    map l | l in e :: Marked(e[l], |Hosts(cs, l)| > 1)
  }

  function FilesAt(e: Entries, l: string): Files { if l in e then e[l] else map[] }

  // The files of a label with the given hosts.  The check for an address that is there
  // already looks at the entry named by the address, not at the label's own.
  function Single(e: Entries, f: Files, hosts: seq<Container>): Files {
    if |hosts| != 1 || hosts[0].ip == "" || FileOf(FilesAt(e, hosts[0].ip), "IP") == hosts[0].ip then f
    else f["IP" := hosts[0].ip]
  }

  ghost function Multis(e: Entries, cs: seq<Container>): Entries {
    map l | l in e && |Hosts(cs, l)| > 1 :: e[l]
  }

  // What a pass makes of the directory d.
  ghost predicate Pass(net: Spelling, d: Entries, cs: seq<Container>, d': Entries) {
    Addressed(net, AllMarked(Kept(d, Labels(cs)), cs), cs, d')
  }

  ghost predicate Addressed(net: Spelling, e: Entries, cs: seq<Container>, d': Entries) {
    && d'.Keys == e.Keys
    && (forall l :: l in d' && |Hosts(cs, l)| <= 1 ==> d'[l] == Single(e, e[l], Hosts(cs, l)))
    && (forall l :: l in d' && |Hosts(cs, l)| > 1 ==> Assigned(net, e[l], d'[l], LABELS, true))
    && (SafeMultis(net, d', cs) <==> SafeMultis(net, e, cs))
  }

  // The labels with several hosts have addresses of their own.
  ghost predicate SafeMultis(net: Spelling, e: Entries, cs: seq<Container>) {
    && (forall k :: k in e && |Hosts(cs, k)| > 1 && Addr(net, e[k], LABELS) != 0 ==>
          Addr(net, e[k], LABELS) != Gateway(net, LABELS))
    && (forall j, k :: j in e && k in e && j != k && |Hosts(cs, j)| > 1 && |Hosts(cs, k)| > 1 ==>
          Addr(net, e[j], LABELS) != 0 ==> Addr(net, e[j], LABELS) != Addr(net, e[k], LABELS))
  }

  lemma MultisSafe(net: Spelling, e: Entries, cs: seq<Container>)
    ensures Safe(net, Multis(e, cs), LABELS) <==> SafeMultis(net, e, cs)
  {
    var multis := Multis(e, cs);
    assert forall k :: k in multis ==> multis[k] == e[k];
  }

  // The entries after all labels but the rest are marked.
  ghost function MarkedBut(e: Entries, m: map<string, seq<Container>>, rest: set<string>): Entries
    requires e.Keys <= m.Keys
  {
    map l | l in e :: if l in rest then e[l] else Marked(e[l], |m[l]| > 1)
  }

  lemma MarkedStep(e: Entries, m: map<string, seq<Container>>, rest: set<string>, l: string)
    requires e.Keys <= m.Keys && l in e && l in rest
    ensures MarkedBut(e, m, rest - {l}) == MarkedBut(e, m, rest)[l := Marked(e[l], |m[l]| > 1)]
  {
  }

  // A label with several hosts whose entry could not be made has no map to mark, and the
  // process crashes.
  ghost predicate Crashes(e: Entries, m: map<string, seq<Container>>) {
    exists l :: l in m && l !in e && |m[l]| > 1
  }

  method MarkLabels(store: Store, dir: Directory, base: string, m: map<string, seq<Container>>, ghost sure: bool)
    returns (crashed: bool)
    requires Proper(base) && dir.entries.Keys <= m.Keys
    requires sure ==> store.reliable && Tidy(dir.entries) && View(store.root, base) == Some(dir.entries)
    modifies store, dir
    ensures crashed <==> Crashes(old(dir.entries), m)
    ensures !crashed ==> dir.entries == MarkedBut(old(dir.entries), m, {})
    ensures sure && !crashed ==>
              View(store.root, base) == Some(dir.entries) && Framed(old(store.root), store.root, base)
  {
    ghost var e := dir.entries;
    var rest := m.Keys;
    assert MarkedBut(e, m, rest) == e;
    while rest != {}
      invariant rest <= m.Keys && dir.entries == MarkedBut(e, m, rest)
      invariant forall l :: l in m && l !in rest && l !in e ==> |m[l]| <= 1
      invariant sure ==> View(store.root, base) == Some(dir.entries) && Framed(old(store.root), store.root, base)
    {
      var l :| l in rest;
      if l in dir.entries {
        MarkedStep(e, m, rest, l);
        MarkOne(store, dir, base, l, |m[l]| > 1, sure);
      } else if |m[l]| > 1 {
        return true;
      } else {
        assert MarkedBut(e, m, rest - {l}) == MarkedBut(e, m, rest);
      }
      rest := rest - {l};
    }
    return false;
  }

  method MarkOne(store: Store, dir: Directory, base: string, l: string, multi: bool, ghost sure: bool)
    requires Proper(base) && l in dir.entries
    requires sure ==> store.reliable && View(store.root, base) == Some(dir.entries) && Text.Clean(l, '/')
    modifies store, dir
    ensures dir.entries == old(dir.entries)[l := Marked(old(dir.entries)[l], multi)]
    ensures sure ==> View(store.root, base) == Some(dir.entries) && Framed(old(store.root), store.root, base)
  {
    var e := dir.entries;
    if ("MultiHost" in e[l]) == multi {
      assert e[l] - {"MultiHost"} == e[l] || multi;
      assert e[l := e[l]] == e;
      return;
    }
    if multi {
      dir.entries := e[l := e[l]["MultiHost" := "true"]];
      if sure { SetFile(store.root, base, l, "MultiHost", "true"); }
      var _ := store.Write(Sub(Sub(base, l), "MultiHost"), "true");
    } else {
      dir.entries := e[l := e[l] - {"MultiHost"}];
      if sure { DeleteFile(store.root, base, l, "MultiHost"); }
      var _ := store.Remove(Sub(Sub(base, l), "MultiHost"));
    }
  }

  ghost function SingleBut(e: Entries, m: map<string, seq<Container>>, rest: set<string>): Entries
    requires e.Keys <= m.Keys
  {
    map l | l in e :: if l in rest then e[l] else Single(e, e[l], m[l])
  }

  lemma SingleStep(e: Entries, m: map<string, seq<Container>>, rest: set<string>, l: string)
    requires e.Keys <= m.Keys && l in e && l in rest
    ensures SingleBut(e, m, rest - {l}) == SingleBut(e, m, rest)[l := Single(e, e[l], m[l])]
  {
  }

  // The addresses of labels with one host go into the store only.
  method SetSingles(store: Store, dir: Directory, base: string, m: map<string, seq<Container>>, ghost sure: bool)
    requires Proper(base) && dir.entries.Keys <= m.Keys
    requires sure ==> store.reliable && Tidy(dir.entries) && View(store.root, base) == Some(dir.entries)
    requires sure ==> m.Keys == dir.entries.Keys
    modifies store
    ensures sure ==> View(store.root, base) == Some(SingleBut(dir.entries, m, {}))
    ensures sure ==> Framed(old(store.root), store.root, base)
  {
    var rest := m.Keys;
    assert SingleBut(dir.entries, m, rest) == dir.entries;
    while rest != {}
      invariant rest <= m.Keys
      invariant sure ==> View(store.root, base) == Some(SingleBut(dir.entries, m, rest))
      invariant sure ==> Framed(old(store.root), store.root, base)
    {
      var l :| l in rest;
      if sure { SingleStep(dir.entries, m, rest, l); }
      SetSingle(store, dir, base, l, m[l], SingleBut(dir.entries, m, rest), sure);
      rest := rest - {l};
    }
  }

  method SetSingle(store: Store, dir: Directory, base: string, l: string, hosts: seq<Container>, ghost v: Entries,
                   ghost sure: bool)
    requires Proper(base)
    requires sure ==> store.reliable && l in dir.entries && Text.Clean(l, '/')
    requires sure ==> View(store.root, base) == Some(v) && l in v && v[l] == dir.entries[l]
    modifies store
    ensures sure ==> View(store.root, base) == Some(v[l := Single(dir.entries, v[l], hosts)])
    ensures sure ==> Framed(old(store.root), store.root, base)
  {
    assert sure ==> v[l := v[l]] == v;
    if |hosts| != 1 { return; }
    var ip := hosts[0].ip;
    if ip == "" || FileOf(FilesAt(dir.entries, ip), "IP") == ip { return; }
    if sure { SetFile(store.root, base, l, "IP", ip); }
    var _ := store.Write(Sub(Sub(base, l), "IP"), ip);
  }

  method Purge(dir: Directory)
    modifies dir
    ensures dir.entries == map l | l in old(dir.entries) && "MultiHost" in old(dir.entries)[l] :: old(dir.entries)[l]
  {
    var e := dir.entries;
    var rest := e.Keys;
    while rest != {}
      invariant rest <= e.Keys
      invariant dir.entries == map l | l in e && (l in rest || "MultiHost" in e[l]) :: e[l]
    {
      var l :| l in rest;
      rest := rest - {l};
      if "MultiHost" !in e[l] { dir.entries := dir.entries - {l}; }
    }
  }

  // The entries of the directory, none if it is not there.
  ghost function Shown(root: Tree, base: string): Entries
    requires Rooted(base)
  {
    if View(root, base).Some? then View(root, base).value else map[]
  }

  lemma ShownKeys(root: Tree, base: string)
    requires Rooted(base)
    ensures Shown(root, base).Keys == NodeAt(root, base).children.Keys
  {
    if View(root, base).Some? { NodeKeys(root, base); }
  }

  // The store works, and no entry of the directory has a slash in its name.
  ghost predicate Sound(store: Store, base: string)
    requires Rooted(base)
    reads store
  {
    store.reliable && Tidy(Shown(store.root, base))
  }

  // Nothing stands in the way of a pass.
  ghost predicate Fair(store: Store, base: string, cs: seq<Container>)
    requires Rooted(base)
    reads store
  {
    Sound(store, base) && AllTidy(Labels(cs))
  }

  // The names whose entries cannot be made, with the directory's keys in the given order.
  ghost function Missed(node: Tree, keys: seq<string>, ids: seq<string>): set<string> {
    Names(ids) - Synced(node, keys, ids).names
  }

  // The pass of the leader.  It crashes exactly if a label with several hosts is among
  // those whose entry could not be made; if the store works, these are the labels that are
  // stuck.  If nothing stands in its way, there are none, and the directory becomes what it
  // should.
  method WriteStoreLabels(net: Spelling, store: Store, base: string, cs: seq<Container>)
    returns (crashed: bool, ghost missed: set<string>, ghost keys: seq<string>)
    requires Exact(net) && Proper(base)
    modifies store
    ensures crashed <==> exists l :: l in missed && |Hosts(cs, l)| > 1
    ensures forall l :: l in missed ==> l in Labels(cs) && l !in old(NodeAt(store.root, base)).children
    ensures old(Sound(store, base)) ==>
              && IsListing(keys, old(NodeAt(store.root, base)).children.Keys)
              && missed == Missed(old(NodeAt(store.root, base)), keys, Labels(cs))
              && (crashed <==> exists l :: l in Labels(cs) && |Hosts(cs, l)| > 1 &&
                                 Stuck(old(NodeAt(store.root, base)), keys, Labels(cs), l))
    ensures old(Fair(store, base, cs)) ==>
              && missed == {} && View(store.root, base).Some? && Tidy(Shown(store.root, base))
              && Pass(net, old(Shown(store.root, base)), cs, Shown(store.root, base))
              && Framed(old(store.root), store.root, base)
  {
    ghost var sound, fair := Sound(store, base), Fair(store, base, cs);
    ghost var node := NodeAt(store.root, base);
    MakeBase(store.root, base);
    NodeOfBase(store.root, base);
    ShownKeys(store.root, base);
    var _ := store.MakeDir(base);
    var entries := GetDirectory(store, base);
    if entries.None? { return false, {}, []; }
    NodeKeys(store.root, base);
    var dir := new Directory(entries.value);
    var ids := LabelIds(cs);
    keys := SyncDir(store, dir, base, ids, sound);
    missed := Names(ids) - dir.entries.Keys;
    crashed := SetAddresses(net, store, dir, base, cs, fair);
    assert crashed <==> exists l :: l in missed && |Hosts(cs, l)| > 1;
    if sound { CrashExactly(node, keys, cs); }
  }

  // Marks the labels with several hosts, and gives all labels their addresses.
  method SetAddresses(net: Spelling, store: Store, dir: Directory, base: string, cs: seq<Container>, ghost sure: bool)
    returns (crashed: bool)
    requires Exact(net) && Proper(base) && forall l :: l in dir.entries ==> l in Labels(cs)
    requires sure ==> store.reliable && Tidy(dir.entries) && View(store.root, base) == Some(dir.entries)
    requires sure ==> forall l :: l in Labels(cs) ==> l in dir.entries
    modifies store, dir
    ensures crashed <==> exists l :: l in Labels(cs) && l !in old(dir.entries) && |Hosts(cs, l)| > 1
    ensures sure ==> View(store.root, base).Some?
    ensures sure ==> Addressed(net, AllMarked(old(dir.entries), cs), cs, View(store.root, base).value)
    ensures sure ==> Framed(old(store.root), store.root, base)
  {
    var m := LabelMap(cs);
    ghost var k := dir.entries;
    crashed := MarkLabels(store, dir, base, m, sure);
    CrashLabel(k, m, cs);
    if crashed { return; }
    ghost var e := dir.entries;
    MarkedAll(k, m, cs);
    SetSingles(store, dir, base, m, sure);
    Purge(dir);
    Purged(k, m, cs);
    SyncIPs(net, store, dir, base, LABELS, SingleBut(e, m, {}), sure);
    if sure { Done(net, m, cs, e, dir.entries); }
  }

  lemma CrashLabel(e: Entries, m: map<string, seq<Container>>, cs: seq<Container>)
    requires forall l :: (l in m <==> l in Labels(cs)) && (l in m ==> m[l] == Hosts(cs, l))
    ensures Crashes(e, m) <==> exists l :: l in Labels(cs) && l !in e && |Hosts(cs, l)| > 1
  {
    if l :| l in Labels(cs) && l !in e && |Hosts(cs, l)| > 1 { assert l in m && |m[l]| > 1; }
  }

  lemma MarkedAll(e: Entries, m: map<string, seq<Container>>, cs: seq<Container>)
    requires e.Keys <= m.Keys && forall l :: l in m ==> m[l] == Hosts(cs, l)
    ensures MarkedBut(e, m, {}) == AllMarked(e, cs)
  {
  }

  // Exactly the labels with several hosts are left in the directory, and their files are
  // as in the store.
  lemma Purged(k: Entries, m: map<string, seq<Container>>, cs: seq<Container>)
    requires k.Keys <= m.Keys && forall l :: l in m ==> m[l] == Hosts(cs, l)
    ensures var e := AllMarked(k, cs);
            && (map l | l in e && "MultiHost" in e[l] :: e[l]) == Multis(e, cs)
            && SingleBut(e, m, {}) + Multis(e, cs) == SingleBut(e, m, {})
  {
    var e := AllMarked(k, cs);
    forall l | l in e ensures "MultiHost" in e[l] <==> |Hosts(cs, l)| > 1 {
      assert e[l] == Marked(k[l], |Hosts(cs, l)| > 1);
    }
    forall l | l in Multis(e, cs) ensures SingleBut(e, m, {})[l] == Multis(e, cs)[l] {
      assert m[l] == Hosts(cs, l);
    }
  }

  lemma Done(net: Spelling, m: map<string, seq<Container>>, cs: seq<Container>, e: Entries, given: Entries)
    requires e.Keys <= m.Keys && forall l :: l in m ==> m[l] == Hosts(cs, l)
    requires given.Keys == Multis(e, cs).Keys
    requires forall l :: l in given ==> Assigned(net, e[l], given[l], LABELS, true)
    requires Safe(net, given, LABELS) <==> Safe(net, Multis(e, cs), LABELS)
    ensures Addressed(net, e, cs, SingleBut(e, m, {}) + given)
  {
    var d' := SingleBut(e, m, {}) + given;
    Split(m, cs, e, given);
    MultisSafe(net, e, cs);
    MultisSafe(net, d', cs);
    forall l | l in d' && |Hosts(cs, l)| > 1 ensures Assigned(net, e[l], d'[l], LABELS, true) {
      assert l in given;
    }
  }

  lemma Split(m: map<string, seq<Container>>, cs: seq<Container>, e: Entries, given: Entries)
    requires e.Keys <= m.Keys && forall l :: l in m ==> m[l] == Hosts(cs, l)
    requires given.Keys == Multis(e, cs).Keys
    ensures var d' := SingleBut(e, m, {}) + given;
            && d'.Keys == e.Keys && Multis(d', cs) == given
            && forall l :: l in d' ==> d'[l] == if |Hosts(cs, l)| > 1 then given[l] else Single(e, e[l], Hosts(cs, l))
  {
    var d' := SingleBut(e, m, {}) + given;
    forall l | l in d' ensures d'[l] == if |Hosts(cs, l)| > 1 then given[l] else Single(e, e[l], Hosts(cs, l)) {
      assert m[l] == Hosts(cs, l);
    }
  }

  // ---------------------------------------------------------------------------------
  // What a pass achieves
  // ---------------------------------------------------------------------------------

  // Exactly the labels in use are there, marked exactly if they have several hosts.
  lemma Listed(net: Spelling, d: Entries, cs: seq<Container>, d': Entries, l: string)
    requires Pass(net, d, cs, d')
    ensures l in d' <==> l in Labels(cs)
    ensures l in d' ==> ("MultiHost" in d'[l] <==> |Hosts(cs, l)| > 1)
  {
    var k := Kept(d, Labels(cs));
    var e := AllMarked(k, cs);
    if l in d' {
      assert l in e && e[l] == Marked(k[l], |Hosts(cs, l)| > 1);
      if |Hosts(cs, l)| > 1 {
        assert Assigned(net, e[l], d'[l], LABELS, true);
        assert "MultiHost" in e[l] - {"IP"};
        assert "MultiHost" in d'[l] - {"IP"};
      }
    }
  }

  predicate IsSingle(hosts: seq<Container>) { |hosts| == 1 }

  ghost predicate AtItsHost(d: Entries, cs: seq<Container>, l: string) {
    l in d && IsSingle(Hosts(cs, l)) ==> FileOf(d[l], "IP") == Hosts(cs, l)[0].ip
  }

  // The host's address is itself a label in use that holds this address, and the label
  // does not hold it yet.
  ghost predicate Shadowed(d: Entries, cs: seq<Container>, l: string) {
    IsSingle(Hosts(cs, l))
    && var ip := Hosts(cs, l)[0].ip;
       ip in Labels(cs) && FileOf(FilesAt(d, ip), "IP") == ip && FileOf(FilesAt(d, l), "IP") != ip
  }

  lemma KeptAddress(d: Entries, cs: seq<Container>, l: string)
    ensures var e := AllMarked(Kept(d, Labels(cs)), cs);
            FileOf(FilesAt(e, l), "IP") == if l in Labels(cs) then FileOf(FilesAt(d, l), "IP") else ""
  {
  }

  // A label with one host ends up at its host's address, unless it is shadowed.
  lemma SingleExactly(net: Spelling, d: Entries, cs: seq<Container>, d': Entries, l: string)
    requires Pass(net, d, cs, d') && l in Labels(cs)
    requires IsSingle(Hosts(cs, l)) && Hosts(cs, l)[0].ip != ""
    ensures AtItsHost(d', cs, l) <==> !Shadowed(d, cs, l)
  {
    var e := AllMarked(Kept(d, Labels(cs)), cs);
    var ip := Hosts(cs, l)[0].ip;
    Listed(net, d, cs, d', l);
    KeptAddress(d, cs, l);
    KeptAddress(d, cs, ip);
    assert d'[l] == Single(e, e[l], Hosts(cs, l));
  }

  // Shadowing happens: once a container lists a label spelled like its own address, a
  // further label of that container does not get the address.
  lemma ShadowOccurs(net: Spelling, c: Container, l: string, d: Entries, d': Entries)
    requires c.ip != "" && l != c.ip && c.labels == [c.ip, l]
    requires Pass(net, map[], [Container(c.ip, [c.ip])], d) && Pass(net, d, [c], d')
    ensures l in d' && IsSingle(Hosts([c], l)) && !AtItsHost(d', [c], l)
  {
    OwnAddress(net, c.ip, l, d);
    OneContainer(c, l);
    Listed(net, d, [c], d', l);
    SingleExactly(net, d, [c], d', l);
  }

  lemma OwnAddress(net: Spelling, ip: string, l: string, d: Entries)
    requires ip != "" && l != ip && Pass(net, map[], [Container(ip, [ip])], d)
    ensures FileOf(FilesAt(d, ip), "IP") == ip && l !in d
  {
    var c := Container(ip, [ip]);
    OneContainer(c, ip);
    Listed(net, map[], [c], d, ip);
    Listed(net, map[], [c], d, l);
    SingleExactly(net, map[], [c], d, ip);
  }

  lemma OneContainer(c: Container, l: string)
    requires multiset(c.labels)[l] == 1
    ensures Hosts([c], l) == [c] && Labels([c]) == c.labels
  {
    assert [c][..0] == [];
    HostsInCount(c, c.labels, l);
    var h := HostsIn(c, c.labels, l);
    assert h[0] in h;
  }

  // ---------------------------------------------------------------------------------
  // Runs
  // ---------------------------------------------------------------------------------

  // Every labelled container has an address in 10.0/16.
  ghost predicate Housed(net: Spelling, cs: seq<Container>) {
    forall c :: c in cs && c.labels != [] ==> ParseIP(net, c.ip, CONTAINERS) != 0
  }

  // No label is spelled like the address of a container.
  ghost predicate Distinguished(cs: seq<Container>) {
    forall c :: c in cs ==> c.ip !in Labels(cs)
  }

  // The labels in use, marked and at their addresses; those with several hosts at addresses
  // of their own in 10.1/16, or at none if no free address was drawn.
  ghost predicate Good(net: Spelling, cs: seq<Container>, d: Entries) {
    && (forall l :: l in d <==> l in Labels(cs))
    && (forall l :: l in d ==> ("MultiHost" in d[l] <==> |Hosts(cs, l)| > 1) && AtItsHost(d, cs, l))
    && (forall l :: l in d && |Hosts(cs, l)| > 1 && "IP" in d[l] ==> Addr(net, d[l], LABELS) != 0)
    && Safe(net, d, LABELS)
  }

  lemma PassGood(net: Spelling, d: Entries, cs: seq<Container>, d': Entries)
    requires Exact(net) && Pass(net, d, cs, d') && Safe(net, d, LABELS) && Housed(net, cs)
    requires forall l :: l in Labels(cs) ==> !Shadowed(d, cs, l)
    ensures Good(net, cs, d')
  {
    forall l | l in d' ensures ("MultiHost" in d'[l] <==> |Hosts(cs, l)| > 1) && AtItsHost(d', cs, l) {
      Listed(net, d, cs, d', l);
      if IsSingle(Hosts(cs, l)) {
        SingleHost(net, d, cs, d', l);
      }
    }
    forall l ensures l in d' <==> l in Labels(cs) { Listed(net, d, cs, d', l); }
    SafeAfter(net, d, cs, d');
  }

  lemma SingleHost(net: Spelling, d: Entries, cs: seq<Container>, d': Entries, l: string)
    requires Exact(net) && Pass(net, d, cs, d') && Housed(net, cs) && l in d' && IsSingle(Hosts(cs, l))
    requires !Shadowed(d, cs, l)
    ensures AtItsHost(d', cs, l) && Addr(net, d'[l], LABELS) == 0
  {
    var c := Hosts(cs, l)[0];
    HostsCount(cs, l);
    Listed(net, d, cs, d', l);
    assert c in Hosts(cs, l);
    SingleExactly(net, d, cs, d', l);
  }

  lemma SafeAfter(net: Spelling, d: Entries, cs: seq<Container>, d': Entries)
    requires Exact(net) && Pass(net, d, cs, d') && Safe(net, d, LABELS) && Housed(net, cs)
    requires forall l :: l in Labels(cs) ==> !Shadowed(d, cs, l)
    ensures Safe(net, d', LABELS)
  {
    var e := AllMarked(Kept(d, Labels(cs)), cs);
    SafeMarked(net, d, cs);
    forall l | l in d' && |Hosts(cs, l)| <= 1 ensures Addr(net, d'[l], LABELS) == 0 {
      Listed(net, d, cs, d', l);
      Implemented(cs, l);
      SingleHost(net, d, cs, d', l);
    }
    SafeSub(net, d', cs);
  }

  lemma SafeMarked(net: Spelling, d: Entries, cs: seq<Container>)
    requires Exact(net) && Safe(net, d, LABELS)
    ensures SafeMultis(net, AllMarked(Kept(d, Labels(cs)), cs), cs)
  {
    var e := AllMarked(Kept(d, Labels(cs)), cs);
    forall l | l in e
      ensures Addr(net, e[l], LABELS) != 0 ==> l in d && Addr(net, e[l], LABELS) == Addr(net, d[l], LABELS)
    {
      KeptAddress(d, cs, l);
    }
  }

  // Entries without an address do not matter.
  lemma SafeSub(net: Spelling, e: Entries, cs: seq<Container>)
    requires SafeMultis(net, e, cs)
    requires forall l :: l in e && |Hosts(cs, l)| <= 1 ==> Addr(net, e[l], LABELS) == 0
    ensures Safe(net, e, LABELS)
  {
  }

  // No label of a pass is shadowed.
  ghost predicate Unshadowed(d: Entries, cs: seq<Container>) {
    forall l :: l in Labels(cs) ==> !Shadowed(d, cs, l)
  }

  lemma GoodUnshadowed(net: Spelling, d: Entries, cs: seq<Container>, d': Entries)
    requires Exact(net) && Pass(net, d, cs, d') && Housed(net, cs) && Good(net, cs, d')
    ensures Unshadowed(d, cs)
  {
    forall l | l in Labels(cs) ensures !Shadowed(d, cs, l) {
      if IsSingle(Hosts(cs, l)) {
        HostsCount(cs, l);
        assert Hosts(cs, l)[0] in Hosts(cs, l);
        SingleExactly(net, d, cs, d', l);
      }
    }
  }

  // Over any run of passes, every pass leaves the directory good if and only if no pass
  // meets a shadowed label.
  lemma {:induction false} RunGood(net: Spelling, ds: seq<Entries>, css: seq<seq<Container>>)
    requires Exact(net) && |ds| == |css| + 1 && Safe(net, ds[0], LABELS)
    requires forall i :: 0 <= i < |css| ==> Pass(net, ds[i], css[i], ds[i + 1]) && Housed(net, css[i])
    ensures (forall i :: 0 <= i < |css| ==> Good(net, css[i], ds[i + 1])) <==>
              (forall i :: 0 <= i < |css| ==> Unshadowed(ds[i], css[i]))
  {
    if forall i :: 0 <= i < |css| ==> Unshadowed(ds[i], css[i]) {
      for n := 0 to |css|
        invariant Safe(net, ds[n], LABELS) && forall i :: 0 <= i < n ==> Good(net, css[i], ds[i + 1])
      {
        assert Pass(net, ds[n], css[n], ds[n + 1]);
        PassGood(net, ds[n], css[n], ds[n + 1]);
      }
    }
    if forall i :: 0 <= i < |css| ==> Good(net, css[i], ds[i + 1]) {
      forall i | 0 <= i < |css| ensures Unshadowed(ds[i], css[i]) {
        GoodUnshadowed(net, ds[i], css[i], ds[i + 1]);
      }
    }
  }

  // In particular if no label is spelled like the address of a container.
  lemma DistinguishedUnshadowed(d: Entries, cs: seq<Container>)
    requires Distinguished(cs)
    ensures Unshadowed(d, cs)
  {
    forall l | l in Labels(cs) ensures !Shadowed(d, cs, l) { HostsCount(cs, l); }
  }

  // A label with a slash is never listed, so the directory can only be exact if there is
  // none.
  lemma SlashedLabel(root: Tree, base: string, cs: seq<Container>, l: string)
    requires Sliced(root) && Rooted(base) && View(root, base).Some? && l in Labels(cs) && !Text.Clean(l, '/')
    ensures View(root, base).value.Keys != set k | k in Labels(cs)
  {
    if l in View(root, base).value { SlashUnlisted(root, base, l); }
  }

  // ---------------------------------------------------------------------------------
  // Crashes
  // ---------------------------------------------------------------------------------

  // There is a node at the label's path, below an entry that stays.
  ghost predicate Occupied(node: Tree, ids: seq<string>, l: string) {
    Parts(l)[0] in ids && Walk(node, Parts(l)).Some?
  }

  // A label below this one comes before it.
  ghost predicate Preceded(order: seq<string>, l: string) {
    exists e :: e in Before(order, l) && Parts(l) <= Parts(e)
  }

  // The labels in the order in which their entries are made.
  ghost function Order(keys: seq<string>, ids: seq<string>): seq<string> {
    GreedyJoin.Greedy(keys, ids, SameName).rights
  }

  ghost predicate Stuck(node: Tree, keys: seq<string>, ids: seq<string>, l: string) {
    l !in node.children && (Occupied(node, ids, l) || Preceded(Order(keys, ids), l))
  }

  // Which labels are missed.
  lemma MissedExactly(node: Tree, keys: seq<string>, ids: seq<string>, l: string)
    requires IsListing(keys, node.children.Keys) && AllTidy(keys) && l in ids
    ensures l in Missed(node, keys, ids) <==> Stuck(node, keys, ids, l)
  {
    var g := GreedyJoin.Greedy(keys, ids, SameName);
    JoinNames(keys, ids);
    var m := Made(Without(node, Names(g.lefts)), node.children.Keys - Names(g.lefts));
    MadeNames(m, g.rights, l);
    if l !in node.children {
      MissedName(m, g.rights, l);
      KeptNodes(node, Names(g.lefts), Parts(l));
      if l in Before(g.rights, l) { BeforeIn(g.rights, l, l); }
      LongerUnlisted(m, keys, Before(g.rights, l), l);
    }
  }

  lemma KeptNodes(node: Tree, gone: set<string>, p: seq<string>)
    requires p != []
    ensures Walk(Without(node, gone), p).Some? <==> p[0] !in gone && Walk(node, p).Some?
  {
  }

  // A name below another one has a slash in it, so it is not an entry of the directory.
  lemma LongerUnlisted(m: Made, keys: seq<string>, names: seq<string>, l: string)
    requires AllTidy(keys) && l !in names && forall k :: k in m.names ==> k in keys
    ensures Leads(m, names, Parts(l)) <==> exists e :: e in names && Parts(l) <= Parts(e)
  {
    forall e | e in names && Parts(l) <= Parts(e) ensures e !in m.names {
      CleanParts(e);
      PartsLonger(l, e);
    }
  }

  lemma PartsLonger(l: string, e: string)
    requires l != e && Parts(l) <= Parts(e)
    ensures |Parts(e)| > 1
  {
    if |Parts(e)| == 1 {
      assert Parts(l) == Parts(e);
      PartsApart(l, e);
    }
  }

  // So the pass crashes exactly if a label with several hosts is stuck.
  lemma CrashExactly(node: Tree, keys: seq<string>, cs: seq<Container>)
    requires IsListing(keys, node.children.Keys) && AllTidy(keys)
    ensures (exists l :: l in Missed(node, keys, Labels(cs)) && |Hosts(cs, l)| > 1) <==>
              exists l :: l in Labels(cs) && |Hosts(cs, l)| > 1 && Stuck(node, keys, Labels(cs), l)
  {
    forall l | l in Labels(cs) ensures l in Missed(node, keys, Labels(cs)) <==> Stuck(node, keys, Labels(cs), l) {
      MissedExactly(node, keys, Labels(cs), l);
    }
  }

  // In any order of the keys, a label is stuck if its path is occupied, and only if it is or
  // there is another label below it; so none is if no label has a slash in it.
  lemma StuckCauses(node: Tree, keys: seq<string>, ids: seq<string>, l: string)
    requires IsListing(keys, node.children.Keys) && l in ids && l !in node.children
    ensures Occupied(node, ids, l) ==> Stuck(node, keys, ids, l)
    ensures Stuck(node, keys, ids, l) ==>
              Occupied(node, ids, l) || exists e :: e in ids && e != l && Parts(l) <= Parts(e)
    ensures AllTidy(ids) ==> !Stuck(node, keys, ids, l)
  {
    JoinNames(keys, ids);
    var order := Order(keys, ids);
    forall e | e in Before(order, l) && Parts(l) <= Parts(e) ensures e in ids && e != l && |Parts(e)| > 1 {
      BeforeIn(order, l, e);
      PartsLonger(l, e);
    }
    forall e | e in ids && Text.Clean(e, '/') ensures Parts(e) == [e] { CleanParts(e); }
  }

  // In an empty directory entries are made in the order in which the containers list them.
  lemma EmptyStuck(node: Tree, keys: seq<string>, ids: seq<string>, l: string)
    requires IsListing(keys, node.children.Keys) && node.children == map[]
    ensures Stuck(node, keys, ids, l) <==> Preceded(ids, l)
  {
    forall k ensures k in multiset(keys) <==> k in keys {}
    assert multiset(keys) == multiset{} && |multiset(keys)| == |keys|;
  }

  lemma ThreeContainers(cs: seq<Container>)
    requires |cs| == 3
    ensures Labels(cs) == cs[0].labels + cs[1].labels + cs[2].labels
  {
    assert cs[..2][..1] == cs[..1] && cs[..1][..0] == [] && cs[..2][1] == cs[1] && cs[..1][0] == cs[0];
    assert Labels(cs[..2]) == Labels(cs[..1]) + cs[1].labels;
    assert Labels(cs[..1]) == [] + cs[0].labels;
  }

  lemma BelowParts(l: string, name: string)
    requires Text.Clean(l, '/')
    ensures Parts(l) == [l] && Parts(l + "/" + name) == [l] + Parts(name) && l + "/" + name != l
  {
    CleanParts(l);
    Text.HeadOf(l, name, '/');
    assert (l + "/" + name)[|l| + 1..] == name;
  }

  lemma BelowLabels(cs: seq<Container>, l: string, name: string)
    requires |cs| == 3 && cs[0].labels == [l + "/" + name] && cs[1].labels == [l] == cs[2].labels
    ensures Labels(cs) == [l + "/" + name, l, l] && |Hosts(cs, l)| > 1
  {
    ThreeContainers(cs);
    HostsCount(cs, l);
  }

  lemma BelowStuck(node: Tree, keys: seq<string>, l: string, name: string)
    requires Text.Clean(l, '/') && IsListing(keys, node.children.Keys) && node.children == map[]
    ensures Stuck(node, keys, [l + "/" + name, l, l], l)
  {
    var ids := [l + "/" + name, l, l];
    BelowParts(l, name);
    assert ids[1..][0] == l;
    assert ids[0] in Before(ids, l);
    EmptyStuck(node, keys, ids, l);
  }

  // From an empty directory, a label with several hosts but no slash in it crashes the
  // leader if a container before lists a label below it.
  method BelowFirst(net: Spelling, store: Store, base: string, l: string, name: string, ips: seq<string>)
    returns (crashed: bool)
    requires Exact(net) && Proper(base) && Text.Clean(l, '/') && |ips| == 3
    requires store.reliable && NodeAt(store.root, base).children == map[]
    modifies store
    ensures crashed
  {
    var cs := [Container(ips[0], [l + "/" + name]), Container(ips[1], [l]), Container(ips[2], [l])];
    ghost var node := NodeAt(store.root, base);
    ghost var missed, keys;
    ShownKeys(store.root, base);
    crashed, missed, keys := WriteStoreLabels(net, store, base, cs);
    BelowLabels(cs, l, name);
    BelowStuck(node, keys, l, name);
  }

  // A label with a slash in it crashes the leader if it spells a key of another label, as
  // the address of a label that was given one in an earlier pass.
  method KeyTaken(net: Spelling, store: Store, base: string, l: string, ips: seq<string>)
    returns (first: bool, crashed: bool)
    requires Exact(net) && Proper(base) && Text.Clean(l, '/') && |ips| == 3 && ips[0] != ""
    requires store.reliable && NodeAt(store.root, base).children == map[]
    modifies store
    ensures !first && crashed
  {
    var c := Container(ips[0], [l]);
    first := OneLabel(net, store, base, l, c);
    ghost var node := NodeAt(store.root, base);
    var cs := [c, Container(ips[1], [l + "/" + "IP"]), Container(ips[2], [l + "/" + "IP"])];
    KeyLabels(cs, l);
    ghost var missed, keys;
    crashed, missed, keys := WriteStoreLabels(net, store, base, cs);
    StuckLabel(node, keys, cs, l + "/" + "IP");
  }

  lemma StuckLabel(node: Tree, keys: seq<string>, cs: seq<Container>, l: string)
    requires l in Labels(cs) && |Hosts(cs, l)| > 1 && l !in node.children && Occupied(node, Labels(cs), l)
    ensures exists l :: l in Labels(cs) && |Hosts(cs, l)| > 1 && Stuck(node, keys, Labels(cs), l)
  {
    assert Stuck(node, keys, Labels(cs), l);
  }

  method OneLabel(net: Spelling, store: Store, base: string, l: string, c: Container) returns (crashed: bool)
    requires Exact(net) && Proper(base) && Text.Clean(l, '/') && c.labels == [l] && c.ip != ""
    requires store.reliable && NodeAt(store.root, base).children == map[]
    modifies store
    ensures !crashed && Sound(store, base)
    ensures var k, node := l + "/" + "IP", NodeAt(store.root, base);
            k !in node.children && Occupied(node, [l, k, k], k)
  {
    ghost var before := store.root;
    ghost var missed, keys;
    NoneShown(before, base, l, c);
    crashed, missed, keys := WriteStoreLabels(net, store, base, [c]);
    HasAddress(net, c, l, store.root, base);
  }

  lemma NoneShown(root: Tree, base: string, l: string, c: Container)
    requires Rooted(base) && NodeAt(root, base).children == map[] && Text.Clean(l, '/') && c.labels == [l]
    ensures Shown(root, base) == map[] && Tidy(Shown(root, base)) && AllTidy(Labels([c]))
  {
    ShownKeys(root, base);
    OneContainer(c, l);
  }

  lemma HasAddress(net: Spelling, c: Container, l: string, root: Tree, base: string)
    requires Proper(base) && Text.Clean(l, '/') && c.labels == [l] && c.ip != ""
    requires View(root, base).Some? && Pass(net, map[], [c], Shown(root, base))
    ensures var k, node := l + "/" + "IP", NodeAt(root, base);
            k !in node.children && Occupied(node, [l, k, k], k)
  {
    var d, k := Shown(root, base), l + "/" + "IP";
    OneContainer(c, l);
    BelowParts(l, "IP");
    Listed(net, map[], [c], d, l);
    Listed(net, map[], [c], d, k);
    SingleExactly(net, map[], [c], d, l);
    ShownKeys(root, base);
    KeyOccupied(root, base, l, "IP", [l, k, k]);
  }

  lemma KeyLabels(cs: seq<Container>, l: string)
    requires |cs| == 3 && cs[0].labels == [l] && cs[1].labels == [l + "/" + "IP"] == cs[2].labels
    ensures var k := l + "/" + "IP"; Labels(cs) == [l, k, k] && |Hosts(cs, k)| > 1
  {
    ThreeContainers(cs);
    HostsCount(cs, l + "/" + "IP");
  }

  lemma KeyOccupied(root: Tree, base: string, l: string, name: string, ids: seq<string>)
    requires Proper(base) && Text.Clean(l, '/') && Text.Clean(name, '/') && l in ids
    requires View(root, base).Some? && l in View(root, base).value && name in View(root, base).value[l]
    ensures Occupied(NodeAt(root, base), ids, l + "/" + name)
  {
    BelowParts(l, name);
    CleanParts(name);
    var node := NodeAt(root, base);
    assert name in node.children[l].children;
    WalkOne(node.children[l], name);
    assert ([l] + [name])[1..] == [name];
  }
}
