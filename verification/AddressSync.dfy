/** Directory sync and address allocation (minion/network/store.go): an in-memory directory
    that is kept in step with the store. */
module AddressSync {
  import opened Basics
  import opened Addresses
  import opened TreeStore
  import opened Directories
  import opened Making
  import Text
  import GreedyJoin

  // The address of the default gateway, 10.0.0.1.
  const GATEWAY: Word := 0x0A00_0001

  function FileOf(files: Files, name: string): string { if name in files then files[name] else "" }

  // The address a string spells, or zero if it spells none with the given upper half.
  function ParseIP(net: Spelling, s: string, prefix: Word): Word {
    match net.parse(s)
    case None => 0
    case Some(ip) => if ip - ip % 0x1_0000 != prefix then 0 else ip
  }

  predicate IsPrefix(prefix: Word) { prefix % 0x1_0000 == 0 && prefix != 0 }

  function Masked(r: Word, prefix: Word): (ip: Word)
    requires IsPrefix(prefix)
    ensures ip != 0 && ip - ip % 0x1_0000 == prefix
  {
    InHalf(prefix as int, (r % 0x1_0000) as int);
    prefix + r % 0x1_0000
  }

  lemma InHalf(p: int, r: int)
    requires 0 <= p < 0x1_0000_0000 && p % 0x1_0000 == 0 && 0 <= r < 0x1_0000
    ensures p + r < 0x1_0000_0000 && (p + r) % 0x1_0000 == r
  {
  }

  // The first of at most 256 draws that is free, or zero if none is.
  method RandomIP(conflicts: set<Word>, prefix: Word) returns (ip: Word, ghost draws: seq<Word>)
    requires IsPrefix(prefix)
    ensures ip != 0 ==> ip !in conflicts && ip - ip % 0x1_0000 == prefix
    ensures |draws| <= 256
    ensures ip != 0 ==> draws != [] && ip == Masked(draws[|draws| - 1], prefix)
    ensures ip != 0 ==> forall i :: 0 <= i < |draws| - 1 ==> Masked(draws[i], prefix) in conflicts
    ensures ip == 0 ==> |draws| == 256 && forall i :: 0 <= i < |draws| ==> Masked(draws[i], prefix) in conflicts
  {
    draws := [];
    for i := 0 to 256
      invariant |draws| == i && forall j :: 0 <= j < i ==> Masked(draws[j], prefix) in conflicts
    {
      var r: Word := *;
      draws := draws + [r];
      ip := Masked(r, prefix);
      if ip !in conflicts { return; }
    }
    ip := 0;
  }

  // ---------------------------------------------------------------------------------
  // Address allocation
  // ---------------------------------------------------------------------------------

  class Directory {
    var entries: Entries

    constructor (entries: Entries)
      ensures this.entries == entries
    {
      this.entries := entries;
    }
  }

  function Addr(net: Spelling, files: Files, prefix: Word): Word { ParseIP(net, FileOf(files, "IP"), prefix) }

  function Gateway(net: Spelling, prefix: Word): Word { ParseIP(net, net.show(GATEWAY), prefix) }

  // The gateway is in 10.0/16 only.
  lemma GatewayIn(net: Spelling, prefix: Word)
    requires Exact(net)
    ensures Gateway(net, prefix) == if prefix == 0x0A00_0000 then GATEWAY else 0
  {
  }

  // No two entries have the same address, and none has the gateway's.
  ghost predicate Safe(net: Spelling, e: Entries, prefix: Word) {
    && (forall k :: k in e && Addr(net, e[k], prefix) != 0 ==> Addr(net, e[k], prefix) != Gateway(net, prefix))
    && (forall j, k :: j in e && k in e && j != k && Addr(net, e[j], prefix) != 0 ==>
          Addr(net, e[j], prefix) != Addr(net, e[k], prefix))
  }

  // What may become of an entry: a valid address stays, anything else is replaced by a
  // valid address or removed, unless the store failed.
  ghost predicate Assigned(net: Spelling, f: Files, f': Files, prefix: Word, sure: bool) {
    && f' - {"IP"} == f - {"IP"}
    && (Addr(net, f, prefix) != 0 ==> f' == f)
    && ("IP" in f' ==> Addr(net, f', prefix) != 0 || (!sure && f' == f))
  }

  ghost predicate Tidy(e: Entries) { forall k :: k in e ==> Text.Clean(k, '/') }

  // The store shows the directory's entries over those of v.
  ghost predicate Shows(root: Tree, base: string, v: Entries, e: Entries)
    requires Rooted(base)
  {
    View(root, base) == Some(v + e)
  }

  lemma Overlay(v: Entries, e: Entries, k: string, f: Files)
    ensures (v + e)[k := f] == v + e[k := f]
  {
  }

  // What a write of one entry comes to in the directory, given whether it was reported done
  // and whether it took effect.
  ghost predicate Wrote(store: Store, base: string, before: Entries, k: string, f: Files, ok: bool)
    requires Rooted(base)
    reads store
  {
    && (ok ==> View(store.root, base) == Some(before[k := f]))
    && (!ok && store.atomic ==> View(store.root, base) == Some(before))
    && (View(store.root, base) == Some(before) || View(store.root, base) == Some(before[k := f]))
  }

  method WriteFile(store: Store, base: string, k: string, name: string, value: string, ghost v: Entries,
                   ghost e: Entries)
    returns (ok: bool)
    requires Proper(base) && Text.Clean(name, '/') && k in e
    modifies store
    ensures store.reliable && Text.Clean(k, '/') && Shows(old(store.root), base, v, e) ==>
              ok && Shows(store.root, base, v, e[k := e[k][name := value]]) && Framed(old(store.root), store.root, base)
    ensures var view := old(View(store.root, base));
            Text.Clean(k, '/') && view.Some? && k in view.value ==>
              Wrote(store, base, view.value, k, view.value[k][name := value], ok)
  {
    ghost var t := store.root;
    ok := store.Write(Sub(Sub(base, k), name), value);
    if Text.Clean(k, '/') && View(t, base).Some? && k in View(t, base).value {
      SetFile(t, base, k, name, value);
      Overlay(v, e, k, e[k][name := value]);
    }
  }

  method RemoveFile(store: Store, base: string, k: string, name: string, ghost v: Entries, ghost e: Entries)
    returns (ghost gone: bool)
    requires Proper(base) && Text.Clean(name, '/') && k in e
    modifies store
    ensures store.reliable && Text.Clean(k, '/') && Shows(old(store.root), base, v, e) ==>
              Shows(store.root, base, v, e[k := e[k] - {name}]) && Framed(old(store.root), store.root, base)
    ensures var view := old(View(store.root, base));
            Text.Clean(k, '/') && view.Some? && k in view.value ==>
              View(store.root, base) == Some(if gone then view.value[k := view.value[k] - {name}] else view.value)
  {
    ghost var t := store.root;
    var _ := store.Remove(Sub(Sub(base, k), name));
    gone := true;
    if Text.Clean(k, '/') && View(t, base).Some? && k in View(t, base).value {
      DeleteFile(t, base, k, name);
      Overlay(v, e, k, e[k] - {name});
      gone := store.root != t;
      if store.root == Delete(t, Sub(Sub(base, k), name)).root { gone := true; }
    }
  }

  lemma Assigning(net: Spelling, f: Files, ip: Word, prefix: Word)
    requires Exact(net) && Addr(net, f, prefix) == 0 && ip != 0 && ip - ip % 0x1_0000 == prefix
    ensures Addr(net, f["IP" := net.show(ip)], prefix) == ip
    ensures Assigned(net, f, f["IP" := net.show(ip)], prefix, true)
  {
    assert f["IP" := net.show(ip)] - {"IP"} == f - {"IP"};
  }

  lemma Clearing(net: Spelling, f: Files, prefix: Word)
    requires Exact(net) && Addr(net, f, prefix) == 0
    ensures Addr(net, f - {"IP"}, prefix) == 0 && Assigned(net, f, f - {"IP"}, prefix, true)
  {
    assert f - {"IP"} - {"IP"} == f - {"IP"};
  }

  // Every address in use is taken, and so is the gateway's.
  ghost predicate Taken(net: Spelling, taken: set<Word>, e: Entries, prefix: Word) {
    && Gateway(net, prefix) in taken
    && forall j :: j in e && Addr(net, e[j], prefix) != 0 ==> Addr(net, e[j], prefix) in taken
  }

  // ---------------------------------------------------------------------------------
  // One allocation
  // ---------------------------------------------------------------------------------

  // The address drawn, or zero, whether the store reported success, and whether the
  // operation took effect.
  datatype Draw = Draw(ip: Word, ok: bool, landed: bool)

  // The addresses that are taken, with the entries of the cache and of the store.
  datatype Alloc = Alloc(taken: set<Word>, cache: Entries, stored: Entries)

  ghost predicate Drawn(how: Draw, taken: set<Word>, prefix: Word) {
    && (how.ip != 0 ==> how.ip !in taken && how.ip - how.ip % 0x1_0000 == prefix)
    && (how.ok ==> how.landed)
  }

  // The entry of the cache follows what was reported, the entry of the store what happened.
  ghost function Allocated(net: Spelling, a: Alloc, k: string, how: Draw): Alloc
    requires k in a.cache && k in a.stored
  {
    if how.ip == 0 then
      Alloc(a.taken, a.cache[k := a.cache[k] - {"IP"}],
            if how.landed then a.stored[k := a.stored[k] - {"IP"}] else a.stored)
    else
      Alloc(if how.ok then a.taken + {how.ip} else a.taken,
            if how.ok then a.cache[k := a.cache[k]["IP" := net.show(how.ip)]] else a.cache,
            if how.landed then a.stored[k := a.stored[k]["IP" := net.show(how.ip)]] else a.stored)
  }

  // An address for one entry.  If it is sure that the store works and shows the directory,
  // it still does afterwards.
  method AssignOne(net: Spelling, store: Store, dir: Directory, base: string, prefix: Word, k: string, taken: set<Word>,
                   ghost v: Entries, ghost sure: bool)
    returns (taken': set<Word>, ghost how: Draw)
    requires Exact(net) && Proper(base) && IsPrefix(prefix)
    requires k in dir.entries && Addr(net, dir.entries[k], prefix) == 0
    requires Taken(net, taken, dir.entries, prefix)
    requires sure ==> store.reliable && Text.Clean(k, '/') && Shows(store.root, base, v, dir.entries)
    modifies store, dir
    ensures k in dir.entries && dir.entries == old(dir.entries)[k := dir.entries[k]]
    ensures Assigned(net, old(dir.entries)[k], dir.entries[k], prefix, sure)
    ensures Taken(net, taken', dir.entries, prefix)
    ensures Addr(net, dir.entries[k], prefix) != 0 ==> Addr(net, dir.entries[k], prefix) !in taken
    ensures sure ==> Shows(store.root, base, v, dir.entries) && Framed(old(store.root), store.root, base)
    ensures Drawn(how, taken, prefix) && (store.atomic && how.ip != 0 ==> how.landed == how.ok)
    ensures var view := old(View(store.root, base));
            Text.Clean(k, '/') && view.Some? && k in view.value ==>
              View(store.root, base).Some? && Alloc(taken', dir.entries, View(store.root, base).value) ==
                Allocated(net, Alloc(taken, old(dir.entries), view.value), k, how)
  {
    ghost var e, t := dir.entries, View(store.root, base);
    var files := dir.entries[k];
    var ip, draws := RandomIP(taken, prefix);
    taken' := taken;
    if ip == 0 {
      Clearing(net, files, prefix);
      ghost var gone := RemoveFile(store, base, k, "IP", v, e);
      dir.entries := dir.entries[k := files - {"IP"}];
      how := Draw(0, false, gone);
    } else {
      Assigning(net, files, ip, prefix);
      var ok := WriteFile(store, base, k, "IP", net.show(ip), v, e);
      how := Draw(ip, ok, ok || (!store.atomic && View(store.root, base) != t));
      if ok {
        dir.entries := dir.entries[k := files["IP" := net.show(ip)]];
        taken' := taken + {ip};
      } else {
        assert e[k := e[k]] == e;
      }
    }
  }

  // The store knows the same addresses as the cache.
  ghost predicate Mirrors(net: Spelling, stored: Entries, cache: Entries, prefix: Word) {
    forall k :: k in cache ==> k in stored && Addr(net, stored[k], prefix) == Addr(net, cache[k], prefix)
  }

  // It stays so if failed writes have no effect.
  lemma MirrorStep(net: Spelling, a: Alloc, k: string, how: Draw, prefix: Word)
    requires Exact(net) && k in a.cache && Addr(net, a.cache[k], prefix) == 0 && Mirrors(net, a.stored, a.cache, prefix)
    requires Drawn(how, a.taken, prefix) && (how.ip != 0 ==> how.landed == how.ok)
    ensures var a' := Allocated(net, a, k, how); Mirrors(net, a'.stored, a'.cache, prefix)
  {
    if how.ip == 0 {
      Clearing(net, a.cache[k], prefix);
      Clearing(net, a.stored[k], prefix);
    } else {
      Assigning(net, a.cache[k], how.ip, prefix);
      Assigning(net, a.stored[k], how.ip, prefix);
    }
  }

  lemma MirrorSafe(net: Spelling, stored: Entries, cache: Entries, prefix: Word)
    requires Mirrors(net, stored, cache, prefix) && stored.Keys == cache.Keys
    ensures Safe(net, stored, prefix) <==> Safe(net, cache, prefix)
  {
  }

  // If a failed write did take effect, its address is not taken, and the next entry can be
  // stored with the same one.
  lemma LostReply(net: Spelling, a: Alloc, j: string, k: string, ip: Word, prefix: Word)
    requires Exact(net) && j != k && {j, k} <= a.cache.Keys && {j, k} <= a.stored.Keys
    requires ip != 0 && ip !in a.taken && ip - ip % 0x1_0000 == prefix
    requires Addr(net, a.stored[j], prefix) == 0 == Addr(net, a.stored[k], prefix)
    ensures var lost, kept := Draw(ip, false, true), Draw(ip, true, true);
            var a1 := Allocated(net, a, j, lost);
            var a2 := Allocated(net, a1, k, kept);
            && Drawn(lost, a.taken, prefix) && Drawn(kept, a1.taken, prefix)
            && Addr(net, a2.stored[j], prefix) == ip == Addr(net, a2.stored[k], prefix)
            && !Safe(net, a2.stored, prefix)
  {
    Assigning(net, a.stored[j], ip, prefix);
    Assigning(net, a.stored[k], ip, prefix);
  }

  // The keys without a valid address, and the addresses of the others.
  method Unassigned(net: Spelling, dir: Directory, prefix: Word) returns (taken: set<Word>, unassigned: seq<string>)
    ensures Taken(net, taken, dir.entries, prefix)
    ensures forall k :: k in unassigned <==> k in dir.entries && Addr(net, dir.entries[k], prefix) == 0
    ensures forall i, j :: 0 <= i < j < |unassigned| ==> unassigned[i] != unassigned[j]
  {
    taken, unassigned := {}, [];
    var rest := dir.entries.Keys;
    while rest != {}
      invariant rest <= dir.entries.Keys
      invariant forall k :: k in unassigned <==>
                  k in dir.entries && k !in rest && Addr(net, dir.entries[k], prefix) == 0
      invariant forall i, j :: 0 <= i < j < |unassigned| ==> unassigned[i] != unassigned[j]
      invariant forall k :: k in dir.entries && k !in rest && Addr(net, dir.entries[k], prefix) != 0 ==>
                  Addr(net, dir.entries[k], prefix) in taken
    {
      var k :| k in rest;
      rest := rest - {k};
      var ip := Addr(net, dir.entries[k], prefix);
      if ip != 0 {
        taken := taken + {ip};
      } else {
        unassigned := unassigned + [k];
      }
    }
    taken := taken + {Gateway(net, prefix)};
  }

  lemma SafeStep(net: Spelling, e: Entries, k: string, f: Files, taken: set<Word>, prefix: Word)
    requires k in e && Addr(net, e[k], prefix) == 0 && Taken(net, taken, e, prefix)
    requires Addr(net, f, prefix) != 0 ==> Addr(net, f, prefix) !in taken
    ensures Safe(net, e[k := f], prefix) <==> Safe(net, e, prefix)
  {
    var e' := e[k := f];
    if Safe(net, e', prefix) {
      forall j | j in e && Addr(net, e[j], prefix) != 0 ensures Addr(net, e[j], prefix) != Gateway(net, prefix) {
        assert e'[j] == e[j];
      }
      forall i, j | i in e && j in e && i != j && Addr(net, e[i], prefix) != 0
        ensures Addr(net, e[i], prefix) != Addr(net, e[j], prefix)
      {
        assert e'[i] == e[i];
        assert j != k ==> e'[j] == e[j];
      }
    }
  }

  // The store is atomic and knows the same addresses as the directory.
  ghost predicate Tracked(net: Spelling, store: Store, dir: Directory, base: string, prefix: Word)
    requires Rooted(base)
    reads store, dir
  {
    && store.atomic && Tidy(dir.entries)
    && View(store.root, base).Some? && Mirrors(net, View(store.root, base).value, dir.entries, prefix)
  }

  lemma NextOne(s: seq<string>, n: nat)
    requires n < |s| && forall i, j :: 0 <= i < j < |s| ==> s[i] != s[j]
    ensures s[n] !in s[..n] && forall k :: k in s[..n + 1] <==> k in s[..n] || k == s[n]
  {
    assert s[..n + 1] == s[..n] + [s[n]];
  }

  // One step of the allocator keeps addresses distinct, and the store in step if failed
  // writes have no effect.
  method AssignNext(net: Spelling, store: Store, dir: Directory, base: string, prefix: Word, k: string,
                    taken: set<Word>, ghost v: Entries, ghost sure: bool)
    returns (taken': set<Word>)
    requires Exact(net) && Proper(base) && IsPrefix(prefix)
    requires k in dir.entries && Addr(net, dir.entries[k], prefix) == 0
    requires Taken(net, taken, dir.entries, prefix)
    requires sure ==> store.reliable && Text.Clean(k, '/') && Shows(store.root, base, v, dir.entries)
    modifies store, dir
    ensures k in dir.entries && dir.entries == old(dir.entries)[k := dir.entries[k]]
    ensures Assigned(net, old(dir.entries)[k], dir.entries[k], prefix, sure)
    ensures Taken(net, taken', dir.entries, prefix)
    ensures Safe(net, dir.entries, prefix) <==> Safe(net, old(dir.entries), prefix)
    ensures sure ==> Shows(store.root, base, v, dir.entries) && Framed(old(store.root), store.root, base)
    ensures old(Tracked(net, store, dir, base, prefix)) ==> Tracked(net, store, dir, base, prefix)
  {
    ghost var e, view, tracked := dir.entries, View(store.root, base), Tracked(net, store, dir, base, prefix);
    ghost var how;
    taken', how := AssignOne(net, store, dir, base, prefix, k, taken, v, sure);
    if tracked { MirrorStep(net, Alloc(taken, e, view.value), k, how, prefix); }
    SafeStep(net, e, k, dir.entries[k], taken, prefix);
  }

  // Allocator safety: for any draws and any failures of the store, valid addresses stay,
  // new ones have the prefix, and addresses are distinct and not the gateway's exactly if
  // they were before.
  method SyncIPs(net: Spelling, store: Store, dir: Directory, base: string, prefix: Word,
                 ghost v: Entries, ghost sure: bool)
    requires Exact(net) && Proper(base) && IsPrefix(prefix)
    requires sure ==> store.reliable && Tidy(dir.entries) && Shows(store.root, base, v, dir.entries)
    modifies store, dir
    ensures dir.entries.Keys == old(dir.entries).Keys
    ensures forall k :: k in dir.entries ==> Assigned(net, old(dir.entries)[k], dir.entries[k], prefix, sure)
    ensures Safe(net, dir.entries, prefix) <==> Safe(net, old(dir.entries), prefix)
    ensures sure ==> Shows(store.root, base, v, dir.entries) && Framed(old(store.root), store.root, base)
    ensures old(Tracked(net, store, dir, base, prefix)) ==> Tracked(net, store, dir, base, prefix)
  {
    ghost var e0 := dir.entries;
    var taken, unassigned := Unassigned(net, dir, prefix);
    for n := 0 to |unassigned|
      invariant dir.entries.Keys == e0.Keys && Taken(net, taken, dir.entries, prefix)
      invariant forall k :: k in e0 && k !in unassigned[..n] ==> dir.entries[k] == e0[k]
      invariant forall k :: k in unassigned[..n] ==> Assigned(net, e0[k], dir.entries[k], prefix, sure)
      invariant Safe(net, dir.entries, prefix) <==> Safe(net, e0, prefix)
      invariant sure ==> Shows(store.root, base, v, dir.entries) && Framed(old(store.root), store.root, base)
      invariant old(Tracked(net, store, dir, base, prefix)) ==> Tracked(net, store, dir, base, prefix)
    {
      var k := unassigned[n];
      NextOne(unassigned, n);
      taken := AssignNext(net, store, dir, base, prefix, k, taken, v, sure);
    }
    assert unassigned[..|unassigned|] == unassigned;
  }

  // ---------------------------------------------------------------------------------
  // The entries of a directory
  // ---------------------------------------------------------------------------------

  function SameName(l: string, r: string): int { if l != r then -1 else 0 }

  // Joining distinct keys with names leaves alone the keys that are not names, and at
  // least the names that are not keys.
  lemma JoinNames(keys: seq<string>, ids: seq<string>)
    requires forall i, j :: 0 <= i < j < |keys| ==> keys[i] != keys[j]
    ensures var g := GreedyJoin.Greedy(keys, ids, SameName);
            && (forall k :: k in g.lefts <==> k in keys && k !in ids)
            && (forall k :: k in ids && k !in keys ==> k in g.rights)
            && (forall k :: k in g.rights ==> k in ids)
            && (forall i, j :: 0 <= i < j < |g.lefts| ==> g.lefts[i] != g.lefts[j])
  {
    var g := GreedyJoin.Greedy(keys, ids, SameName);
    GreedyJoin.Difference(keys, ids, SameName);
    forall k ensures k in keys <==> k in multiset(keys) {}
    forall k ensures k in ids <==> k in multiset(ids) {}
    forall k ensures k in g.lefts <==> k in multiset(g.lefts) {}
    forall k ensures k in g.rights <==> k in multiset(g.rights) {}
    forall k ensures multiset(keys)[k] <= 1 { Once(keys, k); }
    forall i, j | 0 <= i < j < |g.lefts| ensures g.lefts[i] != g.lefts[j] {
      if g.lefts[i] == g.lefts[j] { Twice(g.lefts, i, j); }
    }
  }

  lemma {:induction false} Once(s: seq<string>, k: string)
    requires forall i, j :: 0 <= i < j < |s| ==> s[i] != s[j]
    ensures multiset(s)[k] <= 1
    decreases |s|
  {
    if s != [] {
      assert s == [s[0]] + s[1..];
      Once(s[1..], k);
      if s[0] == k { assert k !in s[1..]; }
    }
  }

  method Keys(dir: Directory) returns (keys: seq<string>)
    ensures forall k :: k in keys <==> k in dir.entries
    ensures forall i, j :: 0 <= i < j < |keys| ==> keys[i] != keys[j]
  {
    keys := [];
    var rest := dir.entries.Keys;
    while rest != {}
      invariant rest <= dir.entries.Keys
      invariant forall k :: k in keys <==> k in dir.entries && k !in rest
      invariant forall i, j :: 0 <= i < j < |keys| ==> keys[i] != keys[j]
    {
      var k :| k in rest;
      rest := rest - {k};
      keys := keys + [k];
    }
  }

  // The entries for the given names: the old ones and empty new ones.
  ghost function Kept(e: Entries, ids: seq<string>): Entries {
    map k | k in ids :: if k in e then e[k] else map[]
  }

  ghost predicate AllTidy(ids: seq<string>) { forall k :: k in ids ==> Text.Clean(k, '/') }

  // Removes one entry.
  method DropEntry(store: Store, dir: Directory, base: string, k: string, ghost sure: bool)
    requires Proper(base) && k in dir.entries
    requires sure ==> store.reliable && Tidy(dir.entries) && View(store.root, base) == Some(dir.entries)
    modifies store, dir
    ensures dir.entries == old(dir.entries) - {k}
    ensures sure ==> View(store.root, base) == Some(dir.entries) && Framed(old(store.root), store.root, base)
    ensures sure ==> NodeAt(store.root, base) == Cut(old(NodeAt(store.root, base)), k)
  {
    if sure {
      DeleteEntry(store.root, base, k);
      DropName(store.root, base, k);
    }
    var _ := store.Remove(Sub(base, k));
    dir.entries := dir.entries - {k};
  }

  ghost function Names(s: seq<string>): set<string> { set k | k in s }

  // Removes the entries that are not wanted.
  method DeleteEntries(store: Store, dir: Directory, base: string, drop: seq<string>, ghost sure: bool)
    requires Proper(base)
    requires sure ==> store.reliable && Tidy(dir.entries) && View(store.root, base) == Some(dir.entries)
    requires forall k :: k in drop ==> k in dir.entries
    requires forall i, j :: 0 <= i < j < |drop| ==> drop[i] != drop[j]
    modifies store, dir
    ensures dir.entries == old(dir.entries) - Names(drop)
    ensures sure ==> View(store.root, base) == Some(dir.entries) && Framed(old(store.root), store.root, base)
    ensures sure ==> NodeAt(store.root, base) == Without(old(NodeAt(store.root, base)), Names(drop))
  {
    ghost var e0, node := dir.entries, NodeAt(store.root, base);
    WithoutMore(node, {}, "");
    for n := 0 to |drop|
      invariant dir.entries == e0 - Names(drop[..n])
      invariant sure ==> View(store.root, base) == Some(dir.entries) && Framed(old(store.root), store.root, base)
      invariant sure ==> NodeAt(store.root, base) == Without(node, Names(drop[..n]))
    {
      var k := drop[n];
      assert k !in drop[..n] && Names(drop[..n + 1]) == Names(drop[..n]) + {k};
      WithoutMore(node, Names(drop[..n]), k);
      DropEntry(store, dir, base, k, sure);
    }
    assert drop[..|drop|] == drop;
  }

  // Adds an entry for each of the names that has none and can be made.
  method CreateEntries(store: Store, dir: Directory, base: string, ids: seq<string>, ghost sure: bool)
    requires Proper(base)
    requires sure ==> store.reliable && View(store.root, base) == Some(dir.entries)
    modifies store, dir
    ensures forall k :: k in old(dir.entries) ==> k in dir.entries && dir.entries[k] == old(dir.entries)[k]
    ensures forall k :: k in dir.entries && k !in old(dir.entries) ==> k in ids && dir.entries[k] == map[]
    ensures sure ==> Framed(old(store.root), store.root, base)
    ensures sure ==>
              var made := Make(Made(old(NodeAt(store.root, base)), old(dir.entries).Keys), ids);
              dir.entries.Keys == made.names && NodeAt(store.root, base) == made.node
    ensures sure && AllTidy(ids) ==>
              View(store.root, base) == Some(dir.entries) && forall k :: k in ids ==> k in dir.entries
  {
    ghost var e0, m := dir.entries, Made(NodeAt(store.root, base), dir.entries.Keys);
    for n := 0 to |ids|
      invariant forall k :: k in e0 ==> k in dir.entries && dir.entries[k] == e0[k]
      invariant forall k :: k in dir.entries && k !in e0 ==> k in ids && dir.entries[k] == map[]
      invariant sure ==> Framed(old(store.root), store.root, base) && GetTree(store.root, base).Some?
      invariant sure ==> dir.entries.Keys == Make(m, ids[..n]).names
      invariant sure ==> NodeAt(store.root, base) == Make(m, ids[..n]).node
      invariant sure && AllTidy(ids) ==> View(store.root, base) == Some(dir.entries)
      invariant sure && AllTidy(ids) ==> forall k :: k in ids[..n] ==> k in dir.entries
    {
      var k := ids[n];
      assert ids[..n + 1][..n] == ids[..n];
      if k in dir.entries { continue; }
      if sure {
        MakeName(store.root, base, k);
        if AllTidy(ids) { MakeEntry(store.root, base, k); }
      }
      var ok := store.MakeDir(Sub(base, k));
      if !ok { continue; }
      dir.entries := dir.entries[k := map[]];
    }
    assert ids[..|ids|] == ids;
  }

  ghost predicate IsListing(keys: seq<string>, e: set<string>) {
    (forall k :: k in keys <==> k in e) && forall i, j :: 0 <= i < j < |keys| ==> keys[i] != keys[j]
  }

  // What becomes of a directory whose keys are read in the given order.
  ghost function Synced(node: Tree, keys: seq<string>, ids: seq<string>): Made {
    var g := GreedyJoin.Greedy(keys, ids, SameName);
    Make(Made(Without(node, Names(g.lefts)), node.children.Keys - Names(g.lefts)), g.rights)
  }

  // Entries that are not wanted go, and missing ones are made where their paths are free.
  method SyncDir(store: Store, dir: Directory, base: string, ids: seq<string>, ghost sure: bool)
    returns (ghost keys: seq<string>)
    requires Proper(base)
    requires sure ==> store.reliable && Tidy(dir.entries) && View(store.root, base) == Some(dir.entries)
    modifies store, dir
    ensures forall k :: k in dir.entries ==> k in ids && dir.entries[k] == Kept(old(dir.entries), ids)[k]
    ensures forall k :: k in ids && k in old(dir.entries) ==> k in dir.entries
    ensures IsListing(keys, old(dir.entries).Keys)
    ensures sure ==> Framed(old(store.root), store.root, base)
    ensures sure ==>
              var made := Synced(old(NodeAt(store.root, base)), keys, ids);
              dir.entries.Keys == made.names && NodeAt(store.root, base) == made.node
    ensures sure && AllTidy(ids) ==>
              dir.entries == Kept(old(dir.entries), ids) && View(store.root, base) == Some(dir.entries)
  {
    var order := Keys(dir);
    keys := order;
    var _, dirKeys, lonely := GreedyJoin.Join(order, ids, SameName);
    JoinNames(keys, ids);
    if sure { NodeKeys(store.root, base); }
    DeleteEntries(store, dir, base, dirKeys, sure);
    CreateEntries(store, dir, base, lonely, sure);
  }

  lemma Twice(s: seq<string>, i: nat, j: nat)
    requires i < j < |s| && s[i] == s[j]
    ensures multiset(s)[s[i]] >= 2
  {
    assert s == s[..i] + [s[i]] + s[i + 1..j] + [s[j]] + s[j + 1..];
  }
}
