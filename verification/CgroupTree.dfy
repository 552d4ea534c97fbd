/**
 The cgroup hierarchy as a directory tree, the two fast membership tests used on it, and the simple
 recursive definition of lying in a subtree.
 */
module CgroupTree {
  import opened Common
  import opened Strings
  import opened BpfCommon

  /** A cgroup directory as a walk meets it: its inode number, whether stat, open and readdir work on it,
      and its entries. */
  datatype Dir = Dir(id: Cgid, statOk: bool, openOk: bool, readOk: bool, entries: seq<Entry>)

  /** `Special` is . or .., `Plain` is anything that is not a directory, `Overlong` has a path that does
      not fit, `Vanished` fails its stat. */
  datatype Entry = Special | Plain | Overlong | Vanished | Child(name: string, dir: Dir)

  /** The simple definition: the cgroup itself, or in the subtree of some child. */
  ghost predicate InSubtree(d: Dir, id: Cgid) {
    d.id == id || exists i :: 0 <= i < |d.entries| && ChildHas(d.entries[i], id)
  }

  ghost predicate ChildHas(e: Entry, id: Cgid) {
    e.Child? && InSubtree(e.dir, id)
  }

  // ----- addresses in the tree

  type Addr = seq<nat>

  ghost predicate ValidAddr(d: Dir, a: Addr) {
    a == [] || (a[0] < |d.entries| && d.entries[a[0]].Child? && ValidAddr(d.entries[a[0]].dir, a[1..]))
  }

  ghost function At(d: Dir, a: Addr): Dir
    requires ValidAddr(d, a)
  {
    if a == [] then d else At(d.entries[a[0]].dir, a[1..])
  }

  /** The ids on the path from the root to the cgroup at an address, both included. */
  ghost function PathIds(d: Dir, a: Addr): (ids: seq<Cgid>)
    requires ValidAddr(d, a)
    ensures |ids| == |a| + 1
  {
    if a == [] then [d.id] else [d.id] + PathIds(d.entries[a[0]].dir, a[1..])
  }

  ghost function Names(d: Dir, a: Addr): seq<string>
    requires ValidAddr(d, a)
  {
    if a == [] then [] else [d.entries[a[0]].name] + Names(d.entries[a[0]].dir, a[1..])
  }

  /** A task in the cgroup at an address. */
  ghost function TaskAt(root: Dir, c: Addr): Task
    requires ValidAddr(root, c)
  {
    Task(At(root, c).id, PathIds(root, c))
  }

  ghost predicate DistinctIds(root: Dir) {
    && (forall a, b :: ValidAddr(root, a) && ValidAddr(root, b) && At(root, a).id == At(root, b).id ==> a == b)
    && (forall a :: ValidAddr(root, a) ==> At(root, a).id != 0)
  }

  lemma {:induction false} PathIsAncestors(d: Dir, c: Addr, l: nat)
    requires ValidAddr(d, c)
    ensures l <= |c| ==> ValidAddr(d, c[..l]) && PathIds(d, c)[l] == At(d, c[..l]).id
    decreases c
  {
    if c != [] {
      var sub := d.entries[c[0]].dir;
      PathIsAncestors(sub, c[1..], if l > 0 then l - 1 else 0);
      if 0 < l <= |c| {
        assert c[..l][1..] == c[1..][..l - 1];
      }
    }
  }

  lemma {:induction false} AddrConcat(d: Dir, a: Addr, b: Addr)
    requires ValidAddr(d, a)
    ensures ValidAddr(d, a + b) <==> ValidAddr(At(d, a), b)
    ensures ValidAddr(d, a + b) ==> At(d, a + b) == At(At(d, a), b)
    decreases a
  {
    if a == [] {
      assert a + b == b;
    } else {
      AddrConcat(d.entries[a[0]].dir, a[1..], b);
      assert (a + b)[1..] == a[1..] + b;
    }
  }

  /** Lying in a subtree is having an address in it. */
  lemma {:induction false} SubtreeAddress(d: Dir, id: Cgid) returns (b: Addr)
    requires InSubtree(d, id)
    ensures ValidAddr(d, b) && At(d, b).id == id
  {
    if d.id == id {
      b := [];
    } else {
      var i :| 0 <= i < |d.entries| && ChildHas(d.entries[i], id);
      var rest := SubtreeAddress(d.entries[i].dir, id);
      b := [i] + rest;
      assert b[1..] == rest;
    }
  }

  lemma {:induction false} AddressInSubtree(d: Dir, b: Addr)
    requires ValidAddr(d, b)
    ensures InSubtree(d, At(d, b).id)
    decreases b
  {
    if b != [] {
      AddressInSubtree(d.entries[b[0]].dir, b[1..]);
      assert ChildHas(d.entries[b[0]], At(d, b).id);
    }
  }

  lemma AncestorImpliesSubtree(root: Dir, target: Addr, c: Addr)
    requires DistinctIds(root) && ValidAddr(root, target) && ValidAddr(root, c)
    requires |target| <= |c| && PathIds(root, c)[|target|] == At(root, target).id
    ensures InSubtree(At(root, target), At(root, c).id)
  {
    var l := |target|;
    PathIsAncestors(root, c, l);
    assert c[..l] == target;
    assert c == target + c[l..];
    AddrConcat(root, target, c[l..]);
    AddressInSubtree(At(root, target), c[l..]);
  }

  lemma SubtreeImpliesAncestor(root: Dir, target: Addr, c: Addr)
    requires DistinctIds(root) && ValidAddr(root, target) && ValidAddr(root, c)
    requires InSubtree(At(root, target), At(root, c).id)
    ensures |target| <= |c| && PathIds(root, c)[|target|] == At(root, target).id
  {
    var b := SubtreeAddress(At(root, target), At(root, c).id);
    AddrConcat(root, target, b);
    assert target + b == c;
    assert c[..|target|] == target;
    PathIsAncestors(root, c, |target|);
  }

  /** The ancestor-at-level test accepts a cgroup exactly when it lies in the target's subtree. */
  lemma AncestorTestIsSubtree(root: Dir, target: Addr, c: Addr, rate: nat)
    requires DistinctIds(root) && ValidAddr(root, target) && ValidAddr(root, c)
    ensures InTarget(Cfg(rate, true, |target|, At(root, target).id), TaskAt(root, c))
            <==> InSubtree(At(root, target), At(root, c).id)
  {
    PathIsAncestors(root, c, |target|);
    if |target| <= |c| && PathIds(root, c)[|target|] == At(root, target).id {
      AncestorImpliesSubtree(root, target, c);
    }
    if InSubtree(At(root, target), At(root, c).id) {
      SubtreeImpliesAncestor(root, target, c);
    }
  }

  // ----- the level from the path text

  /** The text of the path from the root to an address, as a relative path. */
  ghost function RelPath(root: Dir, a: Addr): string
    requires ValidAddr(root, a)
  {
    if a == [] then "." else Join(Names(root, a), '/')
  }

  /** Directory names are non-empty, contain no separator and are not the dot. */
  ghost predicate NamesOk(root: Dir) {
    forall a :: ValidAddr(root, a) ==> forall i :: 0 <= i < |Names(root, a)| ==> NameOk(Names(root, a)[i])
  }

  ghost predicate NameOk(name: string) {
    name != "" && name != "." && '/' !in name
  }

  /** Counts the non-empty segments of a relative path. */
  method CgroupLevel(rel: string) returns (n: nat)
    ensures n == LevelOf(rel)
  {
    if rel == "." {
      return 0;
    }
    var segs := Split(rel, '/');
    n := 0;
    var i := 0;
    while i < |segs|
      invariant 0 <= i <= |segs| && n == NonEmpty(segs[..i])
    {
      assert segs[..i + 1][..i] == segs[..i];
      if segs[i] != "" {
        n := n + 1;
      }
      i := i + 1;
    }
    assert segs[..i] == segs;
  }

  function NonEmpty(segs: seq<string>): nat {
    if segs == [] then 0 else NonEmpty(segs[..|segs| - 1]) + if segs[|segs| - 1] != "" then 1 else 0
  }

  function LevelOf(rel: string): nat {
    if rel == "." then 0 else NonEmpty(Split(rel, '/'))
  }

  /** Empty segments do not count, wherever they stand, and every other one does. */
  lemma {:induction false} EmptySegmentsSkipped(a: seq<string>, seg: string, b: seq<string>)
    ensures NonEmpty(a + [seg] + b) == NonEmpty(a + b) + if seg == "" then 0 else 1
  {
    if b == [] {
      assert a + b == a && a + [seg] + b == a + [seg];
      assert (a + [seg])[..|a|] == a;
    } else {
      var init := b[..|b| - 1];
      EmptySegmentsSkipped(a, seg, init);
      var long, short := a + [seg] + b, a + b;
      assert long[..|long| - 1] == a + [seg] + init && short[..|short| - 1] == a + init;
      assert long[|long| - 1] == short[|short| - 1];
    }
  }

  lemma {:induction false} AllNonEmpty(segs: seq<string>)
    requires forall i :: 0 <= i < |segs| ==> segs[i] != ""
    ensures NonEmpty(segs) == |segs|
  {
    if segs != [] {
      AllNonEmpty(segs[..|segs| - 1]);
    }
  }

  lemma {:induction false} NamesLength(d: Dir, a: Addr)
    requires ValidAddr(d, a)
    ensures |Names(d, a)| == |a|
    decreases a
  {
    if a != [] {
      NamesLength(d.entries[a[0]].dir, a[1..]);
    }
  }

  /** The level computed from the path of a cgroup is its depth. */
  lemma LevelIsDepth(root: Dir, a: Addr)
    requires NamesOk(root) && ValidAddr(root, a)
    ensures LevelOf(RelPath(root, a)) == |a|
  {
    NamesLength(root, a);
    if a != [] {
      var names := Names(root, a);
      assert forall i :: 0 <= i < |names| ==> NameOk(names[i]);
      SplitJoin(names, '/');
      AllNonEmpty(names);
      if Join(names, '/') == "." {
        SplitFirst(".", "", '/');
        assert false;
      }
    }
  }

  // ----- the allow-list walk

  /** The ids of all cgroups in a subtree. */
  function Ids(d: Dir): set<Cgid>
    decreases d, 0
  {
    {d.id} + EntryIds(d.entries)
  }

  function EntryIds(es: seq<Entry>): set<Cgid>
    decreases es, 1
  {
    if es == [] then {} else EntryIds(es[..|es| - 1]) + OneIds(es[|es| - 1])
  }

  function OneIds(e: Entry): set<Cgid>
    decreases e, 0
  {
    if e.Child? then Ids(e.dir) else {}
  }

  /** Nothing in the subtree makes the walk fail. */
  predicate Clean(d: Dir)
    decreases d, 0
  {
    d.statOk && d.openOk && d.readOk && EntriesClean(d.entries)
  }

  predicate EntriesClean(es: seq<Entry>)
    decreases es, 1
  {
    es == [] || (EntriesClean(es[..|es| - 1]) && OneClean(es[|es| - 1]))
  }

  predicate OneClean(e: Entry)
    decreases e, 0
  {
    !e.Overlong? && !e.Vanished? && (e.Child? ==> Clean(e.dir))
  }

  /** A directory on which stat, open and readdir work, and whose entries all have paths that fit and can be
      looked at. Plain files and the two special entries are no obstacle. */
  ghost predicate Readable(d: Dir) {
    && d.statOk && d.openOk && d.readOk
    && forall i :: 0 <= i < |d.entries| ==> d.entries[i].Special? || d.entries[i].Plain? || d.entries[i].Child?
  }

  /** Every directory of the subtree is readable. */
  ghost predicate AllReadable(d: Dir) {
    forall a :: ValidAddr(d, a) ==> Readable(At(d, a))
  }

  /** Nothing makes the walk of a subtree fail exactly when every directory in it is readable. */
  lemma CleanIsReadable(d: Dir)
    ensures Clean(d) <==> AllReadable(d)
  {
    if Clean(d) {
      forall a | ValidAddr(d, a)
        ensures Readable(At(d, a))
      {
        CleanBelow(d, a);
      }
    }
    if AllReadable(d) {
      ReadableIsClean(d);
    }
  }

  lemma {:induction false} ReadableIsClean(d: Dir)
    requires AllReadable(d)
    ensures Clean(d)
    decreases d
  {
    assert ValidAddr(d, []) && At(d, []) == d;
    assert Readable(d);
    forall i | 0 <= i < |d.entries|
      ensures OneClean(d.entries[i])
    {
      assert d.entries[i].Special? || d.entries[i].Plain? || d.entries[i].Child?;
      if d.entries[i].Child? {
        var sub := d.entries[i].dir;
        forall a | ValidAddr(sub, a)
          ensures Readable(At(sub, a))
        {
          var b := [i] + a;
          assert b[1..] == a;
          assert ValidAddr(d, b) && At(d, b) == At(sub, a);
        }
        ReadableIsClean(sub);
      }
    }
    EntriesCleanAt(d.entries);
  }

  lemma {:induction false} EntriesCleanAt(es: seq<Entry>)
    ensures EntriesClean(es) <==> forall i :: 0 <= i < |es| ==> OneClean(es[i])
    decreases es
  {
    if es != [] {
      var init := es[..|es| - 1];
      EntriesCleanAt(init);
      assert forall i :: 0 <= i < |init| ==> es[i] == init[i];
    }
  }

  lemma {:induction false} CleanBelow(d: Dir, a: Addr)
    requires Clean(d) && ValidAddr(d, a)
    ensures Readable(At(d, a))
    decreases a
  {
    EntriesCleanAt(d.entries);
    forall i | 0 <= i < |d.entries|
      ensures !d.entries[i].Overlong? && !d.entries[i].Vanished?
    {
      assert OneClean(d.entries[i]);
    }
    if a != [] {
      assert OneClean(d.entries[a[0]]);
      CleanBelow(d.entries[a[0]].dir, a[1..]);
    }
  }

  lemma {:induction false} IdsAreSubtree(d: Dir, id: Cgid)
    ensures id in Ids(d) <==> InSubtree(d, id)
    decreases d, 0
  {
    EntryIdsAreSubtrees(d.entries, id);
  }

  lemma {:induction false} EntryIdsAreSubtrees(es: seq<Entry>, id: Cgid)
    ensures id in EntryIds(es) <==> exists i :: 0 <= i < |es| && ChildHas(es[i], id)
    decreases es
  {
    if es != [] {
      var n := |es| - 1;
      var init := es[..n];
      EntryIdsAreSubtrees(init, id);
      if es[n].Child? {
        IdsAreSubtree(es[n].dir, id);
      }
      if exists i :: 0 <= i < |init| && ChildHas(init[i], id) {
        var i :| 0 <= i < |init| && ChildHas(init[i], id);
        assert ChildHas(es[i], id);
      }
      if exists i :: 0 <= i < |es| && ChildHas(es[i], id) {
        var i :| 0 <= i < |es| && ChildHas(es[i], id);
        assert i < n ==> ChildHas(init[i], id);
      }
    }
  }

  class AllowList {
    const capacity: nat
    var allowed: set<Cgid>

    constructor (capacity: nat)
      ensures this.capacity == capacity && allowed == {}
    {
      this.capacity := capacity;
      allowed := {};
    }

    /** Adding or overwriting an entry fails only when a new key meets a full map. */
    method Add(cgid: Cgid) returns (ok: bool)
      modifies this`allowed
      ensures ok <==> |old(allowed) + {cgid}| <= capacity || cgid in old(allowed)
      ensures allowed == if ok then old(allowed) + {cgid} else old(allowed)
    {
      if cgid !in allowed && |allowed| >= capacity {
        return false;
      }
      allowed := allowed + {cgid};
      return true;
    }

    /** Adds the directory and then its subdirectories. It succeeds exactly when nothing in the subtree
        fails and all its cgroups fit, and then it has added exactly the subtree. */
    method WalkCgroupTree(d: Dir) returns (ok: bool)
      requires |allowed| <= capacity
      modifies this`allowed
      ensures |allowed| <= capacity
      ensures ok <==> Clean(d) && |old(allowed) + Ids(d)| <= capacity
      ensures ok ==> allowed == old(allowed) + Ids(d)
      ensures old(allowed) <= allowed <= old(allowed) + Ids(d)
      decreases d, 2
    {
      ghost var start := allowed;
      SubsetSize(start + {d.id}, start + Ids(d));
      assert start + {d.id} + EntryIds(d.entries) == start + Ids(d);
      if !d.statOk {
        return false;
      }
      var added := Add(d.id);
      if !added {
        return false;
      }
      if !d.openOk {
        return false;
      }
      var walked := WalkEntries(d.entries);
      return walked && d.readOk;
    }

    /** The readdir loop. */
    method WalkEntries(es: seq<Entry>) returns (ok: bool)
      requires |allowed| <= capacity
      modifies this`allowed
      ensures |allowed| <= capacity
      ensures ok <==> EntriesClean(es) && |old(allowed) + EntryIds(es)| <= capacity
      ensures ok ==> allowed == old(allowed) + EntryIds(es)
      ensures old(allowed) <= allowed <= old(allowed) + EntryIds(es)
      decreases es, 1
    {
      ghost var start := allowed;
      var i := 0;
      while i < |es|
        invariant 0 <= i <= |es|
        invariant |allowed| <= capacity
        invariant EntriesClean(es[..i])
        invariant allowed == start + EntryIds(es[..i])
      {
        NextEntry(start, es, i, capacity);
        var entryOk := WalkEntry(es[i]);
        if !entryOk {
          return false;
        }
        i := i + 1;
      }
      assert es[..i] == es;
      return true;
    }

    method WalkEntry(e: Entry) returns (ok: bool)
      requires |allowed| <= capacity
      modifies this`allowed
      ensures |allowed| <= capacity
      ensures ok <==> OneClean(e) && |old(allowed) + OneIds(e)| <= capacity
      ensures ok ==> allowed == old(allowed) + OneIds(e)
      ensures old(allowed) <= allowed <= old(allowed) + OneIds(e)
      decreases e, 0
    {
      match e
      case Special =>
        assert allowed + OneIds(e) == allowed;
        return true;
      case Plain =>
        assert allowed + OneIds(e) == allowed;
        return true;
      case Overlong => return false;
      case Vanished => return false;
      case Child(_, sub) =>
        ok := WalkCgroupTree(sub);
    }
  }

  /** One more entry: what it adds to the walk so far, and that its failure, or its not fitting, is that of
      the whole directory. */
  lemma NextEntry(start: set<Cgid>, es: seq<Entry>, i: nat, capacity: nat)
    requires i < |es|
    ensures start + EntryIds(es[..i]) + OneIds(es[i]) == start + EntryIds(es[..i + 1]) <= start + EntryIds(es)
    ensures EntriesClean(es[..i]) && OneClean(es[i]) ==> EntriesClean(es[..i + 1])
    ensures !OneClean(es[i]) || |start + EntryIds(es[..i]) + OneIds(es[i])| > capacity ==>
              !(EntriesClean(es) && |start + EntryIds(es)| <= capacity)
  {
    EntriesPrefix(es, i);
    assert es[..i + 1][..i] == es[..i];
    assert start + EntryIds(es[..i]) + OneIds(es[i]) == start + EntryIds(es[..i + 1]);
    SubsetSize(start + EntryIds(es[..i + 1]), start + EntryIds(es));
  }

  /** A prefix of the entries is clean and adds nothing new if all of them are. */
  lemma {:induction false} EntriesPrefix(es: seq<Entry>, i: nat)
    requires i < |es|
    ensures EntryIds(es[..i + 1]) <= EntryIds(es)
    ensures EntriesClean(es) ==> EntriesClean(es[..i + 1])
    decreases |es| - i
  {
    if i + 1 == |es| {
      assert es[..i + 1] == es;
    } else {
      EntriesPrefix(es, i + 1);
      assert es[..i + 2][..i + 1] == es[..i + 1];
    }
  }

  // ----- the collector's own list

  /** The collector lists the target and its direct children. */
  ghost function CollectedIds(d: Dir): set<Cgid> {
    {d.id} + set i | 0 <= i < |d.entries| && d.entries[i].Child? :: d.entries[i].dir.id
  }

  ghost predicate HasGrandchild(d: Dir) {
    exists a :: ValidAddr(d, a) && |a| == 2
  }

  lemma ChildAddr(d: Dir, i: nat)
    requires i < |d.entries| && d.entries[i].Child?
    ensures ValidAddr(d, [i]) && At(d, [i]) == d.entries[i].dir
  {
    var a: Addr := [i];
    var rest := a[1..];
    assert rest == [];
    assert ValidAddr(d.entries[i].dir, rest);
    assert At(d.entries[i].dir, rest) == d.entries[i].dir;
    assert ValidAddr(d, a);
    assert At(d, a) == At(d.entries[a[0]].dir, a[1..]);
  }

  lemma {:induction false} CollectedAddress(d: Dir, b: Addr)
    requires DistinctIds(d) && ValidAddr(d, b)
    ensures At(d, b).id in CollectedIds(d) <==> |b| <= 1
  {
    if |b| == 1 {
      ChildAddr(d, b[0]);
      assert b == [b[0]];
    }
    var id := At(d, b).id;
    if id in CollectedIds(d) {
      if id == d.id {
        assert At(d, []).id == id;
      } else {
        var i :| 0 <= i < |d.entries| && d.entries[i].Child? && d.entries[i].dir.id == id;
        ChildAddr(d, i);
      }
    }
  }

  lemma {:induction false} PrefixValid(d: Dir, a: Addr, l: nat)
    requires ValidAddr(d, a) && l <= |a|
    ensures ValidAddr(d, a[..l])
  {
    PathIsAncestors(d, a, l);
  }

  /** The exported list covers the whole subtree that the kernel side counts exactly when no child cgroup
      has children of its own. */
  lemma CollectorCoversSubtree(d: Dir)
    requires DistinctIds(d)
    ensures (forall id :: InSubtree(d, id) ==> id in CollectedIds(d)) <==> !HasGrandchild(d)
  {
    if HasGrandchild(d) {
      var a :| ValidAddr(d, a) && |a| == 2;
      AddressInSubtree(d, a);
      CollectedAddress(d, a);
    } else {
      forall id | InSubtree(d, id)
        ensures id in CollectedIds(d)
      {
        var b := SubtreeAddress(d, id);
        if |b| >= 2 {
          PrefixValid(d, b, 2);
        }
        CollectedAddress(d, b);
      }
    }
  }
}
