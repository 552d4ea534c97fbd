/**
 The filters taken together: the scheduler monitor's allow-list as the walk leaves it, the ancestor test of
 the metrics programs, and the list the collector exports.
 */
module Filters {
  import opened Common
  import opened BpfCommon
  import opened CgroupTree
  import SchedMonitor
  import Collector

  /** The collector's configuration for a target: filter on, at the level computed from the target's path. */
  ghost function TargetCfg(root: Dir, target: Addr, rate: nat): Cfg
    requires ValidAddr(root, target)
  {
    Cfg(rate, true, LevelOf(RelPath(root, target)), At(root, target).id)
  }

  /** The two fast filters agree: over any tree with distinct non-zero ids, the monitor's lookup in a list that
      holds the ids a walk of the target adds, and the ancestor test at the level computed from the target's
      path, accept the same cgroups, those in the target's subtree. */
  lemma FastFiltersAgree(root: Dir, target: Addr, c: Addr, rate: nat, monitor: SchedMonitor.Config)
    requires DistinctIds(root) && NamesOk(root) && ValidAddr(root, target) && ValidAddr(root, c)
    requires monitor.filterEnabled && monitor.allowed == Ids(At(root, target))
    ensures InTarget(TargetCfg(root, target, rate), TaskAt(root, c)) <==> InSubtree(At(root, target), At(root, c).id)
    ensures SchedMonitor.AllowCgroup(monitor, At(root, c).id) <==> InTarget(TargetCfg(root, target, rate), TaskAt(root, c))
  {
    LevelIsDepth(root, target);
    AncestorTestIsSubtree(root, target, c, rate);
    IdsAreSubtree(At(root, target), At(root, c).id);
  }

  /** Loading the monitor: the filter is on, the fresh list is filled by a walk of the target, and a walk that
      fails stops the monitor before anything is attached. When it starts, it lets through exactly the cgroups
      that the metrics programs do for the same target. */
  method LoadMonitor(ghost root: Dir, ghost target: Addr, dir: Dir, listCapacity: nat, capacity: nat, threshold: nat)
    returns (monitor: Option<SchedMonitor.Config>)
    requires DistinctIds(root) && NamesOk(root) && ValidAddr(root, target) && At(root, target) == dir
    ensures monitor.Some? <==> AllReadable(dir) && |Ids(dir)| <= listCapacity
    ensures monitor.Some? ==>
              && monitor.value.capacity == capacity && monitor.value.threshold == threshold
              && forall c, rate :: ValidAddr(root, c) ==>
                   (SchedMonitor.AllowCgroup(monitor.value, At(root, c).id)
                    <==> InTarget(TargetCfg(root, target, rate), TaskAt(root, c)))
  {
    var list := new AllowList(listCapacity);
    var walked := list.WalkCgroupTree(dir);
    assert {} + Ids(dir) == Ids(dir);
    CleanIsReadable(dir);
    if !walked {
      return None;
    }
    monitor := Some(SchedMonitor.Config(capacity, threshold, true, list.allowed));
    forall c, rate | ValidAddr(root, c)
      ensures SchedMonitor.AllowCgroup(monitor.value, At(root, c).id)
              <==> InTarget(TargetCfg(root, target, rate), TaskAt(root, c))
    {
      FastFiltersAgree(root, target, c, rate, monitor.value);
    }
  }

  // ----- counted and not exported

  /** Every allow-list of a run is one that a refresh can find for a tree, the fallback to the target included. */
  ghost predicate ListsOf(d: Dir, trace: seq<Collector.Event>) {
    forall i :: 0 <= i < |trace| && trace[i].Refresh? ==> trace[i].allowed <= CollectedIds(d)
  }

  lemma {:induction false} OffTheLists(d: Dir, su: Collector.Setup, trace: seq<Collector.Event>, k: Collector.Key)
    requires ListsOf(d, trace) && k.0 !in CollectedIds(d)
    ensures k.0 !in Collector.AllowedAt(trace)
    ensures k !in Collector.BookAt(su, trace).exported
  {
    if trace != [] {
      OffTheLists(d, su, trace[..|trace| - 1], k);
    }
  }

  lemma DistinctBelow(root: Dir, target: Addr)
    requires DistinctIds(root) && ValidAddr(root, target)
    ensures DistinctIds(At(root, target))
  {
    var d := At(root, target);
    forall a | ValidAddr(d, a)
      ensures ValidAddr(root, target + a) && At(root, target + a) == At(d, a)
    {
      AddrConcat(root, target, a);
    }
    forall a, b | ValidAddr(d, a) && ValidAddr(d, b) && At(d, a).id == At(d, b).id
      ensures a == b
    {
      assert target + a == target + b;
      assert a == (target + a)[|target|..];
    }
  }

  /** A cgroup two or more levels below the target passes the programs' filter and, whatever is counted for it
      and however often the maps are scanned, is never exported. */
  lemma NestedIsNeverExported(root: Dir, target: Addr, b: Addr, rate: nat, su: Collector.Setup,
                              trace: seq<Collector.Event>, kind: nat)
    requires DistinctIds(root) && NamesOk(root) && ValidAddr(root, target)
    requires ValidAddr(At(root, target), b) && |b| >= 2
    requires ListsOf(At(root, target), trace)
    ensures ValidAddr(root, target + b)
    ensures InTarget(TargetCfg(root, target, rate), TaskAt(root, target + b))
    ensures (At(root, target + b).id, kind) !in Collector.BookAt(su, trace).exported
  {
    var d := At(root, target);
    AddrConcat(root, target, b);
    LevelIsDepth(root, target);
    AncestorTestIsSubtree(root, target, target + b, rate);
    AddressInSubtree(d, b);
    DistinctBelow(root, target);
    CollectedAddress(d, b);
    OffTheLists(d, su, trace, (At(d, b).id, kind));
  }

  /** A target with a child that has a child. */
  const LEAF := Dir(3, true, true, true, [])
  const MIDDLE := Dir(2, true, true, true, [Child("inner", LEAF)])
  const NESTED := Dir(1, true, true, true, [Child("outer", MIDDLE)])

  lemma NestedAddresses(a: Addr)
    requires ValidAddr(NESTED, a)
    ensures a == [] || a == [0] || a == [0, 0]
    ensures At(NESTED, a).id == |a| + 1
  {
    if a != [] {
      var r := a[1..];
      assert a[0] == 0 && ValidAddr(MIDDLE, r) && At(NESTED, a) == At(MIDDLE, r);
      if r != [] {
        var t := r[1..];
        assert r[0] == 0 && ValidAddr(LEAF, t) && At(MIDDLE, r) == At(LEAF, t);
        assert |LEAF.entries| == 0;
        assert t == [];
        assert a == [0, 0];
      }
    }
  }

  /** In that tree the walk, the filter and the list differ as stated: the leaf is in the subtree, has its
      increment counted, and is not exported. */
  lemma LeafIsCountedNotExported(kind: nat, n: nat)
    ensures DistinctIds(NESTED) && InSubtree(NESTED, LEAF.id) && CollectedIds(NESTED) == {NESTED.id, MIDDLE.id}
    ensures
      var su := Collector.Setup(1, 1);
      var trace := [Collector.Refresh(CollectedIds(NESTED)), Collector.Inc((LEAF.id, kind), 0, n), Collector.Look((LEAF.id, kind))];
      && Collector.TotalAt(su, trace, (LEAF.id, kind)) == n
      && GetOr0(Collector.BookAt(su, trace).exported, (LEAF.id, kind)) == 0
  {
    forall a, b | ValidAddr(NESTED, a) && ValidAddr(NESTED, b) && At(NESTED, a).id == At(NESTED, b).id
      ensures a == b
    {
      NestedAddresses(a);
      NestedAddresses(b);
    }
    forall a | ValidAddr(NESTED, a)
      ensures At(NESTED, a).id != 0
    {
      NestedAddresses(a);
    }
    var leaf: Addr := [0, 0];
    assert leaf[1..] == [0] && leaf[1..][1..] == [];
    assert ValidAddr(NESTED, leaf);
    NestedAddresses(leaf);
    AddressInSubtree(NESTED, leaf);
    var su, k := Collector.Setup(1, 1), (LEAF.id, kind);
    var t1: seq<Collector.Event> := [Collector.Refresh(CollectedIds(NESTED))];
    var t2 := t1 + [Collector.Inc(k, 0, n)];
    var t3 := t2 + [Collector.Look(k)];
    assert t1[..0] == [] && t2[..1] == t1 && t3[..2] == t2;
    AddedAccounts(map[], 1, 1, k, 0, n, k, 0);
    assert Collector.KernelAt(su, t1) == map[];
    assert Collector.KernelAt(su, t3) == Added(map[], 1, 1, k, 0, n);
    assert t3 == [Collector.Refresh(CollectedIds(NESTED)), Collector.Inc(k, 0, n), Collector.Look(k)];
    OffTheLists(NESTED, su, t3, k);
  }
}
