/** What the BPF objects share: the hot-swappable configuration, the subtree filter, and per-CPU hash maps. */
module BpfCommon {
  import opened Common

  type Cgid = nat

  datatype Cfg = Cfg(sampleRate: nat, enableFilter: bool, targetLevel: nat, targetCgid: Cgid)

  function Rate(cfg: Cfg): (r: nat)
    ensures r >= 1
  {
    if cfg.sampleRate == 0 then 1 else cfg.sampleRate
  }

  /** The task a program runs in: its cgroup, and the ids on the path from the root (level 0) to it. */
  datatype Task = Task(cgid: Cgid, path: seq<Cgid>)

  /** The ancestor id at a level, 0 when the task's cgroup is not that deep. */
  function AncestorAt(task: Task, level: nat): Cgid {
    if level < |task.path| then task.path[level] else 0
  }

  predicate InTarget(cfg: Cfg, task: Task) {
    !cfg.enableFilter || (AncestorAt(task, cfg.targetLevel) != 0 && AncestorAt(task, cfg.targetLevel) == cfg.targetCgid)
  }

  /** The filter is off, or the path of the task's cgroup has the target at the target's level. */
  ghost predicate Inside(cfg: Cfg, task: Task) {
    cfg.enableFilter ==>
      cfg.targetCgid != 0 && cfg.targetLevel < |task.path| && task.path[cfg.targetLevel] == cfg.targetCgid
  }

  lemma InsideIsInTarget(cfg: Cfg, task: Task)
    ensures InTarget(cfg, task) <==> Inside(cfg, task)
  {
  }

  // ----- per-CPU hash maps

  function Zeros(n: nat): (s: seq<nat>)
    ensures |s| == n
  {
    seq(n, i => 0)
  }

  ghost predicate SlotsOk<K(!new)>(m: map<K, seq<nat>>, ncpu: nat) {
    forall k :: k in m ==> |m[k]| == ncpu
  }

  /** Insert a zero entry if absent and there is room, then add to this CPU's slot if the entry is there. */
  function Added<K(!new)>(m: map<K, seq<nat>>, capacity: nat, ncpu: nat, k: K, cpu: nat, delta: nat): (r: map<K, seq<nat>>)
    requires SlotsOk(m, ncpu) && cpu < ncpu
    ensures SlotsOk(r, ncpu)
  {
    var m1 := if k in m || |m| >= capacity then m else m[k := Zeros(ncpu)];
    if k in m1 then m1[k := m1[k][cpu := m1[k][cpu] + delta]] else m1
  }

  method AddU64<K(==, !new)>(m: map<K, seq<nat>>, capacity: nat, ncpu: nat, k: K, cpu: nat, delta: nat)
    returns (r: map<K, seq<nat>>)
    requires SlotsOk(m, ncpu) && cpu < ncpu
    ensures r == Added(m, capacity, ncpu, k, cpu, delta)
  {
    r := m;
    if k !in r {
      if |r| < capacity {
        r := r[k := Zeros(ncpu)];
      }
      if k !in r {
        return;
      }
    }
    var slots: seq<nat> := r[k];
    r := r[k := slots[cpu := slots[cpu] + delta]];
  }

  /** An add touches one slot of one key: it makes the key if there is room, and leaves every other slot and
      every other key alone. */
  lemma AddedExactly<K(!new)>(m: map<K, seq<nat>>, capacity: nat, ncpu: nat, k: K, cpu: nat, delta: nat, j: K, c: nat)
    requires SlotsOk(m, ncpu) && cpu < ncpu && c < ncpu
    ensures
      var r := Added(m, capacity, ncpu, k, cpu, delta);
      && (j in r <==> j in m || (j == k && |m| < capacity))
      && (j in r ==> r[j][c] == (if j in m then m[j][c] else 0) + if j == k && c == cpu then delta else 0)
  {
  }

  /** The slots of a key add up to `total`; a key without an entry was never charged unless the map is full. */
  ghost predicate Accounts<K(!new)>(m: map<K, seq<nat>>, capacity: nat, k: K, total: nat) {
    if k in m then Sum(m[k]) == total else total == 0 || |m| >= capacity
  }

  lemma AddedAccounts<K(!new)>(m: map<K, seq<nat>>, capacity: nat, ncpu: nat, k: K, cpu: nat, delta: nat, k': K, total: nat)
    requires SlotsOk(m, ncpu) && cpu < ncpu
    requires Accounts(m, capacity, k', total)
    ensures Accounts(Added(m, capacity, ncpu, k, cpu, delta), capacity, k', total + if k' == k then delta else 0)
  {
    var m1 := if k in m || |m| >= capacity then m else m[k := Zeros(ncpu)];
    SumZeros(ncpu);
    if k in m1 {
      SumUpdate(m1[k], cpu, m1[k][cpu] + delta);
    }
  }
}
